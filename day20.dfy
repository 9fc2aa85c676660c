/** Day 20, "Race Condition": a single racetrack runs through a wall map
    from S to E.  Walking it from S gives every cell the number of track
    tiles still to run from it, counting down to 0; a cheat jumps from a
    track cell to any timed cell at most `cheats` steps away and saves the
    difference in their times less the length of the jump. */
module RaceCondition {
  import opened Wrappers
  import opened Grid
  import Text
  import Arith

  datatype Tile = Racetrack | Wall | Start | Finish

  /** `Tile::from`: None where the source panics on another character. */
  function TileOf(c: char): (r: Option<Tile>)
    ensures r.None? <==> c != '#' && c != '.' && c != 'S' && c != 'E'
  {
    match c
    case '#' => Some(Wall)
    case '.' => Some(Racetrack)
    case 'S' => Some(Start)
    case 'E' => Some(Finish)
    case _ => None
  }

  /** `Display for Tile`: the character that reads back as the tile. */
  function TileChar(t: Tile): (c: char)
    ensures TileOf(c) == Some(t)
  {
    match t
    case Racetrack => '.'
    case Wall => '#'
    case Start => 'S'
    case Finish => 'E'
  }

  /** The tiles `length` counts and the walk may step onto. */
  predicate OnTrack(t: Tile) {
    t == Racetrack || t == Finish
  }

  /** `Track`: the grid, where S is and how many track tiles there are. */
  datatype Track = Track(grid: seq<seq<Tile>>, start: Point, length: nat)

  // ---------------------------------------------------------------------
  // Track::from

  /** The last S among the first k cells of a row. */
  function LastStartIn(row: seq<Tile>, k: nat): (r: Option<nat>)
    requires k <= |row|
    ensures r.Some? ==> r.value < k && row[r.value] == Start
    ensures r.Some? ==> forall j :: r.value < j < k ==> row[j] != Start
    ensures r.None? ==> forall j :: 0 <= j < k ==> row[j] != Start
  {
    if k == 0 then None
    else if row[k - 1] == Start then Some(k - 1)
    else LastStartIn(row, k - 1)
  }

  /** The last S, in reading order, among the first n rows. */
  function LastStart(grid: seq<seq<Tile>>, n: nat): (r: Option<Point>)
    requires n <= |grid|
    ensures r.Some? ==> r.value.0 < n && InBounds(grid, r.value) && grid[r.value.0][r.value.1] == Start
    ensures r.Some? ==> forall q :: InBounds(grid, q) && q.0 < n && Before(r.value, q) ==> grid[q.0][q.1] != Start
    ensures r.None? ==> forall q :: InBounds(grid, q) && q.0 < n ==> grid[q.0][q.1] != Start
  {
    if n == 0 then None
    else match LastStartIn(grid[n - 1], |grid[n - 1]|)
      case Some(j) => Some((n - 1, j))
      case None => LastStart(grid, n - 1)
  }

  /** Where `start` stands after the first n rows: the last S so far, or
      the initial (0, 0) while there is none. */
  function StartAfter(grid: seq<seq<Tile>>, n: nat): Point
    requires n <= |grid|
  {
    match LastStart(grid, n)
    case Some(p) => p
    case None => (0, 0)
  }

  /** The track `Track::from` builds from a map: S is its last S in
      reading order ((0, 0) with none), and its length counts the
      Racetrack and Finish tiles. */
  function TrackOf(grid: seq<seq<Tile>>): (t: Track)
    ensures t.grid == grid
    ensures (exists q :: InBounds(grid, q) && grid[q.0][q.1] == Start) ==>
      InBounds(grid, t.start) && grid[t.start.0][t.start.1] == Start
    ensures (forall q :: InBounds(grid, q) ==> grid[q.0][q.1] != Start) ==> t.start == (0, 0)
    ensures forall q :: InBounds(grid, q) && Before(t.start, q) ==> grid[q.0][q.1] != Start
  {
    Track(grid, StartAfter(grid, |grid|), CountIn(grid, Racetrack) + CountIn(grid, Finish))
  }

  /** What one more row adds to the counts and to `start`. */
  lemma RowEnd(grid: seq<seq<Tile>>, x: nat)
    requires x < |grid|
    ensures CountIn(grid[..x + 1], Racetrack) == CountIn(grid[..x], Racetrack) + multiset(grid[x])[Racetrack]
    ensures CountIn(grid[..x + 1], Finish) == CountIn(grid[..x], Finish) + multiset(grid[x])[Finish]
    ensures StartAfter(grid, x + 1) ==
      match LastStartIn(grid[x], |grid[x]|) case Some(j) => (x, j) case None => StartAfter(grid, x)
  {
    assert grid[..x + 1][..x] == grid[..x];
  }

  /** `Track::from`'s `for_each` over `map.iter()`, row by row: every
      Racetrack and Finish tile adds one to `length`, every S moves
      `start` to it. */
  method FromMap(grid: seq<seq<Tile>>) returns (track: Track)
    ensures track == TrackOf(grid)
  {
    var start: Point := (0, 0);
    var length := 0;
    for x := 0 to |grid|
      invariant length == CountIn(grid[..x], Racetrack) + CountIn(grid[..x], Finish)
      invariant start == StartAfter(grid, x)
    {
      start, length := FromRow(grid[x], x, start, length);
      RowEnd(grid, x);
    }
    assert grid[..|grid|] == grid;
    track := Track(grid, start, length);
  }

  /** The cells of row x in `Track::from`'s `for_each`: `length` counts
      its Racetrack and Finish tiles, `start` moves to its last S. */
  method FromRow(row: seq<Tile>, x: nat, start: Point, length: nat) returns (start': Point, length': nat)
    ensures length' == length + multiset(row)[Racetrack] + multiset(row)[Finish]
    ensures start' == match LastStartIn(row, |row|) case Some(j) => (x, j) case None => start
  {
    start', length' := start, length;
    for y := 0 to |row|
      invariant length' == length + multiset(row[..y])[Racetrack] + multiset(row[..y])[Finish]
      invariant start' == match LastStartIn(row, y) case Some(j) => (x, j) case None => start
    {
      assert row[..y + 1] == row[..y] + [row[y]];
      match row[y]
      case Racetrack => length' := length' + 1;
      case Finish => length' := length' + 1;
      case Start => start' := (x, y);
      case Wall =>
    }
    assert row[..|row|] == row;
  }

  /** `Track::from(input.trim())`'s grid: None where a character is not a
      tile. */
  function ParseMap(input: string): (r: Option<seq<seq<Tile>>>)
    ensures r.Some? ==> |r.value| == |Text.Lines(Text.Trim(input))|
  {
    ParseGrid(Text.Lines(Text.Trim(input)), TileOf)
  }

  // ---------------------------------------------------------------------
  // times_per_positon

  /** `usize::MAX`, the mark of a cell the walk never reached. */
  const UsizeMax: nat := 0xFFFF_FFFF_FFFF_FFFF

  /** The timing table `vec![vec![usize::MAX; height]; width]`: `width`
      rows (the map's width, taken as the length of its first row) of
      `height` entries (the number of rows), indexed `[p.0][p.1]` with the
      row first.  On a map that is not square some cells are off it. */
  predicate Shaped(times: seq<seq<nat>>, grid: seq<seq<Tile>>) {
    |times| == Width(grid) && forall x :: 0 <= x < |times| ==> |times[x]| == |grid|
  }

  /** q indexes the timing table. */
  predicate InTable(grid: seq<seq<Tile>>, q: Point) {
    0 <= q.0 < Width(grid) && 0 <= q.1 < |grid|
  }

  /** On a square map the table covers exactly the map's cells. */
  lemma SquareTable(grid: seq<seq<Tile>>, q: Point)
    requires Rectangular(grid) && Width(grid) == |grid|
    ensures InTable(grid, q) <==> InBounds(grid, q)
  {
  }

  /** The entry the walk leaves at q after writing `length`, `length - 1`,
      ... at the cells of `route` in turn: the value of q's last write, or
      `usize::MAX` for a cell never written. */
  function TimeOf(route: seq<Point>, length: nat, q: Point): nat
    requires |route| <= length + 1
  {
    match Seqs.LastIndexOf(route, q)
    case Some(i) => length - i
    case None => UsizeMax
  }

  /** A cell reads as untimed exactly when the walk never wrote it, as long
      as the track is shorter than `usize::MAX` tiles; a written cell holds
      at most `length`. */
  lemma TimeOfMeans(route: seq<Point>, length: nat, q: Point)
    requires |route| <= length + 1 && length < UsizeMax
    ensures TimeOf(route, length, q) == UsizeMax <==> q !in route
    ensures q in route ==> TimeOf(route, length, q) <= length
  {
  }

  lemma TimeOfAppend(route: seq<Point>, length: nat, p: Point, q: Point)
    requires |route| + 1 <= length + 1
    ensures TimeOf(route + [p], length, q) == if q == p then length - |route| else TimeOf(route, length, q)
  {
    assert (route + [p])[..|route|] == route;
  }

  /** With the cells of `route` written from `length` down, q is a cell
      the walk may step onto: on the table (its entry is read first), on
      the grid, on the track and reading as untimed. */
  predicate Open(grid: seq<seq<Tile>>, route: seq<Point>, length: nat, q: Point)
    requires |route| <= length + 1
  {
    InTable(grid, q) && InBounds(grid, q) && OnTrack(grid[q.0][q.1]) && TimeOf(route, length, q) == UsizeMax
  }

  /** The neighbours of p before the k-th are all on the table and none is
      open. */
  predicate ShutBefore(grid: seq<seq<Tile>>, route: seq<Point>, length: nat, p: Point, k: nat)
    requires |route| <= length + 1 && k <= 4
  {
    forall j :: 0 <= j < k ==> InTable(grid, StepTo(p, j)) && !Open(grid, route, length, StepTo(p, j))
  }

  /** One pass of the neighbour loop from the last cell written: the walk
      goes to the first open neighbour in cardinal order, or stays where
      it is when every neighbour is on the table and none is open. */
  ghost predicate Moves(grid: seq<seq<Tile>>, route: seq<Point>, length: nat, next: Point)
    requires 0 < |route| <= length + 1
  {
    var p := route[|route| - 1];
    (exists k :: 0 <= k < 4 && next == StepTo(p, k) && Open(grid, route, length, next) &&
       ShutBefore(grid, route, length, p, k)) ||
    (next == p && ShutBefore(grid, route, length, p, 4))
  }

  /** The neighbour loop from the last cell written indexes off the table
      before it finds an open cell, and the source panics. */
  ghost predicate Overruns(grid: seq<seq<Tile>>, route: seq<Point>, length: nat)
    requires 0 < |route| <= length + 1
  {
    var p := route[|route| - 1];
    exists k :: 0 <= k < 4 && !InTable(grid, StepTo(p, k)) && ShutBefore(grid, route, length, p, k)
  }

  /** The cells written by the walk from `start`, in order: each after the
      first is where the neighbour loop went from the ones before. */
  ghost predicate Walk(grid: seq<seq<Tile>>, start: Point, length: nat, route: seq<Point>) {
    0 < |route| <= length + 1 && route[0] == start &&
    (forall i :: 0 <= i < |route| ==> InBounds(grid, route[i])) &&
    (forall i :: 0 < i < |route| ==> Moves(grid, route[..i], length, route[i]))
  }

  lemma WalkExtend(grid: seq<seq<Tile>>, start: Point, length: nat, route: seq<Point>, next: Point)
    requires Walk(grid, start, length, route) && |route| + 1 <= length + 1
    requires Moves(grid, route, length, next) && InBounds(grid, next)
    ensures Walk(grid, start, length, route + [next])
  {
    var r := route + [next];
    forall i | 0 < i < |r| ensures Moves(grid, r[..i], length, r[i]) {
      assert r[..i] == route[..i] || i == |route|;
      if i == |route| {
        assert r[..i] == route;
      } else {
        assert r[..i] == route[..i] && r[i] == route[i];
      }
    }
  }

  /** The neighbour a move went to, or 4 for staying put. */
  lemma MoveIndex(grid: seq<seq<Tile>>, route: seq<Point>, length: nat, next: Point) returns (k: nat)
    requires 0 < |route| <= length + 1 && Moves(grid, route, length, next)
    ensures k <= 4 && ShutBefore(grid, route, length, route[|route| - 1], k)
    ensures k < 4 ==> next == StepTo(route[|route| - 1], k) && Open(grid, route, length, next)
    ensures k == 4 ==> next == route[|route| - 1]
  {
    var p := route[|route| - 1];
    if exists j :: 0 <= j < 4 && next == StepTo(p, j) && Open(grid, route, length, next) && ShutBefore(grid, route, length, p, j) {
      k :| 0 <= k < 4 && next == StepTo(p, k) && Open(grid, route, length, next) && ShutBefore(grid, route, length, p, k);
    } else {
      k := 4;
    }
  }

  /** From a given route the neighbour loop has one outcome: at most one
      next cell, and none when it overruns the table. */
  lemma MovesUnique(grid: seq<seq<Tile>>, route: seq<Point>, length: nat, a: Point, b: Point)
    requires 0 < |route| <= length + 1
    requires Moves(grid, route, length, a) && Moves(grid, route, length, b)
    ensures a == b
  {
    var ka := MoveIndex(grid, route, length, a);
    var kb := MoveIndex(grid, route, length, b);
    if ka < kb {
      assert false;
    } else if kb < ka {
      assert false;
    }
  }

  lemma OverrunsMoves(grid: seq<seq<Tile>>, route: seq<Point>, length: nat, a: Point)
    requires 0 < |route| <= length + 1 && Overruns(grid, route, length)
    ensures !Moves(grid, route, length, a)
  {
    var p := route[|route| - 1];
    var ko :| 0 <= ko < 4 && !InTable(grid, StepTo(p, ko)) && ShutBefore(grid, route, length, p, ko);
    if Moves(grid, route, length, a) {
      var ka := MoveIndex(grid, route, length, a);
      if ka < ko {
        assert false;
      } else if ko < ka {
        assert false;
      }
    }
  }

  /** `times[p.0][p.1] = v`. */
  function Write(times: seq<seq<nat>>, p: Point, v: nat): seq<seq<nat>>
    requires InBounds(times, p)
  {
    var row: seq<nat> := times[p.0][p.1 := v];
    times[p.0 := row]
  }

  /** Writing the tiles left at the next cell of the walk keeps the table
      what the route so far says it is. */
  lemma WriteTime(grid: seq<seq<Tile>>, times: seq<seq<nat>>, route: seq<Point>, length: nat, p: Point, v: nat)
    requires |route| + v == length && InTable(grid, p) && Shaped(times, grid)
    requires forall q :: InTable(grid, q) ==> times[q.0][q.1] == TimeOf(route, length, q)
    ensures Shaped(Write(times, p, v), grid)
    ensures forall q :: InTable(grid, q) ==>
      Write(times, p, v)[q.0][q.1] == TimeOf(route + [p], length, q)
  {
    var t := Write(times, p, v);
    forall q | InTable(grid, q) ensures t[q.0][q.1] == TimeOf(route + [p], length, q) {
      TimeOfAppend(route, length, p, q);
    }
  }

  /** A cell met again at step j was already the cell at step j - 1: the
      neighbour loop does not go back to a timed cell. */
  lemma StayStep(grid: seq<seq<Tile>>, start: Point, length: nat, route: seq<Point>, i: nat, j: nat)
    requires Walk(grid, start, length, route) && length < UsizeMax
    requires i < j < |route| && route[j] == route[i]
    ensures route[j - 1] == route[j]
  {
    var prefix := route[..j];
    assert Moves(grid, prefix, length, route[j]);
    var k := MoveIndex(grid, prefix, length, route[j]);
    assert route[j] in prefix by { assert prefix[i] == route[i]; }
    TimeOfMeans(prefix, length, route[j]);
    assert !Open(grid, prefix, length, route[j]);
    if k < 4 {
      assert false;
    }
    assert route[j - 1] == prefix[j - 1];
  }

  /** The walk never comes back to a cell it has left: a cell met again
      later is the cell the walk has stayed on all along. */
  lemma {:induction false} WalkStays(grid: seq<seq<Tile>>, start: Point, length: nat, route: seq<Point>, i: nat, j: nat)
    requires Walk(grid, start, length, route) && length < UsizeMax
    requires i < j < |route| && route[j] == route[i]
    ensures forall k :: i <= k <= j ==> route[k] == route[i]
    decreases j - i
  {
    StayStep(grid, start, length, route, i, j);
    if i < j - 1 {
      WalkStays(grid, start, length, route, i, j - 1);
    }
  }

  /** A cell the walk leaves at step i (or stops on) is last written at
      step i: it holds `length - i`. */
  lemma LeavingTime(grid: seq<seq<Tile>>, start: Point, length: nat, route: seq<Point>, i: nat)
    requires Walk(grid, start, length, route) && length < UsizeMax && i < |route|
    requires i == |route| - 1 || route[i + 1] != route[i]
    ensures TimeOf(route, length, route[i]) == length - i
  {
    var last := Seqs.LastIndexOf(route, route[i]);
    var j := last.value;
    if j > i {
      WalkStays(grid, start, length, route, i, j);
    }
  }

  /** Every cell the walk writes after its first is a Racetrack or Finish
      tile, unless the walk never left the start. */
  lemma {:induction false} WalkOnTrack(grid: seq<seq<Tile>>, start: Point, length: nat, route: seq<Point>, i: nat)
    requires Walk(grid, start, length, route) && i < |route|
    ensures route[i] == start || OnTrack(grid[route[i].0][route[i].1])
  {
    if i > 0 {
      var prefix := route[..i];
      var k := MoveIndex(grid, prefix, length, route[i]);
      if k == 4 {
        assert route[i] == prefix[i - 1] == route[i - 1];
        WalkOnTrack(grid, start, length, route, i - 1);
      }
    }
  }

  /** The neighbour loop of `times_per_positon` from `p`, the cell just
      written: the first neighbour, in cardinal order, that is untimed and
      a Racetrack or Finish tile, or `p` itself when there is none; None
      where a neighbour looked at is off the table and the source panics. */
  method NextCell(grid: seq<seq<Tile>>, times: seq<seq<nat>>, ghost route: seq<Point>, length: nat, p: Point)
    returns (r: Option<Point>)
    requires 0 < |route| <= length + 1 && p == route[|route| - 1]
    requires Shaped(times, grid)
    requires forall q :: InTable(grid, q) ==> times[q.0][q.1] == TimeOf(route, length, q)
    ensures r.Some? ==> (Moves(grid, route, length, r.value) &&
      (r.value == p || (InBounds(grid, r.value) && InTable(grid, r.value))))
    ensures r.None? ==> Overruns(grid, route, length)
  {
    var neighbours := CardinalNeighbours(grid, p);
    for k := 0 to 4
      invariant ShutBefore(grid, route, length, p, k)
    {
      var (np, tile) := neighbours[k];
      if !InTable(grid, np) {
        return None;
      }
      if times[np.0][np.1] != UsizeMax {
        continue;
      }
      if tile == Some(Racetrack) || tile == Some(Finish) {
        assert Open(grid, route, length, np);
        return Some(np);
      }
    }
    return Some(p);
  }

  /** The walk has written the cells of `route` into `times`, from
      `length` down, and every one of them is on the table. */
  ghost predicate Written(track: Track, times: seq<seq<nat>>, route: seq<Point>) {
    Walk(track.grid, track.start, track.length, route) &&
    (forall i :: 0 <= i < |route| ==> InTable(track.grid, route[i])) && Shaped(times, track.grid) &&
    forall q :: InTable(track.grid, q) ==> times[q.0][q.1] == TimeOf(route, track.length, q)
  }

  /** The state at the top of `times_per_positon`'s loop: nothing written
      yet and the walk at S, or the walk has written `route` and the
      neighbour loop went to `position`. */
  ghost predicate Ready(track: Track, times: seq<seq<nat>>, route: seq<Point>, position: Point) {
    if route == [] then
      position == track.start && Shaped(times, track.grid) &&
      forall q :: InTable(track.grid, q) ==> times[q.0][q.1] == UsizeMax
    else
      Written(track, times, route) && |route| <= track.length &&
      Moves(track.grid, route, track.length, position) && InBounds(track.grid, position) &&
      InTable(track.grid, position)
  }

  lemma ReadyStart(track: Track)
    ensures Ready(track, seq(Width(track.grid), _ => seq(|track.grid|, _ => UsizeMax)), [], track.start)
  {
  }

  /** Writing the tiles left at the walk's cell extends what is written. */
  lemma ReadyWrite(track: Track, times: seq<seq<nat>>, route: seq<Point>, position: Point, tilesLeft: nat)
    requires |route| + tilesLeft == track.length && Ready(track, times, route, position)
    requires InBounds(track.grid, position) && InTable(track.grid, position)
    ensures Written(track, Write(times, position, tilesLeft), route + [position])
  {
    var grid, length := track.grid, track.length;
    WriteTime(grid, times, route, length, position, tilesLeft);
    if route != [] {
      WalkExtend(grid, track.start, length, route, position);
    } else {
      assert [position][0] == track.start;
    }
    var r := route + [position];
    assert forall i :: 0 <= i < |r| ==> r[i] == if i < |route| then route[i] else position;
  }

  /** The neighbour loop's cell is where the walk goes on from. */
  lemma WrittenMove(track: Track, times: seq<seq<nat>>, route: seq<Point>, next: Point)
    requires Written(track, times, route) && |route| <= track.length
    requires Moves(track.grid, route, track.length, next)
    requires next == route[|route| - 1] || (InBounds(track.grid, next) && InTable(track.grid, next))
    ensures Ready(track, times, route, next)
  {
  }

  /** `times_per_positon`: from S, write the tiles left (`length` first)
      at the current cell, stop after writing 0, and otherwise move to the
      first neighbour, in cardinal order, that is untimed and a Racetrack
      or Finish tile; with no such neighbour the walk stays put.  None
      where the source panics on indexing the table off the grid, when S is
      not on it or a neighbour is looked at off it.  The ghost `route` is
      the sequence of cells written. */
  method TimesPerPosition(track: Track) returns (r: Option<seq<seq<nat>>>, ghost route: seq<Point>)
    ensures r.Some? ==> Timing(track, r.value, route)
    ensures r.None? ==> Panics(track, route)
  {
    var grid := track.grid;
    var length := track.length;
    var position := track.start;
    var tilesLeft := length;
    var times: seq<seq<nat>> := seq(Width(grid), _ => seq(|grid|, _ => UsizeMax));
    route := [];
    ReadyStart(track);
    while true
      invariant |route| + tilesLeft == length
      invariant Ready(track, times, route, position)
      decreases tilesLeft
    {
      if !InBounds(grid, position) || !InTable(grid, position) {
        return None, route;
      }
      ReadyWrite(track, times, route, position, tilesLeft);
      times := Write(times, position, tilesLeft);
      route := route + [position];
      if tilesLeft == 0 {
        return Some(times), route;
      }
      tilesLeft := tilesLeft - 1;
      var next := NextCell(grid, times, route, length, position);
      if next.None? {
        return None, route;
      }
      WrittenMove(track, times, route, next.value);
      position := next.value;
    }
  }

  /** What `times_per_positon` returns for a track when it does not
      panic: the table its walk `route` leaves, from `length` down to 0. */
  ghost predicate Timing(track: Track, times: seq<seq<nat>>, route: seq<Point>) {
    |route| == track.length + 1 && Written(track, times, route)
  }

  /** Where `times_per_positon` panics: S off the table (or off the map,
      which `StartPlaced` shows is off the table for every track that
      `Track::from` builds), or a walk whose neighbour loop overruns the
      table before the count reaches 0. */
  ghost predicate Panics(track: Track, route: seq<Point>) {
    (route == [] && !(InBounds(track.grid, track.start) && InTable(track.grid, track.start))) ||
    (Walk(track.grid, track.start, track.length, route) && |route| <= track.length &&
     Overruns(track.grid, route, track.length))
  }

  /** For a track that `Track::from` builds, S off the map is off the
      table too: with no S the start is (0, 0), which is on the table only
      when the map has a cell. */
  lemma StartPlaced(grid: seq<seq<Tile>>)
    ensures InTable(grid, TrackOf(grid).start) ==> InBounds(grid, TrackOf(grid).start)
  {
    var start := TrackOf(grid).start;
    if !InBounds(grid, start) && InTable(grid, start) {
      assert forall q :: InBounds(grid, q) ==> grid[q.0][q.1] != Start;
      assert start == (0, 0) && |grid| > 0 && |grid[0]| > 0;
    }
  }

  /** The map `#######`, `#S...E#`, `#######`: a track that is wider than
      it is high. */
  const Wide: seq<seq<Tile>> := [
    [Wall, Wall, Wall, Wall, Wall, Wall, Wall],
    [Wall, Start, Racetrack, Racetrack, Racetrack, Finish, Wall],
    [Wall, Wall, Wall, Wall, Wall, Wall, Wall]]

  /** From S the walk on the map above goes right: up, down and left are walls. */
  lemma WideFirstStep()
    ensures Moves(Wide, [(1, 1)], 4, (1, 2))
  {
    var first: seq<Point> := [(1, 1)];
    assert ShutBefore(Wide, first, 4, (1, 1), 3) by {
      assert StepTo((1, 1), 0) == (0, 1) && StepTo((1, 1), 1) == (2, 1) && StepTo((1, 1), 2) == (1, 0);
    }
    assert StepTo((1, 1), 3) == (1, 2) && Open(Wide, first, 4, (1, 2));
  }

  /** On the map above the table has 7 rows of 3 entries: after S and the
      cell right of it, the neighbour loop looks at (1, 3), off the table,
      and the source panics. */
  lemma WidePanics()
    ensures Panics(Track(Wide, (1, 1), 4), [(1, 1), (1, 2)])
  {
    var route: seq<Point> := [(1, 1), (1, 2)];
    WideFirstStep();
    assert route[..1] == [(1, 1)];
    assert Walk(Wide, (1, 1), 4, route);
    assert TimeOf(route, 4, (1, 1)) == 4 by {
      assert Seqs.LastIndexOf(route, (1, 1)) == Some(0);
    }
    assert ShutBefore(Wide, route, 4, (1, 2), 3) by {
      assert StepTo((1, 2), 0) == (0, 2) && StepTo((1, 2), 1) == (2, 2) && StepTo((1, 2), 2) == (1, 1);
    }
    assert StepTo((1, 2), 3) == (1, 3) && !InTable(Wide, (1, 3));
  }

  /** Two walks from the same start agree on every step they both make. */
  /** The tie from one step to the next in WalksAgree. */
  lemma AgreeStep(grid: seq<seq<Tile>>, length: nat, a: seq<Point>, b: seq<Point>, n: nat)
    requires 0 < n <= length && n < |a| && n < |b| && a[..n] == b[..n]
    requires Moves(grid, a[..n], length, a[n]) && Moves(grid, b[..n], length, b[n])
    ensures a[..n + 1] == b[..n + 1]
  {
    MovesUnique(grid, a[..n], length, a[n], b[n]);
    assert a[..n + 1] == a[..n] + [a[n]] && b[..n + 1] == b[..n] + [b[n]];
  }

  lemma {:induction false} WalksAgree(grid: seq<seq<Tile>>, start: Point, length: nat, a: seq<Point>, b: seq<Point>, n: nat)
    requires Walk(grid, start, length, a) && Walk(grid, start, length, b)
    requires 0 < n <= |a| && n <= |b|
    ensures a[..n] == b[..n]
  {
    if n > 1 {
      WalksAgree(grid, start, length, a, b, n - 1);
      AgreeStep(grid, length, a, b, n - 1);
    } else {
      assert a[..n] == [a[0]] && b[..n] == [b[0]];
    }
  }

  /** The walk, and so the table, is determined by the track: the source
      computes the same table on every call. */
  lemma TimingUnique(track: Track, t1: seq<seq<nat>>, r1: seq<Point>, t2: seq<seq<nat>>, r2: seq<Point>)
    requires Timing(track, t1, r1) && Timing(track, t2, r2)
    ensures r1 == r2 && t1 == t2
  {
    WalksAgree(track.grid, track.start, track.length, r1, r2, |r1|);
    assert r1 == r1[..|r1|] && r2 == r2[..|r2|];
    forall x | 0 <= x < |t1| ensures t1[x] == t2[x] {
      forall y | 0 <= y < |t1[x]| ensures t1[x][y] == t2[x][y] {
        assert InTable(track.grid, (x, y));
      }
    }
  }

  /** A track whose walk times does not panic on any walk. */
  lemma TimingNotPanics(track: Track, times: seq<seq<nat>>, route: seq<Point>, other: seq<Point>)
    requires Timing(track, times, route)
    ensures !Panics(track, other)
  {
    assert InBounds(track.grid, route[0]) && InTable(track.grid, route[0]);
    if Walk(track.grid, track.start, track.length, other) && |other| <= track.length &&
       Overruns(track.grid, other, track.length) {
      var n := |other|;
      WalksAgree(track.grid, track.start, track.length, route, other, n);
      assert route[..n] == other;
      assert Moves(track.grid, route[..n], track.length, route[n]);
      OverrunsMoves(track.grid, other, track.length, route[n]);
    }
  }

  /** What the table says about a cell: untimed exactly when the walk
      never reached it; otherwise a time of at most `length`, at the start
      or on a Racetrack or Finish tile. */
  lemma TimingMeans(track: Track, times: seq<seq<nat>>, route: seq<Point>, q: Point)
    requires Timing(track, times, route) && track.length < UsizeMax && InTable(track.grid, q)
    ensures times[q.0][q.1] == UsizeMax <==> q !in route
    ensures times[q.0][q.1] != UsizeMax ==> (times[q.0][q.1] <= track.length &&
      InBounds(track.grid, q) && (q == track.start || OnTrack(track.grid[q.0][q.1])))
  {
    TimeOfMeans(route, track.length, q);
    if q in route {
      var i :| 0 <= i < |route| && route[i] == q;
      WalkOnTrack(track.grid, track.start, track.length, route, i);
    }
  }

  // ---------------------------------------------------------------------
  // completion_times

  /** `i.abs_diff(cheats) + j.abs_diff(cheats)`. */
  function Spread(i: nat, j: nat, cheats: nat): nat {
    Arith.Abs(i - cheats) + Arith.Abs(j - cheats)
  }

  /** Where the offset indices (i, j) of the square around p land:
      `wrapping_add_signed(i - cheats)` and likewise for j. */
  function Landing(p: Point, i: nat, j: nat, cheats: nat): Point {
    (p.0 + i - cheats, p.1 + j - cheats)
  }

  /** The body of the offset loops for (i, j): the time saved by cheating
      from a cell whose normal time is `normal` to where (i, j) lands, if
      that is within the diamond, on the table, timed and faster. */
  function Saving(times: seq<seq<nat>>, p: Point, normal: nat, cheats: nat, i: nat, j: nat): seq<nat> {
    var distance := Spread(i, j, cheats);
    var q := Landing(p, i, j, cheats);
    if distance <= cheats && InBounds(times, q) && times[q.0][q.1] != UsizeMax && normal > times[q.0][q.1] + distance
    then [normal - (times[q.0][q.1] + distance)]
    else []
  }

  /** The savings of offset row i, columns below m. */
  function RowSavings(times: seq<seq<nat>>, p: Point, normal: nat, cheats: nat, i: nat, m: nat): seq<nat> {
    if m == 0 then [] else RowSavings(times, p, normal, cheats, i, m - 1) + Saving(times, p, normal, cheats, i, m - 1)
  }

  /** The savings of the offset rows below n. */
  function SquareSavings(times: seq<seq<nat>>, p: Point, normal: nat, cheats: nat, n: nat): seq<nat> {
    if n == 0 then []
    else SquareSavings(times, p, normal, cheats, n - 1) + RowSavings(times, p, normal, cheats, n - 1, 2 * cheats + 1)
  }

  /** The body of the offset loops of `completion_times` for (i, j): the
      saving found there, if any. */
  method OffsetSaving(times: seq<seq<nat>>, p: Point, normal: nat, cheats: nat, i: nat, j: nat)
    returns (found: seq<nat>)
    ensures found == Saving(times, p, normal, cheats, i, j)
  {
    found := [];
    var distance := Arith.Abs(i - cheats) + Arith.Abs(j - cheats);
    if distance <= cheats {
      var x := p.0 + i - cheats;
      var y := p.1 + j - cheats;
      if 0 <= x < |times| && 0 <= y < |times[x]| {
        var cheatTime := times[x][y];
        if cheatTime != UsizeMax {
          var newTime := cheatTime + distance;
          if normal > newTime {
            found := [normal - newTime];
          }
        }
      }
    }
  }

  /** The `j` loop of `completion_times` for offset row `i`. */
  method RowCheats(times: seq<seq<nat>>, p: Point, normal: nat, cheats: nat, i: nat) returns (savings: seq<nat>)
    ensures savings == RowSavings(times, p, normal, cheats, i, 2 * cheats + 1)
  {
    savings := [];
    for j := 0 to 2 * cheats + 1
      invariant savings == RowSavings(times, p, normal, cheats, i, j)
    {
      var found := OffsetSaving(times, p, normal, cheats, i, j);
      savings := savings + found;
    }
  }

  /** The offset loops of `completion_times` for one cell: `i` and `j` from
      0 to `2 * cheats`, pushing each saving found. */
  method CellCheats(times: seq<seq<nat>>, p: Point, normal: nat, cheats: nat) returns (savings: seq<nat>)
    ensures savings == SquareSavings(times, p, normal, cheats, 2 * cheats + 1)
  {
    savings := [];
    for i := 0 to 2 * cheats + 1
      invariant savings == SquareSavings(times, p, normal, cheats, i)
    {
      var row := RowCheats(times, p, normal, cheats, i);
      savings := savings + row;
    }
  }

  /** A cheat from p to q: p is a Racetrack or S tile, q is a timed cell of
      the table within `cheats` steps, and jumping there beats p's time. */
  ghost predicate Cheat(grid: seq<seq<Tile>>, times: seq<seq<nat>>, cheats: nat, p: Point, q: Point) {
    InBounds(grid, p) && InBounds(times, p) && (grid[p.0][p.1] == Racetrack || grid[p.0][p.1] == Start) &&
    InBounds(times, q) && times[q.0][q.1] != UsizeMax && Manhattan(p, q) <= cheats &&
    times[p.0][p.1] > times[q.0][q.1] + Manhattan(p, q)
  }

  /** The time a cheat from p to q saves. */
  function Saved(times: seq<seq<nat>>, p: Point, q: Point): int
    requires InBounds(times, p) && InBounds(times, q)
  {
    times[p.0][p.1] - (times[q.0][q.1] + Manhattan(p, q))
  }

  lemma SpreadIsDistance(p: Point, i: nat, j: nat, cheats: nat)
    ensures Spread(i, j, cheats) == Manhattan(p, Landing(p, i, j, cheats))
  {
  }

  lemma {:induction false} RowSavingsSound(times: seq<seq<nat>>, p: Point, normal: nat, cheats: nat, i: nat, m: nat, s: nat)
    requires s in RowSavings(times, p, normal, cheats, i, m)
    ensures exists j :: 0 <= j < m && s in Saving(times, p, normal, cheats, i, j)
  {
    if m > 0 && s !in Saving(times, p, normal, cheats, i, m - 1) {
      RowSavingsSound(times, p, normal, cheats, i, m - 1, s);
    }
  }

  lemma {:induction false} SquareSavingsSound(times: seq<seq<nat>>, p: Point, normal: nat, cheats: nat, n: nat, s: nat)
    requires s in SquareSavings(times, p, normal, cheats, n)
    ensures exists i, j :: 0 <= i < n && 0 <= j < 2 * cheats + 1 && s in Saving(times, p, normal, cheats, i, j)
  {
    if n > 0 {
      if s in RowSavings(times, p, normal, cheats, n - 1, 2 * cheats + 1) {
        RowSavingsSound(times, p, normal, cheats, n - 1, 2 * cheats + 1, s);
      } else {
        SquareSavingsSound(times, p, normal, cheats, n - 1, s);
      }
    }
  }

  lemma {:induction false} RowSavingsHas(times: seq<seq<nat>>, p: Point, normal: nat, cheats: nat, i: nat, m: nat, j: nat, s: nat)
    requires j < m && s in Saving(times, p, normal, cheats, i, j)
    ensures s in RowSavings(times, p, normal, cheats, i, m)
  {
    var rest := RowSavings(times, p, normal, cheats, i, m - 1);
    if j < m - 1 {
      RowSavingsHas(times, p, normal, cheats, i, m - 1, j, s);
      assert s in rest;
    }
    assert RowSavings(times, p, normal, cheats, i, m) == rest + Saving(times, p, normal, cheats, i, m - 1);
  }

  lemma {:induction false} SquareSavingsHas(times: seq<seq<nat>>, p: Point, normal: nat, cheats: nat, n: nat, i: nat, j: nat, s: nat)
    requires i < n && j < 2 * cheats + 1 && s in Saving(times, p, normal, cheats, i, j)
    ensures s in SquareSavings(times, p, normal, cheats, n)
  {
    var rest := SquareSavings(times, p, normal, cheats, n - 1);
    var row := RowSavings(times, p, normal, cheats, n - 1, 2 * cheats + 1);
    if i < n - 1 {
      SquareSavingsHas(times, p, normal, cheats, n - 1, i, j, s);
      assert s in rest;
    } else {
      RowSavingsHas(times, p, normal, cheats, i, 2 * cheats + 1, j, s);
      assert s in row;
    }
    assert SquareSavings(times, p, normal, cheats, n) == rest + row;
  }

  /** What a saving found at offset (i, j) is. */
  lemma SavingMeans(times: seq<seq<nat>>, p: Point, normal: nat, cheats: nat, i: nat, j: nat, s: nat)
    requires s in Saving(times, p, normal, cheats, i, j)
    ensures var q := Landing(p, i, j, cheats);
      InBounds(times, q) && times[q.0][q.1] != UsizeMax && Manhattan(p, q) <= cheats &&
      normal > times[q.0][q.1] + Manhattan(p, q) && s == normal - (times[q.0][q.1] + Manhattan(p, q))
  {
    SpreadIsDistance(p, i, j, cheats);
  }

  /** Every saving found from a Racetrack or S cell p is the time saved
      by a cheat from p. */
  lemma CellCheatsSound(grid: seq<seq<Tile>>, times: seq<seq<nat>>, cheats: nat, p: Point, s: nat) returns (q: Point)
    requires InBounds(grid, p) && InBounds(times, p) && (grid[p.0][p.1] == Racetrack || grid[p.0][p.1] == Start)
    requires s in SquareSavings(times, p, times[p.0][p.1], cheats, 2 * cheats + 1)
    ensures Cheat(grid, times, cheats, p, q) && s == Saved(times, p, q)
  {
    var normal := times[p.0][p.1];
    SquareSavingsSound(times, p, normal, cheats, 2 * cheats + 1, s);
    var i, j :| 0 <= i < 2 * cheats + 1 && 0 <= j < 2 * cheats + 1 && s in Saving(times, p, normal, cheats, i, j);
    SavingMeans(times, p, normal, cheats, i, j, s);
    q := Landing(p, i, j, cheats);
  }

  /** The offsets (i, j) of the square around p that land on q, for a
      cheat from p to q, and the saving found there. */
  lemma CheatOffset(grid: seq<seq<Tile>>, times: seq<seq<nat>>, cheats: nat, p: Point, q: Point)
    returns (i: nat, j: nat)
    requires Cheat(grid, times, cheats, p, q)
    ensures i < 2 * cheats + 1 && j < 2 * cheats + 1 && Landing(p, i, j, cheats) == q
    ensures Saved(times, p, q) in Saving(times, p, times[p.0][p.1], cheats, i, j)
  {
    i := q.0 - p.0 + cheats;
    j := q.1 - p.1 + cheats;
    SpreadIsDistance(p, i, j, cheats);
  }

  /** Every cheat from p has its saving found. */
  lemma CellCheatsComplete(grid: seq<seq<Tile>>, times: seq<seq<nat>>, cheats: nat, p: Point, q: Point)
    requires Cheat(grid, times, cheats, p, q)
    ensures Saved(times, p, q) in SquareSavings(times, p, times[p.0][p.1], cheats, 2 * cheats + 1)
  {
    var i, j := CheatOffset(grid, times, cheats, p, q);
    SquareSavingsHas(times, p, times[p.0][p.1], cheats, 2 * cheats + 1, i, j, Saved(times, p, q));
  }

  /** What the offset loops find from cell p: its cheats' savings when p
      is a Racetrack or S tile on the table, nothing otherwise. */
  function CellSavings(grid: seq<seq<Tile>>, times: seq<seq<nat>>, cheats: nat, p: Point): seq<nat>
    requires InBounds(grid, p)
  {
    if InBounds(times, p) && (grid[p.0][p.1] == Racetrack || grid[p.0][p.1] == Start)
    then SquareSavings(times, p, times[p.0][p.1], cheats, 2 * cheats + 1)
    else []
  }

  /** The lists f(0), ..., f(n - 1), one after the other: what a loop
      pushing f(i) for each i in turn collects. */
  function Concat(f: nat -> seq<nat>, n: nat): seq<nat> {
    if n == 0 then [] else Concat(f, n - 1) + f(n - 1)
  }

  /** Whatever one of the lists holds is collected. */
  lemma {:induction false} ConcatHas(f: nat -> seq<nat>, n: nat, i: nat, s: nat)
    requires i < n && s in f(i)
    ensures s in Concat(f, n)
  {
    if i < n - 1 {
      ConcatHas(f, n - 1, i, s);
    }
  }

  /** Whatever is collected comes from one of the lists, returned. */
  lemma {:induction false} ConcatSound(f: nat -> seq<nat>, n: nat, s: nat) returns (i: nat)
    requires s in Concat(f, n)
    ensures i < n && s in f(i)
  {
    if s in f(n - 1) {
      i := n - 1;
    } else {
      i := ConcatSound(f, n - 1, s);
    }
  }

  /** The savings of each cell of row x, by column. */
  function CellsOf(grid: seq<seq<Tile>>, times: seq<seq<nat>>, cheats: nat, x: nat): nat -> seq<nat>
    requires x < |grid|
  {
    (y: nat) => if y < |grid[x]| then CellSavings(grid, times, cheats, (x, y)) else []
  }

  /** The savings found from the first m cells of row x. */
  function RowCellSavings(grid: seq<seq<Tile>>, times: seq<seq<nat>>, cheats: nat, x: nat, m: nat): seq<nat>
    requires x < |grid| && m <= |grid[x]|
  {
    Concat(CellsOf(grid, times, cheats, x), m)
  }

  lemma RowCellSavingsNext(grid: seq<seq<Tile>>, times: seq<seq<nat>>, cheats: nat, x: nat, y: nat)
    requires x < |grid| && y < |grid[x]|
    ensures RowCellSavings(grid, times, cheats, x, y + 1) ==
      RowCellSavings(grid, times, cheats, x, y) + CellSavings(grid, times, cheats, (x, y))
  {
    assert CellsOf(grid, times, cheats, x)(y) == CellSavings(grid, times, cheats, (x, y));
  }

  /** The savings of each row, by row. */
  function RowsOf(grid: seq<seq<Tile>>, times: seq<seq<nat>>, cheats: nat): nat -> seq<nat> {
    (x: nat) => if x < |grid| then RowCellSavings(grid, times, cheats, x, |grid[x]|) else []
  }

  /** The savings found from the cells of the first n rows, in the order
      of `map.iter()`. */
  function TrackSavings(grid: seq<seq<Tile>>, times: seq<seq<nat>>, cheats: nat, n: nat): seq<nat>
    requires n <= |grid|
  {
    Concat(RowsOf(grid, times, cheats), n)
  }

  lemma TrackSavingsNext(grid: seq<seq<Tile>>, times: seq<seq<nat>>, cheats: nat, x: nat)
    requires x < |grid|
    ensures TrackSavings(grid, times, cheats, x + 1) ==
      TrackSavings(grid, times, cheats, x) + RowCellSavings(grid, times, cheats, x, |grid[x]|)
  {
    assert RowsOf(grid, times, cheats)(x) == RowCellSavings(grid, times, cheats, x, |grid[x]|);
  }

  /** `times_per_position[point.0][point.1]` for the Racetrack or S cell
      (x, y) of the map indexes off the table, and the source panics. */
  predicate ReadsOff(grid: seq<seq<Tile>>, times: seq<seq<nat>>, x: int, y: int) {
    0 <= x < |grid| && 0 <= y < |grid[x]| && (grid[x][y] == Racetrack || grid[x][y] == Start) &&
    !(x < |times| && y < |times[x]|)
  }

  /** Some Racetrack or S cell of the map is off the table. */
  ghost predicate MisReads(grid: seq<seq<Tile>>, times: seq<seq<nat>>) {
    exists x, y :: ReadsOff(grid, times, x, y)
  }

  /** The body of `completion_times`'s `map.iter()` loop for cell p; None
      where the normal time is read off the table. */
  method CellCompletion(grid: seq<seq<Tile>>, times: seq<seq<nat>>, cheats: nat, p: Point) returns (found: Option<seq<nat>>)
    requires InBounds(grid, p)
    ensures found.None? <==> ReadsOff(grid, times, p.0, p.1)
    ensures found.Some? ==> found.value == CellSavings(grid, times, cheats, p)
  {
    var tile := grid[p.0][p.1];
    if tile == Racetrack || tile == Start {
      if !(0 <= p.0 < |times| && 0 <= p.1 < |times[p.0]|) {
        return None;
      }
      var normal := times[p.0][p.1];
      var savings := CellCheats(times, p, normal, cheats);
      return Some(savings);
    }
    return Some([]);
  }

  /** The cells of row x in `completion_times`'s `map.iter()` loop: the
      offset loops from each Racetrack or S cell; None where one is off
      the table. */
  method RowCompletion(grid: seq<seq<Tile>>, times: seq<seq<nat>>, cheats: nat, x: nat) returns (r: Option<seq<nat>>)
    requires x < |grid|
    ensures r.None? <==> exists y :: ReadsOff(grid, times, x, y)
    ensures r.Some? ==> r.value == RowCellSavings(grid, times, cheats, x, |grid[x]|)
  {
    var savings := [];
    for y := 0 to |grid[x]|
      invariant savings == RowCellSavings(grid, times, cheats, x, y)
      invariant forall c :: c < y ==> !ReadsOff(grid, times, x, c)
    {
      var found := CellCompletion(grid, times, cheats, (x, y));
      if found.None? {
        return None;
      }
      RowCellSavingsNext(grid, times, cheats, x, y);
      savings := savings + found.value;
    }
    return Some(savings);
  }

  /** A row with no Racetrack or S cell off the table extends the rows
      before it that have none. */
  lemma RowClear(grid: seq<seq<Tile>>, times: seq<seq<nat>>, x: int)
    requires forall a, b :: a < x ==> !ReadsOff(grid, times, a, b)
    requires forall y :: !ReadsOff(grid, times, x, y)
    ensures forall a, b :: a < x + 1 ==> !ReadsOff(grid, times, a, b)
  {
    forall a, b | a < x + 1 ensures !ReadsOff(grid, times, a, b) {
      if a == x {
        assert !ReadsOff(grid, times, x, b);
      }
    }
  }

  lemma RowMisReads(grid: seq<seq<Tile>>, times: seq<seq<nat>>, x: int)
    requires exists y :: ReadsOff(grid, times, x, y)
    ensures MisReads(grid, times)
  {
    var y :| ReadsOff(grid, times, x, y);
    assert ReadsOff(grid, times, x, y);
  }

  /** With every row clear nothing is read off the table. */
  lemma RowsClear(grid: seq<seq<Tile>>, times: seq<seq<nat>>)
    requires forall a, b :: a < |grid| ==> !ReadsOff(grid, times, a, b)
    ensures !MisReads(grid, times)
  {
    forall a, b ensures !ReadsOff(grid, times, a, b) {
      if a < |grid| {
        assert !ReadsOff(grid, times, a, b);
      }
    }
  }

  /** The `map.iter()` loop of `completion_times`, row by row; None where
      a Racetrack or S cell is off the table. */
  method TrackCheats(grid: seq<seq<Tile>>, times: seq<seq<nat>>, cheats: nat) returns (r: Option<seq<nat>>)
    ensures r.None? <==> MisReads(grid, times)
    ensures r.Some? ==> r.value == TrackSavings(grid, times, cheats, |grid|)
  {
    var savings := [];
    for x := 0 to |grid|
      invariant savings == TrackSavings(grid, times, cheats, x)
      invariant forall a, b :: a < x ==> !ReadsOff(grid, times, a, b)
    {
      var row := RowCompletion(grid, times, cheats, x);
      if row.None? {
        RowMisReads(grid, times, x);
        return None;
      }
      RowClear(grid, times, x);
      TrackSavingsNext(grid, times, cheats, x);
      savings := savings + row.value;
    }
    RowsClear(grid, times);
    return Some(savings);
  }

  /** Where `completion_times` panics: in the walk, or on reading the
      normal time of a Racetrack or S cell off the table the walk left. */
  ghost predicate Fails(track: Track, table: seq<seq<nat>>, route: seq<Point>) {
    Panics(track, route) || (Timing(track, table, route) && MisReads(track.grid, table))
  }

  /** `completion_times(cheats)`: the time table of the track, then every
      saving of every cheat, cell by cell; None where the source panics. */
  method CompletionTimes(track: Track, cheats: nat)
    returns (r: Option<seq<nat>>, ghost table: seq<seq<nat>>, ghost route: seq<Point>)
    ensures r.None? ==> Fails(track, table, route)
    ensures r.Some? ==> (Timing(track, table, route) && !MisReads(track.grid, table) &&
                         r.value == TrackSavings(track.grid, table, cheats, |track.grid|))
  {
    var timed;
    timed, route := TimesPerPosition(track);
    if timed.None? {
      r, table := None, [];
      return;
    }
    table := timed.value;
    var savings := TrackCheats(track.grid, timed.value, cheats);
    r := savings;
  }

  /** Every saving found in row x up to column m is that of a cheat, returned. */
  lemma RowCellSavingsSound(grid: seq<seq<Tile>>, times: seq<seq<nat>>, cheats: nat, x: nat, m: nat, s: nat)
    returns (p: Point, q: Point)
    requires x < |grid| && m <= |grid[x]|
    requires s in RowCellSavings(grid, times, cheats, x, m)
    ensures Cheat(grid, times, cheats, p, q) && s == Saved(times, p, q)
  {
    var y := ConcatSound(CellsOf(grid, times, cheats, x), m, s);
    p := (x, y);
    assert s in CellSavings(grid, times, cheats, p);
    q := CellCheatsSound(grid, times, cheats, p, s);
  }

  /** Every saving found in the first n rows is that of a cheat, returned. */
  lemma TrackSavingsSound(grid: seq<seq<Tile>>, times: seq<seq<nat>>, cheats: nat, n: nat, s: nat)
    returns (p: Point, q: Point)
    requires n <= |grid|
    requires s in TrackSavings(grid, times, cheats, n)
    ensures Cheat(grid, times, cheats, p, q) && s == Saved(times, p, q)
  {
    var x := ConcatSound(RowsOf(grid, times, cheats), n, s);
    assert s in RowCellSavings(grid, times, cheats, x, |grid[x]|);
    p, q := RowCellSavingsSound(grid, times, cheats, x, |grid[x]|, s);
  }

  /** Every saving of a cell in row x, below column m, is found. */
  lemma RowCellSavingsHas(grid: seq<seq<Tile>>, times: seq<seq<nat>>, cheats: nat, x: nat, m: nat, y: nat, s: nat)
    requires x < |grid| && y < m <= |grid[x]|
    requires s in CellSavings(grid, times, cheats, (x, y))
    ensures s in RowCellSavings(grid, times, cheats, x, m)
  {
    var f := CellsOf(grid, times, cheats, x);
    assert f(y) == CellSavings(grid, times, cheats, (x, y));
    ConcatHas(f, m, y, s);
  }

  /** Every saving of a cell in the first n rows is found. */
  lemma TrackSavingsHas(grid: seq<seq<Tile>>, times: seq<seq<nat>>, cheats: nat, n: nat, p: Point, s: nat)
    requires p.0 < n <= |grid| && InBounds(grid, p)
    requires s in CellSavings(grid, times, cheats, p)
    ensures s in TrackSavings(grid, times, cheats, n)
  {
    RowCellSavingsHas(grid, times, cheats, p.0, |grid[p.0]|, p.1, s);
    var f := RowsOf(grid, times, cheats);
    assert f(p.0) == RowCellSavings(grid, times, cheats, p.0, |grid[p.0]|);
    ConcatHas(f, n, p.0, s);
  }

  /** The savings `completion_times` finds are exactly those of the cheats
      on the table: each is the time saved by jumping from a Racetrack or S
      cell to a timed cell at most `cheats` steps away that it beats, and
      every such jump is found. */
  lemma TrackSavingsMeans(grid: seq<seq<Tile>>, times: seq<seq<nat>>, cheats: nat, s: nat)
    ensures s in TrackSavings(grid, times, cheats, |grid|) <==>
      exists p, q :: Cheat(grid, times, cheats, p, q) && s == Saved(times, p, q)
  {
    if s in TrackSavings(grid, times, cheats, |grid|) {
      var p, q := TrackSavingsSound(grid, times, cheats, |grid|, s);
    }
    if exists p, q :: Cheat(grid, times, cheats, p, q) && s == Saved(times, p, q) {
      var p, q :| Cheat(grid, times, cheats, p, q) && s == Saved(times, p, q);
      CellCheatsComplete(grid, times, cheats, p, q);
      TrackSavingsHas(grid, times, cheats, |grid|, p, s);
    }
  }

  /** Every cheat saves a positive time, and none saves more than the
      time of its starting cell. */
  lemma SavedBounds(grid: seq<seq<Tile>>, times: seq<seq<nat>>, cheats: nat, p: Point, q: Point)
    requires Cheat(grid, times, cheats, p, q)
    ensures 0 < Saved(times, p, q) <= times[p.0][p.1]
  {
  }

  // ---------------------------------------------------------------------
  // main

  /** `filter(|&t| *t >= bound).count()`. */
  function AtLeast(s: seq<nat>, bound: nat): (r: nat)
    ensures r <= |s|
    ensures r == 0 <==> forall i :: 0 <= i < |s| ==> s[i] < bound
  {
    if |s| == 0 then 0
    else AtLeast(s[..|s| - 1], bound) + if s[|s| - 1] >= bound then 1 else 0
  }

  /** The two answers for a track: how many of its 2-step and 20-step
      cheats each save at least 100 picoseconds, on its time table. */
  ghost predicate Answers(track: Track, answers: (nat, nat)) {
    exists times, route :: Timing(track, times, route) &&
      answers == (AtLeast(TrackSavings(track.grid, times, 2, |track.grid|), 100),
                  AtLeast(TrackSavings(track.grid, times, 20, |track.grid|), 100))
  }

  /** `main` after reading the input: parse the trimmed map, build the
      track and count the cheats of each part. None where a character is
      not a tile or the time table panics. */
  method Run(input: string) returns (r: Option<(nat, nat)>)
    ensures ParseMap(input).None? ==> r.None?
    ensures r.Some? ==> ParseMap(input).Some? && Answers(TrackOf(ParseMap(input).value), r.value)
    ensures r.None? && ParseMap(input).Some? ==>
      exists table, route :: Fails(TrackOf(ParseMap(input).value), table, route)
  {
    var grid := ParseMap(input);
    if grid.None? {
      return None;
    }
    var track := FromMap(grid.value);
    var first, table1, route1 := CompletionTimes(track, 2);
    if first.None? {
      return None;
    }
    var second, table2, route2 := CompletionTimes(track, 20);
    if second.None? {
      return None;
    }
    TimingUnique(track, table1, route1, table2, route2);
    r := Some((AtLeast(first.value, 100), AtLeast(second.value, 100)));
  }
}
