/** Day 15, the warehouse robot: a robot walks the map by a list of
    moves; walking into a box pushes the whole row of boxes in front of it
    when there is an empty cell beyond, and walking into a wall or a row
    of boxes blocked by a wall does nothing.  The score is the sum of
    100 * row + column over the boxes. */
module WarehouseBoxes {
  import opened Wrappers
  import opened Grid
  import Text

  datatype Tile = Empty | Wall | Box | Robot

  datatype Direction = Up | Down | Left | Right

  /** `Tile::from`; None where the source panics. */
  function TileFromChar(c: char): (r: Option<Tile>)
    ensures r.Some? <==> c in {'.', '#', 'O', '@'}
    ensures r.Some? ==> TileToChar(r.value) == c
  {
    if c == '.' then Some(Empty)
    else if c == '#' then Some(Wall)
    else if c == 'O' then Some(Box)
    else if c == '@' then Some(Robot)
    else None
  }

  /** `Display for Tile`. */
  function TileToChar(t: Tile): char {
    match t
    case Empty => '.'
    case Wall => '#'
    case Box => 'O'
    case Robot => '@'
  }

  lemma TileRoundTrip(t: Tile)
    ensures TileFromChar(TileToChar(t)) == Some(t)
  {
  }

  /** `Direction::try_from`: Err (None) on anything but ^ v < >. */
  function DirectionFromChar(c: char): (r: Option<Direction>)
    ensures r.Some? <==> c in {'^', 'v', '<', '>'}
  {
    if c == '^' then Some(Up)
    else if c == 'v' then Some(Down)
    else if c == '<' then Some(Left)
    else if c == '>' then Some(Right)
    else None
  }

  /** `Direction::to_movement`. */
  function Movement(d: Direction): (r: (int, int))
    ensures (r.0 == 0) != (r.1 == 0) && -1 <= r.0 <= 1 && -1 <= r.1 <= 1
  {
    match d
    case Up => (-1, 0)
    case Down => (1, 0)
    case Left => (0, -1)
    case Right => (0, 1)
  }

  function Move(p: Point, d: Direction): Point {
    MovePointBy(p, Movement(d).0, Movement(d).1)
  }

  /** The point k moves from q in direction d. */
  function Ray(q: Point, d: Direction, k: nat): Point {
    (q.0 + k * Movement(d).0, q.1 + k * Movement(d).1)
  }

  /** The directions in a move list, everything else (line breaks) skipped. */
  function Directions(s: string): (r: seq<Direction>)
    ensures |r| <= |s|
    ensures forall k :: 0 <= k < |r| ==> exists i :: 0 <= i < |s| && DirectionFromChar(s[i]) == Some(r[k])
  {
    if |s| == 0 then []
    else
      var front := Directions(s[..|s| - 1]);
      assert forall i :: 0 <= i < |s| - 1 ==> s[..|s| - 1][i] == s[i];
      match DirectionFromChar(s[|s| - 1])
      case None => front
      case Some(d) => front + [d]
  }

  /** A text of arrows only gives one move per character, in order. */
  lemma {:induction false} DirectionsArrows(s: string)
    requires forall i :: 0 <= i < |s| ==> DirectionFromChar(s[i]).Some?
    ensures |Directions(s)| == |s| && forall i :: 0 <= i < |s| ==> DirectionFromChar(s[i]) == Some(Directions(s)[i])
  {
    if |s| > 0 {
      var front := s[..|s| - 1];
      assert forall i :: 0 <= i < |front| ==> front[i] == s[i];
      DirectionsArrows(front);
      var d := DirectionFromChar(s[|s| - 1]).value;
      var r := Directions(s);
      assert r == Directions(front) + [d];
      forall i | 0 <= i < |s|
        ensures DirectionFromChar(s[i]) == Some(r[i])
      {
        if i < |front| {
          assert r[i] == Directions(front)[i];
        }
      }
    }
  }

  /** A text without arrows gives no moves. */
  lemma {:induction false} DirectionsNone(s: string)
    requires forall i :: 0 <= i < |s| ==> DirectionFromChar(s[i]).None?
    ensures Directions(s) == []
  {
    if |s| > 0 {
      var front := s[..|s| - 1];
      assert forall i :: 0 <= i < |front| ==> front[i] == s[i];
      DirectionsNone(front);
    }
  }

  /** The moves of two texts in a row are the moves of each, in order. */
  lemma {:induction false} DirectionsAppend(a: string, b: string)
    ensures Directions(a + b) == Directions(a) + Directions(b)
    decreases |b|
  {
    if |b| > 0 {
      var b' := b[..|b| - 1];
      assert (a + b)[..|a + b| - 1] == a + b';
      assert (a + b)[|a + b| - 1] == b[|b| - 1];
      DirectionsAppend(a, b');
    } else {
      assert a + b == a;
    }
  }

  /** One more than the cells ahead of q in direction d before the edge. */
  function Room(g: seq<seq<Tile>>, q: Point, d: Direction): nat
    requires InBounds(g, q)
  {
    match d
    case Up => q.0 + 1
    case Down => |g| - q.0
    case Left => q.1 + 1
    case Right => |g[q.0]| - q.1
  }

  /** Past boxes (and robots): the tiles the scan of a push walks over. */
  predicate Pushable(t: Option<Tile>) {
    t == Some(Box) || t == Some(Robot)
  }

  /** The scan of the push: from q on, past boxes (and robots), to the
      first cell that is not one; Some(that cell) when it is empty, None
      when it is a wall or off the map. */
  function Scan(g: seq<seq<Tile>>, q: Point, d: Direction): (r: Option<Point>)
    ensures r.Some? ==> At(g, r.value) == Some(Empty)
    ensures r.Some? ==> exists k: nat :: r.value == Ray(q, d, k)
    decreases if InBounds(g, q) then Room(g, q, d) else 0
  {
    var t := At(g, q);
    if t == Some(Empty) then
      assert q == Ray(q, d, 0);
      Some(q)
    else if Pushable(t) then
      var q' := Move(q, d);
      var r := Scan(g, q', d);
      if r.Some? then
        var k: nat :| r.value == Ray(q', d, k);
        assert r.value == Ray(q, d, k + 1);
        r
      else r
    else None
  }

  /** `Map::set_point`, assumed to ignore a point off the map. */
  function Put(g: seq<seq<Tile>>, p: Point, t: Tile): seq<seq<Tile>> {
    if InBounds(g, p) then SetAt(g, p, t) else g
  }

  /** `Puzzle::step` on the map and robot position. */
  function StepSpec(g: seq<seq<Tile>>, robot: Point, d: Direction): (seq<seq<Tile>>, Point) {
    var next := Move(robot, d);
    var t := At(g, next);
    if t == Some(Empty) then (Put(Put(g, robot, Empty), next, Robot), next)
    else if t == Some(Box) then
      match Scan(g, Move(next, d), d)
      case Some(free) => (Put(Put(Put(g, robot, Empty), next, Robot), free, Box), next)
      case None => (g, robot)
    else (g, robot)
  }

  /** `Puzzle::resolve`: the moves applied in order. */
  function ResolveSpec(g: seq<seq<Tile>>, robot: Point, ds: seq<Direction>): (seq<seq<Tile>>, Point) {
    if |ds| == 0 then (g, robot)
    else
      var (g', r') := ResolveSpec(g, robot, ds[..|ds| - 1]);
      StepSpec(g', r', ds[|ds| - 1])
  }

  /** Setting one cell changes the count of a tile by the tile removed and
      the tile written. */
  lemma {:induction false} CountSetAt(g: seq<seq<Tile>>, p: Point, v: Tile, t: Tile)
    requires InBounds(g, p)
    ensures CountIn(SetAt(g, p, v), t)
      == CountIn(g, t) - (if g[p.0][p.1] == t then 1 else 0) + (if v == t then 1 else 0)
    decreases |g|
  {
    var g' := SetAt(g, p, v);
    var n := |g| - 1;
    assert g' == g[p.0 := g[p.0][p.1 := v]];
    if p.0 == n {
      assert g'[..n] == g[..n];
      RowSetCount(g[n], p.1, v, t);
    } else {
      assert g'[..n] == SetAt(g[..n], p, v);
      CountSetAt(g[..n], p, v, t);
    }
  }

  /** Setting one cell of a row changes its count of t by that cell. */
  lemma RowSetCount(row: seq<Tile>, c: nat, v: Tile, t: Tile)
    requires c < |row|
    ensures multiset(row[c := v])[t] == multiset(row)[t] - (if row[c] == t then 1 else 0) + (if v == t then 1 else 0)
  {
    assert multiset(row[c := v]) == multiset(row) - multiset{row[c]} + multiset{v};
  }

  /** The score weight of a box at p. */
  function Gps(p: Point): int {
    100 * p.0 + p.1
  }

  /** `Puzzle::score` over the row `row` of index i, its first k cells. */
  function RowScore(row: seq<Tile>, i: int, k: nat): int
    requires k <= |row|
  {
    if k == 0 then 0 else RowScore(row, i, k - 1) + (if row[k - 1] == Box then Gps((i, k - 1)) else 0)
  }

  /** `Puzzle::score`: the sum of 100 * row + column over the boxes. */
  function Score(g: seq<seq<Tile>>): int {
    if |g| == 0 then 0 else Score(g[..|g| - 1]) + RowScore(g[|g| - 1], |g| - 1, |g[|g| - 1]|)
  }

  lemma {:induction false} RowScoreSet(row: seq<Tile>, i: int, k: nat, c: nat, v: Tile)
    requires k <= |row| && c < |row|
    ensures RowScore(row[c := v], i, k) == RowScore(row, i, k)
      - (if c < k && row[c] == Box then Gps((i, c)) else 0) + (if c < k && v == Box then Gps((i, c)) else 0)
  {
    if k > 0 {
      RowScoreSet(row, i, k - 1, c, v);
    }
  }

  /** Setting one cell changes the score by the box removed and the box
      written there. */
  lemma {:induction false} ScoreSetAt(g: seq<seq<Tile>>, p: Point, v: Tile)
    requires InBounds(g, p)
    ensures Score(SetAt(g, p, v))
      == Score(g) - (if g[p.0][p.1] == Box then Gps(p) else 0) + (if v == Box then Gps(p) else 0)
    decreases |g|
  {
    var g' := SetAt(g, p, v);
    var n := |g| - 1;
    assert g'[..n] == if p.0 == n then g[..n] else SetAt(g[..n], p, v);
    if p.0 == n {
      RowScoreSet(g[n], n, |g[n]|, p.1, v);
    } else {
      ScoreSetAt(g[..n], p, v);
      assert g'[n] == g[n];
    }
  }

  /** The cell behind the robot, the cell it walks to and the free cell of
      a push are three different cells. */
  lemma PushCellsDistinct(robot: Point, d: Direction, free: Point, k: nat)
    requires free == Ray(Move(Move(robot, d), d), d, k)
    ensures robot != Move(robot, d) && free != robot && free != Move(robot, d)
  {
  }

  /** A tile landing at p through `Put` is the tile written, every tile
      elsewhere what it was. */
  lemma PutAt(g: seq<seq<Tile>>, p: Point, t: Tile, q: Point)
    requires InBounds(g, p)
    ensures At(Put(g, p, t), q) == if q == p then Some(t) else At(g, q)
  {
  }

  /** With the robot standing on its tile, a step keeps the number of
      every kind of tile, keeps the robot on its tile and moves it by at
      most one cell; the score changes only by a push, by the weight of
      the free cell less that of the cell the robot enters. */
  lemma StepPreserves(g: seq<seq<Tile>>, robot: Point, d: Direction)
    requires At(g, robot) == Some(Robot)
    ensures var (g', r') := StepSpec(g, robot, d);
      && (forall t :: CountIn(g', t) == CountIn(g, t))
      && At(g', r') == Some(Robot)
      && (r' == robot || r' == Move(robot, d))
      && (Score(g') == Score(g) ||
          (r' == Move(robot, d) && At(g, r') == Some(Box) &&
           exists free :: At(g, free) == Some(Empty) && Score(g') == Score(g) - Gps(r') + Gps(free)))
  {
    var next := Move(robot, d);
    if At(g, next) == Some(Empty) {
      WalkPreserves(g, robot, next);
    } else if At(g, next) == Some(Box) {
      match Scan(g, Move(next, d), d)
      case None =>
      case Some(free) =>
        var k: nat :| free == Ray(Move(next, d), d, k);
        PushCellsDistinct(robot, d, free, k);
        PushPreserves(g, robot, next, free);
    }
  }

  /** A walk onto an empty cell. */
  lemma WalkPreserves(g: seq<seq<Tile>>, robot: Point, next: Point)
    requires At(g, robot) == Some(Robot) && At(g, next) == Some(Empty)
    ensures var g' := Put(Put(g, robot, Empty), next, Robot);
      (forall t :: CountIn(g', t) == CountIn(g, t)) && At(g', next) == Some(Robot) && Score(g') == Score(g)
  {
    var g1 := SetAt(g, robot, Empty);
    var g2 := SetAt(g1, next, Robot);
    forall t ensures CountIn(g2, t) == CountIn(g, t) {
      CountSetAt(g, robot, Empty, t);
      CountSetAt(g1, next, Robot, t);
    }
    ScoreSetAt(g, robot, Empty);
    ScoreSetAt(g1, next, Robot);
  }

  /** A push: the robot's cell empties, the first box's cell takes the
      robot and the free cell takes a box. */
  lemma PushPreserves(g: seq<seq<Tile>>, robot: Point, next: Point, free: Point)
    requires At(g, robot) == Some(Robot) && At(g, next) == Some(Box) && At(g, free) == Some(Empty)
    requires robot != next && free != robot && free != next
    ensures var g' := Put(Put(Put(g, robot, Empty), next, Robot), free, Box);
      && (forall t :: CountIn(g', t) == CountIn(g, t)) && At(g', next) == Some(Robot)
      && Score(g') == Score(g) - Gps(next) + Gps(free)
  {
    var g1 := SetAt(g, robot, Empty);
    PutAt(g, robot, Empty, next);
    PutAt(g, robot, Empty, free);
    var g2 := SetAt(g1, next, Robot);
    PutAt(g1, next, Robot, free);
    var g3 := SetAt(g2, free, Box);
    PutAt(g2, free, Box, next);
    forall t ensures CountIn(g3, t) == CountIn(g, t) {
      CountSetAt(g, robot, Empty, t);
      CountSetAt(g1, next, Robot, t);
      CountSetAt(g2, free, Box, t);
    }
    ScoreSetAt(g, robot, Empty);
    ScoreSetAt(g1, next, Robot);
    ScoreSetAt(g2, free, Box);
  }

  /** The whole move list keeps every tile count and the robot on its tile. */
  lemma {:induction false} ResolvePreserves(g: seq<seq<Tile>>, robot: Point, ds: seq<Direction>)
    requires At(g, robot) == Some(Robot)
    ensures var (g', r') := ResolveSpec(g, robot, ds);
      (forall t :: CountIn(g', t) == CountIn(g, t)) && At(g', r') == Some(Robot)
  {
    if |ds| > 0 {
      ResolvePreserves(g, robot, ds[..|ds| - 1]);
      var (g1, r1) := ResolveSpec(g, robot, ds[..|ds| - 1]);
      StepPreserves(g1, r1, ds[|ds| - 1]);
    }
  }

  /** The first point holding t, rows top to bottom, each left to right. */
  function FindTile(g: seq<seq<Tile>>, t: Tile): (r: Option<Point>)
    ensures r.Some? ==> At(g, r.value) == Some(t)
    ensures r.None? <==> CountIn(g, t) == 0
  {
    if |g| == 0 then None
    else match FindTile(g[..|g| - 1], t)
      case Some(p) => Some(p)
      case None =>
        var row := g[|g| - 1];
        if t in row then Some((|g| - 1, IndexOf(row, t))) else None
  }

  /** The first index of t in the row. */
  function IndexOf(row: seq<Tile>, t: Tile): (c: nat)
    requires t in row
    ensures c < |row| && row[c] == t && forall j :: 0 <= j < c ==> row[j] != t
  {
    if row[0] == t then 0 else IndexOf(row[1..], t) + 1
  }

  /** `Puzzle::from`: the map above the first blank line, the move list
      below it, and the robot at the first robot tile, or (0, 0) when
      there is none.  None where the source panics (no blank line, a
      character that is not a tile). */
  function ParsePuzzle(input: string): (r: Option<(seq<seq<Tile>>, Point, seq<Direction>)>)
    ensures var halves := Text.SplitOnce(input, "\n\n");
      r.None? <==> halves.None? || ParseGrid(Text.Lines(halves.value.0), TileFromChar).None?
    ensures r.Some? ==> var halves := Text.SplitOnce(input, "\n\n").value;
      Some(r.value.0) == ParseGrid(Text.Lines(halves.0), TileFromChar) && r.value.2 == Directions(halves.1)
    ensures r.Some? && CountIn(r.value.0, Robot) > 0 ==> At(r.value.0, r.value.1) == Some(Robot)
    ensures r.Some? && CountIn(r.value.0, Robot) == 0 ==> r.value.1 == (0, 0)
  {
    match Text.SplitOnce(input, "\n\n")
    case None => None
    case Some((mapText, moves)) =>
      match ParseGrid(Text.Lines(mapText), TileFromChar)
      case None => None
      case Some(g) => Some((g, FindTile(g, Robot).GetOr((0, 0)), Directions(moves)))
  }

  /** The inner `loop` of `Puzzle::step`: from q on, step in direction d
      past boxes (and robots) to the first other cell; that cell when it
      is empty, None when it is a wall or off the map. */
  method ScanPast(g: seq<seq<Tile>>, q: Point, d: Direction) returns (free: Option<Point>)
    ensures free == Scan(g, q, d)
  {
    var scan := q;
    while true
      invariant Scan(g, scan, d) == Scan(g, q, d)
      decreases if InBounds(g, scan) then Room(g, scan, d) else 0
    {
      var here := At(g, scan);
      if here.None? || here.value == Wall {
        return None;
      } else if here.value == Empty {
        return Some(scan);
      }
      assert Pushable(here);
      scan := Move(scan, d);
    }
  }

  /** The `Puzzle` struct, whose map and robot the moves update in place. */
  class Puzzle {
    var grid: seq<seq<Tile>>
    var robot: Point
    var directions: seq<Direction>

    constructor (g: seq<seq<Tile>>, r: Point, ds: seq<Direction>)
      ensures grid == g && robot == r && directions == ds
    {
      grid, robot, directions := g, r, ds;
    }

    /** `Puzzle::step`; the scan past the boxes is `ScanPast`. */
    method Step(d: Direction)
      modifies this
      ensures (grid, robot) == StepSpec(old(grid), old(robot), d)
      ensures directions == old(directions)
    {
      var next := Move(robot, d);
      var t := At(grid, next);
      if t == Some(Empty) {
        grid := Put(Put(grid, robot, Empty), next, Robot);
        robot := next;
      } else if t == Some(Box) {
        var free := ScanPast(grid, Move(next, d), d);
        if free.Some? {
          grid := Put(Put(Put(grid, robot, Empty), next, Robot), free.value, Box);
          robot := next;
        }
      }
    }

    /** `Puzzle::resolve`. */
    method Resolve()
      modifies this
      ensures (grid, robot) == ResolveSpec(old(grid), old(robot), directions)
      ensures directions == old(directions)
    {
      var ds := directions;
      for i := 0 to |ds|
        invariant (grid, robot) == ResolveSpec(old(grid), old(robot), ds[..i])
        invariant directions == ds
      {
        Step(ds[i]);
        assert ds[..i + 1][..i] == ds[..i];
      }
      assert ds[..|ds|] == ds;
    }
  }
}
