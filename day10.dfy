/** Day 10, "Hoof It": a topographic map of digit heights; a hiking trail
    climbs from a 0 to a 9 by orthogonal unit steps that each rise by
    exactly one.  A trailhead's score counts the distinct 9s it reaches,
    its rating the trails themselves. */
module HoofIt {
  import opened Wrappers
  import opened Grid
  import Text
  import Seqs

  /** A height, as `to_digit(10)` yields it. */
  type Height = h: nat | h < 10

  /** `Trails`: the height map and the trailheads in reading order. */
  datatype Trails = Trails(grid: seq<seq<Height>>, starts: seq<Point>)

  /** `to_digit(10).unwrap()`: a decimal digit, or None where the source
      panics. */
  function HeightOf(c: char): (r: Option<Height>)
    ensures r.Some? <==> '0' <= c <= '9'
    ensures r.Some? ==> r.value as int == c as int - '0' as int
  {
    match Text.DigitOf(c)
    case None => None
    case Some(d) => Some(d)
  }

  /** The points (x, j) of one row, j < n, whose height is 0, left to
      right. */
  function RowStarts(row: seq<Height>, x: nat, n: nat): seq<Point>
    requires n <= |row|
  {
    if n == 0 then []
    else RowStarts(row, x, n - 1) + if row[n - 1] == 0 then [(x, n - 1)] else []
  }

  /** The trailheads of the grid in reading order: what `from` pushes. */
  function Starts(grid: seq<seq<Height>>): seq<Point> {
    if |grid| == 0 then []
    else
      var n := |grid| - 1;
      Starts(grid[..n]) + RowStarts(grid[n], n, |grid[n]|)
  }

  /** `Trails::from`. */
  function ParseTrails(input: string): (r: Option<Trails>)
    ensures r.Some? <==> ParseGrid(Text.Lines(input), HeightOf).Some?
    ensures r.Some? ==> r.value.starts == Starts(r.value.grid)
  {
    match ParseGrid(Text.Lines(input), HeightOf)
    case None => None
    case Some(grid) => Some(Trails(grid, Starts(grid)))
  }

  lemma {:induction false} RowStartsMeans(row: seq<Height>, x: nat, n: nat, p: Point)
    requires n <= |row|
    ensures p in RowStarts(row, x, n) <==> p.0 == x && 0 <= p.1 < n && row[p.1] == 0
  {
    if n > 0 {
      RowStartsMeans(row, x, n - 1, p);
    }
  }

  lemma {:induction false} RowStartsOrdered(row: seq<Height>, x: nat, n: nat)
    requires n <= |row|
    ensures forall i, j :: 0 <= i < j < |RowStarts(row, x, n)| ==> Before(RowStarts(row, x, n)[i], RowStarts(row, x, n)[j])
  {
    if n > 0 {
      var front := RowStarts(row, x, n - 1);
      RowStartsOrdered(row, x, n - 1);
      forall q | q in front
        ensures q.0 == x && q.1 < n - 1
      {
        RowStartsMeans(row, x, n - 1, q);
      }
    }
  }

  /** The trailheads are exactly the cells of height 0. */
  lemma {:induction false} StartsMeans(grid: seq<seq<Height>>, p: Point)
    ensures p in Starts(grid) <==> InBounds(grid, p) && grid[p.0][p.1] == 0
  {
    if |grid| > 0 {
      var n := |grid| - 1;
      StartsMeans(grid[..n], p);
      RowStartsMeans(grid[n], n, |grid[n]|, p);
    }
  }

  /** Every trailhead is on a row above the n-th. */
  lemma StartsAbove(grid: seq<seq<Height>>, q: Point)
    requires q in Starts(grid)
    ensures 0 <= q.0 < |grid|
  {
    StartsMeans(grid, q);
  }

  /** The trailheads come in reading order, so none is listed twice. */
  lemma {:induction false} StartsOrdered(grid: seq<seq<Height>>)
    ensures forall i, j :: 0 <= i < j < |Starts(grid)| ==> Before(Starts(grid)[i], Starts(grid)[j])
  {
    if |grid| > 0 {
      var n := |grid| - 1;
      var front := Starts(grid[..n]);
      var row := RowStarts(grid[n], n, |grid[n]|);
      StartsOrdered(grid[..n]);
      RowStartsOrdered(grid[n], n, |grid[n]|);
      forall i, j | 0 <= i < |front| <= j < |front| + |row|
        ensures Before((front + row)[i], (front + row)[j])
      {
        assert front[i] in front;
        StartsAbove(grid[..n], front[i]);
        assert row[j - |front|] in row;
        RowStartsMeans(grid[n], n, |grid[n]|, row[j - |front|]);
      }
    }
  }

  /** The order of `DIRECTIONS`. */
  const Directions: seq<Point> := [(0, 1), (1, 0), (0, -1), (-1, 0)]

  /** `moved`: the neighbour one step of d away with its height, or None
      when the step leaves the grid on any side. */
  function Moved(grid: seq<seq<Height>>, p: Point, d: Point): (r: Option<(Height, Point)>)
    ensures r.Some? <==> InBounds(grid, MovePointBy(p, d.0, d.1))
    ensures r.Some? ==> r.value.1 == MovePointBy(p, d.0, d.1) && r.value.0 == grid[r.value.1.0][r.value.1.1]
  {
    var q := MovePointBy(p, d.0, d.1);
    match At(grid, q)
    case None => None
    case Some(h) => Some((h, q))
  }

  function HeightAt(grid: seq<seq<Height>>, p: Point): Height
    requires InBounds(grid, p)
  {
    grid[p.0][p.1]
  }

  /** What the climb from p contributes in direction d. */
  function Climb(grid: seq<seq<Height>>, p: Point, d: Point): seq<Point>
    requires InBounds(grid, p)
    decreases 9 - HeightAt(grid, p), 0
  {
    match Moved(grid, p, d)
    case None => []
    case Some((next, q)) =>
      if next == HeightAt(grid, p) + 1 then
        if next == 9 then [q] else ReachableEnds(grid, q)
      else []
  }

  /** `reachable_ends`: the 9s at the top of every trail from p, one per
      trail, in the order of `DIRECTIONS`. */
  function ReachableEnds(grid: seq<seq<Height>>, p: Point): seq<Point>
    requires InBounds(grid, p)
    decreases 9 - HeightAt(grid, p), 1
  {
    Climb(grid, p, Directions[0]) + Climb(grid, p, Directions[1]) +
    Climb(grid, p, Directions[2]) + Climb(grid, p, Directions[3])
  }

  /** b is one step of `DIRECTIONS` from a. */
  predicate Adjacent(a: Point, b: Point) {
    exists k :: 0 <= k < 4 && b == MovePointBy(a, Directions[k].0, Directions[k].1)
  }

  /** A hiking trail: on the grid, each step orthogonal and rising by one. */
  predicate IsTrail(grid: seq<seq<Height>>, path: seq<Point>) {
    (forall i :: 0 <= i < |path| ==> InBounds(grid, path[i])) &&
    forall i :: 0 < i < |path| ==>
      Adjacent(path[i - 1], path[i]) && grid[path[i].0][path[i].1] as int == grid[path[i - 1].0][path[i - 1].1] as int + 1
  }

  /** A trail of at least one step from p up to a 9 at q. */
  ghost predicate TrailTo(grid: seq<seq<Height>>, p: Point, q: Point) {
    exists path :: |path| >= 2 && IsTrail(grid, path) && path[0] == p && path[|path| - 1] == q && HeightAt(grid, q) == 9
  }

  /** Each reachable end is a 9 that a trail from p climbs to. */
  lemma {:induction false} ReachableEndsAreTops(grid: seq<seq<Height>>, p: Point, q: Point)
    requires InBounds(grid, p) && q in ReachableEnds(grid, p)
    ensures InBounds(grid, q) && TrailTo(grid, p, q)
    decreases 9 - HeightAt(grid, p)
  {
    var k := ClimbOf(grid, p, q);
    var d := Directions[k];
    var (next, r) := Moved(grid, p, d).value;
    assert Adjacent(p, r);
    if next == 9 {
      var path := [p, r];
      assert IsTrail(grid, path);
    } else {
      ReachableEndsAreTops(grid, r, q);
      var rest :| |rest| >= 2 && IsTrail(grid, rest) && rest[0] == r && rest[|rest| - 1] == q && HeightAt(grid, q) == 9;
      TrailCons(grid, p, rest);
      assert ([p] + rest)[|rest|] == q;
    }
  }

  /** The direction whose climb reaches q. */
  lemma ClimbOf(grid: seq<seq<Height>>, p: Point, q: Point) returns (k: nat)
    requires InBounds(grid, p) && q in ReachableEnds(grid, p)
    ensures k < 4 && q in Climb(grid, p, Directions[k])
  {
    var c0, c1, c2, c3 := Climb(grid, p, Directions[0]), Climb(grid, p, Directions[1]), Climb(grid, p, Directions[2]), Climb(grid, p, Directions[3]);
    assert q in c0 + c1 + c2 + c3;
    k := if q in c0 then 0 else if q in c1 then 1 else if q in c2 then 2 else 3;
  }

  /** A step up onto the start of a trail extends it. */
  lemma TrailCons(grid: seq<seq<Height>>, p: Point, rest: seq<Point>)
    requires InBounds(grid, p) && |rest| >= 1 && IsTrail(grid, rest)
    requires Adjacent(p, rest[0]) && HeightAt(grid, rest[0]) == HeightAt(grid, p) + 1
    ensures IsTrail(grid, [p] + rest)
  {
    var path := [p] + rest;
    forall i | 0 < i < |path|
      ensures Adjacent(path[i - 1], path[i]) && grid[path[i].0][path[i].1] as int == grid[path[i - 1].0][path[i - 1].1] as int + 1
    {
      if i > 1 {
        assert path[i - 1] == rest[i - 2] && path[i] == rest[i - 1];
      }
    }
  }

  /** Dropping the first point of a trail leaves a trail. */
  lemma TrailTail(grid: seq<seq<Height>>, path: seq<Point>)
    requires |path| >= 1 && IsTrail(grid, path)
    ensures IsTrail(grid, path[1..])
  {
    var rest := path[1..];
    forall i | 0 < i < |rest|
      ensures Adjacent(rest[i - 1], rest[i])
    {
      assert rest[i - 1] == path[i] && rest[i] == path[i + 1];
    }
  }

  /** Along a trail the height rises by one per step. */
  lemma {:induction false} TrailHeight(grid: seq<seq<Height>>, path: seq<Point>, i: nat)
    requires IsTrail(grid, path) && i < |path|
    ensures HeightAt(grid, path[i]) == HeightAt(grid, path[0]) + i
  {
    if i > 0 {
      TrailHeight(grid, path, i - 1);
    }
  }

  /** Every 9 that a trail from p climbs to is a reachable end. */
  lemma {:induction false} TopsAreReachableEnds(grid: seq<seq<Height>>, path: seq<Point>)
    requires |path| >= 2 && IsTrail(grid, path) && HeightAt(grid, path[|path| - 1]) == 9
    ensures path[|path| - 1] in ReachableEnds(grid, path[0])
    decreases |path|
  {
    var p, r, q := path[0], path[1], path[|path| - 1];
    var k :| 0 <= k < 4 && r == MovePointBy(p, Directions[k].0, Directions[k].1);
    assert Moved(grid, p, Directions[k]) == Some((HeightAt(grid, r), r));
    TrailHeight(grid, path, |path| - 1);
    TrailHeight(grid, path, 1);
    if HeightAt(grid, r) == 9 {
      assert |path| == 2;
      assert q in Climb(grid, p, Directions[k]);
    } else {
      var rest := path[1..];
      TrailTail(grid, path);
      TopsAreReachableEnds(grid, rest);
      assert q in Climb(grid, p, Directions[k]);
    }
    assert q in ReachableEnds(grid, p) by {
      var c := ReachableEnds(grid, p);
      assert c == Climb(grid, p, Directions[0]) + Climb(grid, p, Directions[1]) +
        Climb(grid, p, Directions[2]) + Climb(grid, p, Directions[3]);
    }
  }

  /** The reachable ends of p are exactly the 9s that a hiking trail from
      p climbs to. */
  lemma ReachableEndsMeans(grid: seq<seq<Height>>, p: Point, q: Point)
    requires InBounds(grid, p)
    ensures q in ReachableEnds(grid, p) <==> TrailTo(grid, p, q)
  {
    if q in ReachableEnds(grid, p) {
      ReachableEndsAreTops(grid, p, q);
    }
    if TrailTo(grid, p, q) {
      var path :| |path| >= 2 && IsTrail(grid, path) && path[0] == p && path[|path| - 1] == q && HeightAt(grid, q) == 9;
      TopsAreReachableEnds(grid, path);
    }
  }

  /** `trail_score`: the distinct ends. */
  function TrailScore(grid: seq<seq<Height>>, start: Point): nat
    requires InBounds(grid, start)
  {
    |set q | q in ReachableEnds(grid, start)|
  }

  /** The score never exceeds the rating (one end per trail). */
  lemma ScoreAtMostRating(grid: seq<seq<Height>>, start: Point)
    requires InBounds(grid, start)
    ensures TrailScore(grid, start) <= |ReachableEnds(grid, start)|
  {
    Seqs.SeqSetCard(ReachableEnds(grid, start));
  }

  /** `score` and `rating`: a trailhead's score or rating summed over the
      trailheads. */
  function Total(grid: seq<seq<Height>>, starts: seq<Point>, rating: bool): nat
    requires forall k :: 0 <= k < |starts| ==> InBounds(grid, starts[k])
  {
    if |starts| == 0 then 0
    else
      var n := |starts| - 1;
      var s := starts[n];
      Total(grid, starts[..n], rating) + if rating then |ReachableEnds(grid, s)| else TrailScore(grid, s)
  }

  /** The score of the map is at most its rating. */
  lemma {:induction false} TotalScoreAtMostRating(grid: seq<seq<Height>>, starts: seq<Point>)
    requires forall k :: 0 <= k < |starts| ==> InBounds(grid, starts[k])
    ensures Total(grid, starts, false) <= Total(grid, starts, true)
  {
    if |starts| > 0 {
      var n := |starts| - 1;
      TotalScoreAtMostRating(grid, starts[..n]);
      ScoreAtMostRating(grid, starts[n]);
    }
  }

  /** Part 1 and part 2 on the input, None where parsing panics. */
  function Part(input: string, rating: bool): (r: Option<nat>)
    ensures r.Some? <==> ParseTrails(input).Some?
  {
    match ParseTrails(input)
    case None => None
    case Some(t) =>
      forall k | 0 <= k < |t.starts|
        ensures InBounds(t.grid, t.starts[k])
      {
        assert t.starts[k] in t.starts;
        StartsMeans(t.grid, t.starts[k]);
      }
      Some(Total(t.grid, t.starts, rating))
  }
}
