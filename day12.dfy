/** Day 12, "Garden Groups": a map of plant letters splits into plots,
    the maximal regions of one letter joined by orthogonal steps.  A plot
    costs its area times its perimeter, or, with the bulk discount, its
    area times its number of sides (counted as corners). */
module Gardens {
  import opened Wrappers
  import opened Grid
  import Text
  import Seqs

  /** `Plot`: the letter, the points in the order they were explored, and
      the counters accumulated while exploring. */
  datatype Plot = Plot(letter: char, points: seq<Point>, area: nat, perimeter: nat, corners: nat)

  /** The orthogonal neighbour k (k < 4) of p: index 2k of
      `all_neighbours`. */
  function Side(p: Point, k: nat): Point
    requires k < 4
  {
    MovePointBy(p, Compass[2 * k].0, Compass[2 * k].1)
  }

  /** The diagonal neighbour between sides k and k + 1: index 2k + 1. */
  function Diagonal(p: Point, k: nat): Point
    requires k < 4
  {
    MovePointBy(p, Compass[2 * k + 1].0, Compass[2 * k + 1].1)
  }

  /** Side k of p needs a fence: it is off the map or holds another letter. */
  predicate IsFence(grid: seq<seq<char>>, p: Point, letter: char, k: nat)
    requires k < 4
  {
    At(grid, Side(p, k)) != Some(letter)
  }

  /** Side k of p and the side after it meet in a corner of the plot: an
      outer corner when both are fenced, an inner one when both are in the
      plot and the diagonal between them is not. */
  predicate IsCorner(grid: seq<seq<char>>, p: Point, letter: char, k: nat)
    requires k < 4
  {
    var next := At(grid, Side(p, (k + 1) % 4));
    var diagonal := At(grid, Diagonal(p, k));
    if !IsFence(grid, p, letter, k) then next == Some(letter) && diagonal.Some? && diagonal.value != letter
    else next != Some(letter)
  }

  /** Fences around p among its first n sides. */
  function Fences(grid: seq<seq<char>>, p: Point, letter: char, n: nat): nat
    requires n <= 4
  {
    if n == 0 then 0 else Fences(grid, p, letter, n - 1) + if IsFence(grid, p, letter, n - 1) then 1 else 0
  }

  /** Corners at p among its first n sides. */
  function Corners(grid: seq<seq<char>>, p: Point, letter: char, n: nat): nat
    requires n <= 4
  {
    if n == 0 then 0 else Corners(grid, p, letter, n - 1) + if IsCorner(grid, p, letter, n - 1) then 1 else 0
  }

  /** The same-letter sides among the first n, last pushed first (the
      source pushes them to the front of the worklist). */
  function Pushed(grid: seq<seq<char>>, p: Point, letter: char, n: nat): seq<Point>
    requires n <= 4
  {
    if n == 0 then [] else (if IsFence(grid, p, letter, n - 1) then [] else [Side(p, n - 1)]) + Pushed(grid, p, letter, n - 1)
  }

  lemma {:induction false} CountsBounded(grid: seq<seq<char>>, p: Point, letter: char, n: nat)
    requires n <= 4
    ensures Fences(grid, p, letter, n) <= n && Corners(grid, p, letter, n) <= n
  {
    if n > 0 {
      CountsBounded(grid, p, letter, n - 1);
    }
  }

  /** What is pushed is exactly the sides holding the letter. */
  lemma {:induction false} PushedMeans(grid: seq<seq<char>>, p: Point, letter: char, n: nat, q: Point)
    requires n <= 4
    ensures q in Pushed(grid, p, letter, n) <==> exists k :: 0 <= k < n && q == Side(p, k) && At(grid, q) == Some(letter)
  {
    if n > 0 {
      PushedMeans(grid, p, letter, n - 1, q);
    }
  }

  /** The perimeter of a plot: its fences summed over its points. */
  function FenceTotal(grid: seq<seq<char>>, letter: char, points: seq<Point>): nat {
    if |points| == 0 then 0
    else FenceTotal(grid, letter, points[..|points| - 1]) + Fences(grid, points[|points| - 1], letter, 4)
  }

  /** The sides of a plot: its corners summed over its points. */
  function CornerTotal(grid: seq<seq<char>>, letter: char, points: seq<Point>): nat {
    if |points| == 0 then 0
    else CornerTotal(grid, letter, points[..|points| - 1]) + Corners(grid, points[|points| - 1], letter, 4)
  }

  /** A point has at most four fences and four corners, so a plot's
      perimeter and its sides are at most four times its area. */
  lemma {:induction false} TotalsBounded(grid: seq<seq<char>>, letter: char, points: seq<Point>)
    ensures FenceTotal(grid, letter, points) <= 4 * |points|
    ensures CornerTotal(grid, letter, points) <= 4 * |points|
  {
    if |points| > 0 {
      TotalsBounded(grid, letter, points[..|points| - 1]);
      CountsBounded(grid, points[|points| - 1], letter, 4);
    }
  }

  /** q is a side of one of the points. */
  ghost predicate Beside(points: seq<Point>, q: Point) {
    exists i, k :: 0 <= i < |points| && 0 <= k < 4 && q == Side(points[i], k)
  }

  /** Every point after the first is a side of an earlier one. */
  ghost predicate Chained(points: seq<Point>) {
    forall j :: 0 < j < |points| ==> Beside(points[..j], points[j])
  }

  /** Every same-letter side of a point is in `done`. */
  ghost predicate Closed(grid: seq<seq<char>>, letter: char, points: seq<Point>, done: set<Point>) {
    forall i, k :: 0 <= i < |points| && 0 <= k < 4 && At(grid, Side(points[i], k)) == Some(letter) ==> Side(points[i], k) in done
  }

  /** The cells of the map. */
  function AllCells(grid: seq<seq<char>>): set<Point> {
    set x, y | 0 <= x < |grid| && 0 <= y < |grid[x]| :: (x, y)
  }

  lemma AllCellsMeans(grid: seq<seq<char>>, p: Point)
    ensures p in AllCells(grid) <==> InBounds(grid, p)
  {
    if InBounds(grid, p) {
      var (x, y) := p;
      assert (x, y) in AllCells(grid);
    }
  }

  /** How many cells of the map are not in `seen`. */
  function Unexplored(grid: seq<seq<char>>, seen: set<Point>): nat {
    |AllCells(grid) - seen|
  }

  /** Seeing one more cell of the map leaves fewer unseen. */
  lemma UnexploredShrinks(grid: seq<seq<char>>, seen: set<Point>, p: Point)
    requires At(grid, p).Some? && p !in seen
    ensures Unexplored(grid, seen + {p}) < Unexplored(grid, seen)
  {
    AllCellsMeans(grid, p);
    assert (AllCells(grid) - (seen + {p})) + {p} == AllCells(grid) - seen;
  }

  /** Sides are symmetric: p is the opposite side of its side k. */
  lemma SideBack(p: Point, k: nat)
    requires k < 4
    ensures Side(Side(p, k), (k + 2) % 4) == p
  {
  }

  /** The state of `explore_plot`'s loop: the points explored so far (each
      once, none seen before, all of the letter, each after the first
      beside an earlier one, the first being the start), the worklist (all
      of the letter, each the start or beside an explored point), every
      same-letter side of an explored point still on the worklist or seen,
      and the counters summed over the explored points. */
  ghost predicate Exploring(grid: seq<seq<char>>, start: Point, letter: char, seen: set<Point>,
                            points: seq<Point>, todo: seq<Point>, after: set<Point>, perimeter: nat, corners: nat)
  {
    start !in seen && Seqs.Distinct(points) && after == seen + Members(points) &&
    (forall q :: q in points ==> q !in seen && At(grid, q) == Some(letter)) &&
    (forall q :: q in todo ==> At(grid, q) == Some(letter)) &&
    (|points| == 0 ==> todo == [start]) && (|points| > 0 ==> points[0] == start) &&
    Chained(points) && (forall q :: q in todo ==> q == start || Beside(points, q)) &&
    Closed(grid, letter, points, after + Members(todo)) &&
    perimeter == FenceTotal(grid, letter, points) && corners == CornerTotal(grid, letter, points)
  }

  /** The search starts with the start on the worklist and nothing
      explored. */
  lemma ExploreStart(grid: seq<seq<char>>, start: Point, letter: char, seen: set<Point>)
    requires At(grid, start) == Some(letter) && start !in seen
    ensures Exploring(grid, start, letter, seen, [], [start], seen, 0, 0)
  {
    assert Members([]) == {};
    assert Chained([]);
    assert Closed(grid, letter, [], seen + Members([start]));
  }

  /** When the worklist is empty the explored points are closed within
      what is seen. */
  lemma ExploreDone(grid: seq<seq<char>>, start: Point, letter: char, seen: set<Point>,
                    points: seq<Point>, after: set<Point>, perimeter: nat, corners: nat)
    requires Exploring(grid, start, letter, seen, points, [], after, perimeter, corners)
    ensures |points| >= 1 && points[0] == start && Seqs.Distinct(points)
    ensures forall q :: q in points ==> q !in seen && At(grid, q) == Some(letter)
    ensures after == seen + Members(points)
    ensures Chained(points) && Closed(grid, letter, points, after)
    ensures perimeter == FenceTotal(grid, letter, points) && corners == CornerTotal(grid, letter, points)
  {
    assert (after + Members([])) == after;
  }

  /** A popped point that was already seen is dropped. */
  lemma SkipKeeps(grid: seq<seq<char>>, start: Point, letter: char, seen: set<Point>,
                  points: seq<Point>, todo: seq<Point>, after: set<Point>, perimeter: nat, corners: nat)
    requires Exploring(grid, start, letter, seen, points, todo, after, perimeter, corners)
    requires |todo| > 0 && todo[0] in after
    ensures Exploring(grid, start, letter, seen, points, todo[1..], after, perimeter, corners)
  {
    var p := todo[0];
    assert Members([]) == {};
    assert |points| == 0 ==> p !in after;
    assert todo == [p] + todo[1..];
    assert forall q :: q in todo[1..] ==> q in todo;
    assert Members(todo) == {p} + Members(todo[1..]);
    assert (after + Members(todo)) == (after + Members(todo[1..]));
  }

  /** A popped point not seen before is explored: it joins the points, its
      counts join the counters, and its same-letter sides go to the front of
      the worklist. */
  lemma VisitKeeps(grid: seq<seq<char>>, start: Point, letter: char, seen: set<Point>,
                   points: seq<Point>, todo: seq<Point>, after: set<Point>, perimeter: nat, corners: nat,
                   fences: nat, here: nat, pushed: seq<Point>)
    requires Exploring(grid, start, letter, seen, points, todo, after, perimeter, corners)
    requires |todo| > 0 && todo[0] !in after
    requires fences == Fences(grid, todo[0], letter, 4) && here == Corners(grid, todo[0], letter, 4)
    requires pushed == Pushed(grid, todo[0], letter, 4)
    ensures Exploring(grid, start, letter, seen, points + [todo[0]], pushed + todo[1..], after + {todo[0]},
                      perimeter + fences, corners + here)
    ensures Unexplored(grid, after + {todo[0]}) < Unexplored(grid, after)
  {
    var p := todo[0];
    var points', todo', after' := points + [p], pushed + todo[1..], after + {p};
    assert points'[..|points|] == points;
    assert p in todo;
    VisitPoints(seen, points, after, p);
    assert p == start || Beside(points, p);
    UnexploredShrinks(grid, after, p);
    ExtendChain(points, p);
    VisitTodo(grid, start, letter, points, todo, pushed);
    VisitClosed(grid, letter, points, todo, after, pushed);
    VisitTotals(grid, letter, points, p);
    assert forall q :: q in points' ==> q !in seen && At(grid, q) == Some(letter) by {
      forall q | q in points'
        ensures q !in seen && At(grid, q) == Some(letter)
      {
        if q != p {
          assert q in points;
        }
      }
    }
  }

  /** The counters grow by the fences and corners of the new point. */
  lemma VisitTotals(grid: seq<seq<char>>, letter: char, points: seq<Point>, p: Point)
    ensures FenceTotal(grid, letter, points + [p]) == FenceTotal(grid, letter, points) + Fences(grid, p, letter, 4)
    ensures CornerTotal(grid, letter, points + [p]) == CornerTotal(grid, letter, points) + Corners(grid, p, letter, 4)
  {
    assert (points + [p])[..|points|] == points;
  }

  /** The explored point joins the points once. */
  lemma VisitPoints(seen: set<Point>, points: seq<Point>, after: set<Point>, p: Point)
    requires Seqs.Distinct(points) && after == seen + Members(points) && p !in after
    ensures Seqs.Distinct(points + [p]) && after + {p} == seen + Members(points + [p])
  {
    assert Members(points + [p]) == Members(points) + {p};
  }

  /** The new worklist holds points of the letter, each the start or beside
      an explored point. */
  lemma VisitTodo(grid: seq<seq<char>>, start: Point, letter: char, points: seq<Point>, todo: seq<Point>, pushed: seq<Point>)
    requires |todo| > 0 && pushed == Pushed(grid, todo[0], letter, 4)
    requires forall q :: q in todo ==> At(grid, q) == Some(letter)
    requires forall q :: q in todo ==> q == start || Beside(points, q)
    ensures forall q :: q in pushed + todo[1..] ==> At(grid, q) == Some(letter)
    ensures forall q :: q in pushed + todo[1..] ==> q == start || Beside(points + [todo[0]], q)
  {
    var p := todo[0];
    var points' := points + [p];
    KeepBeside(points, p);
    forall q | q in pushed
      ensures At(grid, q) == Some(letter) && Beside(points', q)
    {
      PushedMeans(grid, p, letter, 4, q);
      var k :| 0 <= k < 4 && q == Side(p, k) && At(grid, q) == Some(letter);
      assert q == Side(points'[|points|], k);
    }
    forall q | q in todo[1..]
      ensures At(grid, q) == Some(letter) && (q == start || Beside(points', q))
    {
      assert q in todo;
    }
  }

  /** Every same-letter side of an explored point stays on the worklist or
      seen, now counting the sides of the new point. */
  lemma VisitClosed(grid: seq<seq<char>>, letter: char, points: seq<Point>, todo: seq<Point>, after: set<Point>, pushed: seq<Point>)
    requires |todo| > 0 && pushed == Pushed(grid, todo[0], letter, 4)
    requires Closed(grid, letter, points, after + Members(todo))
    ensures Closed(grid, letter, points + [todo[0]], (after + {todo[0]}) + Members(pushed + todo[1..]))
  {
    var p := todo[0];
    var points' := points + [p];
    var before := after + Members(todo);
    var now := (after + {p}) + Members(pushed + todo[1..]);
    assert todo == [p] + todo[1..];
    assert before <= now;
    forall i, k | 0 <= i < |points'| && 0 <= k < 4 && At(grid, Side(points'[i], k)) == Some(letter)
      ensures Side(points'[i], k) in now
    {
      if i == |points| {
        PushedMeans(grid, p, letter, 4, Side(p, k));
        assert Side(p, k) in pushed;
      } else {
        assert points'[i] == points[i];
      }
    }
  }

  /** Worklist points beside the earlier points stay beside after one
      more is explored. */
  lemma KeepBeside(before: seq<Point>, p: Point)
    ensures forall q :: Beside(before, q) ==> Beside(before + [p], q)
  {
    forall q | Beside(before, q)
      ensures Beside(before + [p], q)
    {
      var i, k :| 0 <= i < |before| && 0 <= k < 4 && q == Side(before[i], k);
      assert (before + [p])[i] == before[i];
    }
  }

  /** Appending a point that is beside an earlier one keeps the chain. */
  lemma ExtendChain(points: seq<Point>, p: Point)
    requires Chained(points) && (|points| == 0 || Beside(points, p))
    ensures Chained(points + [p])
  {
    var ext := points + [p];
    forall j | 0 < j < |ext|
      ensures Beside(ext[..j], ext[j])
    {
      if j < |points| {
        assert ext[..j] == points[..j];
      } else {
        assert ext[..j] == points;
      }
    }
  }

  /** The points of a sequence, as a set. */
  function Members(points: seq<Point>): set<Point> {
    set q | q in points
  }

  /** The points of the given plots, which `seen` holds in `find_plots`. */
  function Covered(found: seq<Plot>): set<Point> {
    set k, q | 0 <= k < |found| && q in found[k].points :: q
  }

  /** A plot explored correctly: its letter on every point, each point
      once, the area its number of points, every point after the first
      beside an earlier one, perimeter and sides its fences and corners. */
  ghost predicate SoundPlot(grid: seq<seq<char>>, plot: Plot) {
    plot.area == |plot.points| && |plot.points| >= 1 && Seqs.Distinct(plot.points) &&
    (forall q :: q in plot.points ==> At(grid, q) == Some(plot.letter)) &&
    Chained(plot.points) &&
    plot.perimeter == FenceTotal(grid, plot.letter, plot.points) &&
    plot.corners == CornerTotal(grid, plot.letter, plot.points)
  }

  ghost predicate Sound(grid: seq<seq<char>>, found: seq<Plot>) {
    forall k :: 0 <= k < |found| ==> SoundPlot(grid, found[k])
  }

  /** No point is in two plots. */
  ghost predicate Disjoint(found: seq<Plot>) {
    forall k1, k2, q :: 0 <= k1 < k2 < |found| && q in found[k1].points ==> q !in found[k2].points
  }

  /** Every same-letter side of a plot's point is in the same plot. */
  ghost predicate MaximalIn(grid: seq<seq<char>>, found: seq<Plot>) {
    forall k :: 0 <= k < |found| ==> Closed(grid, found[k].letter, found[k].points, Members(found[k].points))
  }

  /** The state of `find_plots`: `seen` holds exactly the points of the
      plots found, which are sound, disjoint and whole regions, and whose
      areas add up to the number of points seen. */
  ghost predicate Finding(grid: seq<seq<char>>, found: seq<Plot>, seen: set<Point>) {
    seen == Covered(found) && seen <= AllCells(grid) &&
    Sound(grid, found) && Disjoint(found) && MaximalIn(grid, found) && AreaSum(found) == |seen|
  }

  /** The plots cover the map, none overlaps another, each is a whole
      region explored correctly, and their areas add up to the map's. */
  ghost predicate Partition(grid: seq<seq<char>>, found: seq<Plot>) {
    Sound(grid, found) && Disjoint(found) && MaximalIn(grid, found) &&
    (forall p :: InBounds(grid, p) ==> p in Covered(found)) &&
    AreaSum(found) == |AllCells(grid)|
  }

  /** Every cell before (x, y) in reading order has been seen: the part
      of the map `find_plots` has walked over. */
  ghost predicate ScannedTo(grid: seq<seq<char>>, seen: set<Point>, x: int, y: int) {
    forall p :: InBounds(grid, p) && (p.0 < x || (p.0 == x && p.1 < y)) ==> p in seen
  }

  lemma ScanStep(grid: seq<seq<char>>, seen: set<Point>, after: set<Point>, x: int, y: int)
    requires ScannedTo(grid, seen, x, y) && seen <= after && (x, y) in after
    ensures ScannedTo(grid, after, x, y + 1)
  {
  }

  lemma ScanRow(grid: seq<seq<char>>, seen: set<Point>, x: int)
    requires 0 <= x < |grid| && ScannedTo(grid, seen, x, |grid[x]|)
    ensures ScannedTo(grid, seen, x + 1, 0)
  {
  }

  lemma FindStart(grid: seq<seq<char>>)
    ensures Finding(grid, [], {})
  {
    assert Covered([]) == {};
  }

  lemma CoveredAppend(found: seq<Plot>, plot: Plot)
    ensures Covered(found + [plot]) == Covered(found) + Members(plot.points)
  {
    var next := found + [plot];
    forall q | q in Covered(next)
      ensures q in Covered(found) + Members(plot.points)
    {
      var k :| 0 <= k < |next| && q in next[k].points;
      if k < |found| {
        assert q in found[k].points;
      }
    }
    forall q | q in Covered(found) + Members(plot.points)
      ensures q in Covered(next)
    {
      if q in plot.points {
        assert q in next[|found|].points;
      } else {
        var k :| 0 <= k < |found| && q in found[k].points;
        assert q in next[k].points;
      }
    }
  }

  /** Adding a plot explored from an unseen cell keeps `Finding`. */
  /** `AddPlot` for the plots pushed onto a list since position `start`. */
  lemma PushPlot(grid: seq<seq<char>>, plots: seq<Plot>, start: nat, seen: set<Point>, plot: Plot, after: set<Point>)
    requires start <= |plots| && Finding(grid, plots[start..], seen)
    requires SoundPlot(grid, plot)
    requires forall q :: q in plot.points ==> q !in seen
    requires after == seen + Members(plot.points)
    requires Closed(grid, plot.letter, plot.points, after)
    ensures Finding(grid, (plots + [plot])[start..], after)
  {
    var found := plots[start..];
    assert (plots + [plot])[start..] == found + [plot];
    AddPlot(grid, found, seen, plot, after);
  }

  lemma AddPlot(grid: seq<seq<char>>, found: seq<Plot>, seen: set<Point>, plot: Plot, after: set<Point>)
    requires Finding(grid, found, seen)
    requires SoundPlot(grid, plot)
    requires forall q :: q in plot.points ==> q !in seen
    requires after == seen + Members(plot.points)
    requires Closed(grid, plot.letter, plot.points, after)
    ensures Finding(grid, found + [plot], after)
  {
    var next := found + [plot];
    var own := Members(plot.points);
    CoveredAppend(found, plot);
    forall q | q in own
      ensures q in AllCells(grid)
    {
      AllCellsMeans(grid, q);
    }
    assert Sound(grid, next) by {
      forall k | 0 <= k < |next|
        ensures SoundPlot(grid, next[k])
      {
        if k < |found| {
          assert next[k] == found[k];
        }
      }
    }
    DisjointAppend(found, plot);
    MaximalAppend(grid, found, seen, plot, after);
    Seqs.DistinctCard(plot.points);
    AreaSumAppend(found, plot);
    assert seen * own == {};
  }

  lemma DisjointAppend(found: seq<Plot>, plot: Plot)
    requires Disjoint(found)
    requires forall q :: q in plot.points ==> q !in Covered(found)
    ensures Disjoint(found + [plot])
  {
    var next := found + [plot];
    forall k1, k2, q | 0 <= k1 < k2 < |next| && q in next[k1].points
      ensures q !in next[k2].points
    {
      if k2 == |found| {
        assert q in found[k1].points;
        assert q in Covered(found);
      } else {
        assert next[k1] == found[k1] && next[k2] == found[k2];
      }
    }
  }

  lemma MaximalAppend(grid: seq<seq<char>>, found: seq<Plot>, seen: set<Point>, plot: Plot, after: set<Point>)
    requires seen == Covered(found) && Sound(grid, found) && MaximalIn(grid, found)
    requires forall q :: q in plot.points ==> q !in seen && At(grid, q) == Some(plot.letter)
    requires after == seen + Members(plot.points)
    requires Closed(grid, plot.letter, plot.points, after)
    ensures MaximalIn(grid, found + [plot])
  {
    var next := found + [plot];
    forall k | 0 <= k < |next|
      ensures Closed(grid, next[k].letter, next[k].points, Members(next[k].points))
    {
      if k < |found| {
        assert next[k] == found[k];
      } else {
        NewPlotMaximal(grid, found, seen, plot, after);
      }
    }
  }

  /** The new plot is closed within itself: a same-letter side lying in
      an earlier plot would have put this point in that plot too. */
  lemma NewPlotMaximal(grid: seq<seq<char>>, found: seq<Plot>, seen: set<Point>, plot: Plot, after: set<Point>)
    requires seen == Covered(found) && Sound(grid, found) && MaximalIn(grid, found)
    requires forall q :: q in plot.points ==> q !in seen && At(grid, q) == Some(plot.letter)
    requires after == seen + Members(plot.points)
    requires Closed(grid, plot.letter, plot.points, after)
    ensures Closed(grid, plot.letter, plot.points, Members(plot.points))
  {
    forall i, k | 0 <= i < |plot.points| && 0 <= k < 4 && At(grid, Side(plot.points[i], k)) == Some(plot.letter)
      ensures Side(plot.points[i], k) !in seen
    {
      var p := plot.points[i];
      assert p in plot.points;
      SideNotSeen(grid, found, seen, p, k, plot.letter);
    }
  }

  /** A side of an unseen point, of the point's own letter, is unseen. */
  lemma SideNotSeen(grid: seq<seq<char>>, found: seq<Plot>, seen: set<Point>, p: Point, k: nat, letter: char)
    requires seen == Covered(found) && Sound(grid, found) && MaximalIn(grid, found)
    requires k < 4 && p !in seen && At(grid, p) == Some(letter) && At(grid, Side(p, k)) == Some(letter)
    ensures Side(p, k) !in seen
  {
    forall m | 0 <= m < |found|
      ensures Side(p, k) !in found[m].points
    {
      assert SoundPlot(grid, found[m]);
      assert Closed(grid, found[m].letter, found[m].points, Members(found[m].points));
      assert p !in found[m].points;
      SideNotInPlot(grid, found[m], p, k, letter);
    }
    assert Side(p, k) !in Covered(found);
  }

  /** A plot closed within itself that misses p misses the sides of p of
      p's letter. */
  lemma SideNotInPlot(grid: seq<seq<char>>, plot: Plot, p: Point, k: nat, letter: char)
    requires SoundPlot(grid, plot) && Closed(grid, plot.letter, plot.points, Members(plot.points))
    requires k < 4 && At(grid, p) == Some(letter) && At(grid, Side(p, k)) == Some(letter) && p !in plot.points
    ensures Side(p, k) !in plot.points
  {
    SideBack(p, k);
    var back := (k + 2) % 4;
    forall j | 0 <= j < |plot.points|
      ensures plot.points[j] != Side(p, k)
    {
      assert plot.points[j] in plot.points;
      assert At(grid, plot.points[j]) == Some(plot.letter);
      assert Side(plot.points[j], back) in Members(plot.points) || At(grid, Side(plot.points[j], back)) != Some(plot.letter);
    }
  }

  class Garden {
    /** The source's `map`: one row per line of the input. */
    const grid: seq<seq<char>>
    /** `plots`: filled by `FindPlots`. */
    var plots: seq<Plot>

    /** `Input::from` on the trimmed input, as `main` calls it. */
    constructor(input: string)
      ensures grid == Text.Lines(Text.Trim(input)) && plots == []
    {
      grid := Text.Lines(Text.Trim(input));
      plots := [];
    }

    /** One pass of the source's `for i in 0..4` over the sides of p: the
        fences, the corners and the same-letter sides to explore. */
    method Surroundings(p: Point, letter: char) returns (fences: nat, corners: nat, pushed: seq<Point>)
      ensures fences == Fences(grid, p, letter, 4) && corners == Corners(grid, p, letter, 4)
      ensures pushed == Pushed(grid, p, letter, 4)
    {
      var neighbours := AllNeighbours(grid, p);
      fences, corners, pushed := 0, 0, [];
      for i := 0 to 4
        invariant fences == Fences(grid, p, letter, i) && corners == Corners(grid, p, letter, i)
        invariant pushed == Pushed(grid, p, letter, i)
      {
        Neighbourhood(grid, p, i);
        SurroundingsStep(grid, p, letter, i);
        var (np, neighbour) := neighbours[i * 2];
        var (_, diagonal) := neighbours[(i * 2 + 1) % 8];
        var (_, next) := neighbours[(i * 2 + 2) % 8];
        match neighbour
        case Some(c) =>
          if c == letter {
            pushed := [np] + pushed;
            if next.Some? && diagonal.Some? && next.value == letter && diagonal.value != letter {
              corners := corners + 1;
            }
          } else {
            fences := fences + 1;
            if next.None? || next.value != letter {
              corners := corners + 1;
            }
          }
        case None =>
          fences := fences + 1;
          if next.None? || next.value != letter {
            corners := corners + 1;
          }
      }
    }

    /** `explore_plot`: a worklist search from `start` through same-letter
        sides, skipping what `seen` holds. */
    method ExplorePlot(start: Point, letter: char, seen: set<Point>) returns (plot: Plot, after: set<Point>)
      requires At(grid, start) == Some(letter) && start !in seen
      ensures plot.letter == letter && plot.area == |plot.points|
      ensures |plot.points| >= 1 && plot.points[0] == start && Seqs.Distinct(plot.points)
      ensures forall q :: q in plot.points ==> q !in seen && At(grid, q) == Some(letter)
      ensures after == seen + Members(plot.points)
      ensures Chained(plot.points)
      ensures Closed(grid, letter, plot.points, after)
      ensures plot.perimeter == FenceTotal(grid, letter, plot.points)
      ensures plot.corners == CornerTotal(grid, letter, plot.points)
    {
      ExploreStart(grid, start, letter, seen);
      var points, perimeter, corners;
      points, after, perimeter, corners := Drain(start, letter, seen, [], [start], seen, 0, 0);
      ExploreDone(grid, start, letter, seen, points, after, perimeter, corners);
      plot := Plot(letter, points, |points|, perimeter, corners);
    }

    /** The loop of `explore_plot`: pop the front of the worklist, skip it
        if seen, otherwise explore it, counting its fences and corners and
        pushing its same-letter sides to the front. */
    method Drain(start: Point, letter: char, seen: set<Point>, points0: seq<Point>, todo0: seq<Point>,
                 after0: set<Point>, perimeter0: nat, corners0: nat)
      returns (points: seq<Point>, after: set<Point>, perimeter: nat, corners: nat)
      requires Exploring(grid, start, letter, seen, points0, todo0, after0, perimeter0, corners0)
      ensures Exploring(grid, start, letter, seen, points, [], after, perimeter, corners)
    {
      points, after, perimeter, corners := points0, after0, perimeter0, corners0;
      var todo := todo0;
      while |todo| > 0
        invariant Exploring(grid, start, letter, seen, points, todo, after, perimeter, corners)
        decreases Unexplored(grid, after), |todo|
      {
        var p := todo[0];
        if p in after {
          SkipKeeps(grid, start, letter, seen, points, todo, after, perimeter, corners);
          todo := todo[1..];
          continue;
        }
        var fences, here, pushed := Surroundings(p, letter);
        VisitKeeps(grid, start, letter, seen, points, todo, after, perimeter, corners, fences, here, pushed);
        after := after + {p};
        points := points + [p];
        todo := pushed + todo[1..];
        perimeter := perimeter + fences;
        corners := corners + here;
      }
    }

    /** `find_plots`: every cell not yet seen, in reading order, starts a
        new plot. */
    method FindPlots()
      modifies this
      ensures |plots| >= |old(plots)| && plots[..|old(plots)|] == old(plots)
      ensures Partition(grid, plots[|old(plots)|..])
    {
      ghost var first := plots;
      var seen: set<Point> := {};
      FindStart(grid);
      assert plots[|first|..] == [];
      for x := 0 to |grid|
        invariant |plots| >= |first| && plots[..|first|] == first
        invariant Finding(grid, plots[|first|..], seen) && ScannedTo(grid, seen, x, 0)
      {
        for y := 0 to |grid[x]|
          invariant |plots| >= |first| && plots[..|first|] == first
          invariant Finding(grid, plots[|first|..], seen) && ScannedTo(grid, seen, x, y)
        {
          ghost var before := seen;
          seen := Visit((x, y), seen, |first|);
          ScanStep(grid, before, seen, x, y);
        }
        ScanRow(grid, seen, x);
      }
      CoverAll(plots[|first|..], seen);
    }

    /** One step of the scan over the map: a cell already seen is
        skipped, any other is the start of a new plot, explored whole and
        pushed onto the plots found since position `start`. */
    method Visit(point: Point, seen: set<Point>, ghost start: nat) returns (after: set<Point>)
      modifies this
      requires InBounds(grid, point) && start <= |plots| && Finding(grid, plots[start..], seen)
      ensures |plots| >= |old(plots)| && plots[..|old(plots)|] == old(plots)
      ensures Finding(grid, plots[start..], after)
      ensures point in after && seen <= after
    {
      if point in seen {
        return seen;
      }
      var plot;
      plot, after := ExplorePlot(point, grid[point.0][point.1], seen);
      PushPlot(grid, plots, start, seen, plot, after);
      assert point in plot.points;
      plots := plots + [plot];
    }

    /** Once every cell is seen, the plots partition the map. */
    lemma CoverAll(found: seq<Plot>, seen: set<Point>)
      requires Finding(grid, found, seen)
      requires ScannedTo(grid, seen, |grid|, 0)
      ensures Partition(grid, found)
    {
      forall p | p in AllCells(grid)
        ensures p in seen
      {
        AllCellsMeans(grid, p);
      }
      assert seen == AllCells(grid);
      forall p | InBounds(grid, p)
        ensures p in Covered(found)
      {
        assert p in seen;
      }
    }
  }

  /** The counts and the pushed sides taking in side i, in terms of the
      three lookups the inner loop makes. */
  lemma SurroundingsStep(grid: seq<seq<char>>, p: Point, letter: char, i: nat)
    requires i < 4
    ensures var side := At(grid, Side(p, i));
      var next := At(grid, Side(p, (i + 1) % 4));
      var diagonal := At(grid, Diagonal(p, i));
      var corner := if side == Some(letter) then next == Some(letter) && diagonal.Some? && diagonal.value != letter
                    else next != Some(letter);
      Fences(grid, p, letter, i + 1) == Fences(grid, p, letter, i) + (if side == Some(letter) then 0 else 1) &&
      Corners(grid, p, letter, i + 1) == Corners(grid, p, letter, i) + (if corner then 1 else 0) &&
      Pushed(grid, p, letter, i + 1) == (if side == Some(letter) then [Side(p, i)] else []) + Pushed(grid, p, letter, i)
  {
    var n := i + 1;
    assert n - 1 == i;
    assert Fences(grid, p, letter, n) == Fences(grid, p, letter, i) + if IsFence(grid, p, letter, i) then 1 else 0;
    assert Corners(grid, p, letter, n) == Corners(grid, p, letter, i) + if IsCorner(grid, p, letter, i) then 1 else 0;
    assert Pushed(grid, p, letter, n) == (if IsFence(grid, p, letter, i) then [] else [Side(p, i)]) + Pushed(grid, p, letter, i);
  }

  /** What `explore_plot`'s inner loop reads for side i: the side itself,
      the diagonal after it and the next side. */
  lemma Neighbourhood(grid: seq<seq<char>>, p: Point, i: nat)
    requires i < 4
    ensures AllNeighbours(grid, p)[i * 2] == (Side(p, i), At(grid, Side(p, i)))
    ensures AllNeighbours(grid, p)[(i * 2 + 1) % 8].1 == At(grid, Diagonal(p, i))
    ensures AllNeighbours(grid, p)[(i * 2 + 2) % 8].1 == At(grid, Side(p, (i + 1) % 4))
  {
    NeighbourIndices(i);
  }

  /** The indices of `explore_plot`'s inner loop: side i at 2i, the
      diagonal after it at 2i + 1, the next side at 2(i + 1) modulo 8. */
  lemma NeighbourIndices(i: nat)
    requires i < 4
    ensures (i * 2 + 1) % 8 == 2 * i + 1 && (i * 2 + 2) % 8 == 2 * ((i + 1) % 4)
  {
    if i == 0 {
    } else if i == 1 {
    } else if i == 2 {
    } else {
    }
  }

  /** The total area of the plots. */
  function AreaSum(found: seq<Plot>): nat {
    if |found| == 0 then 0 else AreaSum(found[..|found| - 1]) + found[|found| - 1].area
  }

  lemma AreaSumAppend(found: seq<Plot>, plot: Plot)
    ensures AreaSum(found + [plot]) == AreaSum(found) + plot.area
  {
    assert (found + [plot])[..|found|] == found;
  }

  /** `Plot::price` and `Plot::discounted_price`. */
  function Price(plot: Plot, discounted: bool): nat {
    plot.area * if discounted then plot.corners else plot.perimeter
  }

  /** `Input::price` and `Input::discounted_price`: summed over the plots. */
  function TotalPrice(found: seq<Plot>, discounted: bool): nat {
    if |found| == 0 then 0 else TotalPrice(found[..|found| - 1], discounted) + Price(found[|found| - 1], discounted)
  }

  /** A plot explored correctly costs at most four times the square of its
      area. */
  lemma PriceBounded(grid: seq<seq<char>>, plot: Plot, discounted: bool)
    requires plot.area == |plot.points|
    requires plot.perimeter == FenceTotal(grid, plot.letter, plot.points)
    requires plot.corners == CornerTotal(grid, plot.letter, plot.points)
    ensures Price(plot, discounted) <= 4 * plot.area * plot.area
  {
    TotalsBounded(grid, plot.letter, plot.points);
    var a := plot.area;
    var c := if discounted then plot.corners else plot.perimeter;
    assert c <= 4 * a;
    MulMono(4 * a, c, a);
    assert Price(plot, discounted) == c * a;
  }

  /** `main`: both prices of the garden. */
  method Solve(input: string) returns (price: nat, discounted: nat, ghost found: seq<Plot>)
    ensures Partition(Text.Lines(Text.Trim(input)), found)
    ensures price == TotalPrice(found, false) && discounted == TotalPrice(found, true)
  {
    var garden := new Garden(input);
    garden.FindPlots();
    found := garden.plots;
    assert found[0..] == found;
    price := TotalPrice(garden.plots, false);
    discounted := TotalPrice(garden.plots, true);
  }
}
