/** The grid abstraction the grid puzzles share (`aoc::Map`, `aoc::Point`,
    `move_point_by`, `at_point`, `set_point`, `cardinal_neighbours`,
    `all_neighbours` and `Map::iter`), whose source is not part of this
    model.  A map is a sequence of rows; a point is (row, column); a
    lookup is bounds-checked and answers None off the grid. */
module Grid {
  import opened Wrappers
  import Seqs
  import Arith

  /** (row, column).  Coordinates are unbounded integers: a step off the
      top or left edge gives a negative coordinate, which every lookup
      treats as off the grid. */
  type Point = (int, int)

  /** Every row as long as the first. */
  predicate Rectangular<T>(g: seq<seq<T>>) {
    forall i :: 0 <= i < |g| ==> |g[i]| == |g[0]|
  }

  function Width<T>(g: seq<seq<T>>): nat {
    if |g| == 0 then 0 else |g[0]|
  }

  predicate InBounds<T>(g: seq<seq<T>>, p: Point) {
    0 <= p.0 < |g| && 0 <= p.1 < |g[p.0]|
  }

  /** `Map::at_point`. */
  function At<T>(g: seq<seq<T>>, p: Point): (r: Option<T>)
    ensures r.Some? <==> InBounds(g, p)
    ensures r.Some? ==> r.value == g[p.0][p.1]
  {
    if InBounds(g, p) then Some(g[p.0][p.1]) else None
  }

  /** `Map::set_point` on a point of the grid. */
  function SetAt<T>(g: seq<seq<T>>, p: Point, v: T): (r: seq<seq<T>>)
    requires InBounds(g, p)
    ensures |r| == |g| && forall i :: 0 <= i < |g| ==> |r[i]| == |g[i]|
    ensures forall q :: At(r, q) == if q == p then Some(v) else At(g, q)
  {
    g[p.0 := g[p.0][p.1 := v]]
  }

  /** `aoc::move_point_by`. */
  function MovePointBy(p: Point, dx: int, dy: int): Point {
    (p.0 + dx, p.1 + dy)
  }

  /** The order of `cardinal_neighbours`: up, down, left, right. */
  const Cardinal: seq<Point> := [(-1, 0), (1, 0), (0, -1), (0, 1)]

  /** The k-th of `cardinal_neighbours`. */
  function StepTo(p: Point, k: nat): Point
    requires k < 4
  {
    MovePointBy(p, Cardinal[k].0, Cardinal[k].1)
  }

  /** `manhattan_distance`: the steps between two points along the rows
      and columns. */
  function Manhattan(a: Point, b: Point): (r: nat)
    ensures r == 0 <==> a == b
  {
    Arith.Abs(a.0 - b.0) + Arith.Abs(a.1 - b.1)
  }

  /** p comes strictly before q in reading order. */
  predicate Before(p: Point, q: Point) {
    p.0 < q.0 || (p.0 == q.0 && p.1 < q.1)
  }

  /** `Map::cardinal_neighbours`: each of the four orthogonal neighbours
      with its lookup. */
  function CardinalNeighbours<T>(g: seq<seq<T>>, p: Point): (r: seq<(Point, Option<T>)>)
    ensures |r| == 4
    ensures forall k :: 0 <= k < 4 ==>
      r[k].0 == MovePointBy(p, Cardinal[k].0, Cardinal[k].1) && r[k].1 == At(g, r[k].0)
  {
    seq(4, k requires 0 <= k < 4 =>
      var q := MovePointBy(p, Cardinal[k].0, Cardinal[k].1); (q, At(g, q)))
  }

  /** The order assumed for `all_neighbours`: clockwise from up, so that the
      orthogonal neighbours sit at the even indices and index k + 1 is the
      diagonal between the orthogonal neighbours k and k + 2 (mod 8). */
  const Compass: seq<Point> := [(-1, 0), (-1, 1), (0, 1), (1, 1), (1, 0), (1, -1), (0, -1), (-1, -1)]

  /** `Map::all_neighbours`: the eight surrounding points with their lookups. */
  function AllNeighbours<T>(g: seq<seq<T>>, p: Point): (r: seq<(Point, Option<T>)>)
    ensures |r| == 8
    ensures forall k :: 0 <= k < 8 ==>
      r[k].0 == MovePointBy(p, Compass[k].0, Compass[k].1) && r[k].1 == At(g, r[k].0)
  {
    seq(8, k requires 0 <= k < 8 =>
      var q := MovePointBy(p, Compass[k].0, Compass[k].1); (q, At(g, q)))
  }

  /** The points `Map::iter` visits, assumed to be row-major order over a
      rectangular map. */
  function Cells<T>(g: seq<seq<T>>): (r: seq<Point>)
    requires Rectangular(g)
    ensures |r| == |g| * Width(g)
  {
    var w := Width(g);
    seq(|g| * w, k requires 0 <= k < |g| * w => (k / w, k % w))
  }

  lemma CellsInBounds<T>(g: seq<seq<T>>, k: nat)
    requires Rectangular(g) && k < |Cells(g)|
    ensures InBounds(g, Cells(g)[k])
    ensures Cells(g)[k] == (k / Width(g), k % Width(g))
  {
    var w := Width(g);
    assert w > 0;
    var q := k / w;
    assert k == q * w + k % w;
    if q >= |g| {
      assert q * w >= |g| * w by { MulMono(q, |g|, w); }
    }
  }

  lemma MulMono(a: nat, b: nat, w: nat)
    requires a >= b
    ensures a * w >= b * w
  {
  }

  /** Every point of the grid is visited by `Cells`, at index row * width + column. */
  lemma {:induction false} CellsComplete<T>(g: seq<seq<T>>, p: Point)
    requires Rectangular(g) && InBounds(g, p)
    ensures var w := Width(g); p.0 * w + p.1 < |Cells(g)| && Cells(g)[p.0 * w + p.1] == p
  {
    var w := Width(g);
    var k := p.0 * w + p.1;
    assert k < |g| * w by {
      assert p.0 + 1 <= |g|;
      MulMono(|g|, p.0 + 1, w);
    }
    assert k / w == p.0 && k % w == p.1 by { DivModUnique(k, w, p.0, p.1); }
  }

  /** A set of in-bounds points of a rectangular grid has at most as many
      members as the grid has cells. */
  lemma InBoundsCount<T>(g: seq<seq<T>>, s: set<Point>)
    requires Rectangular(g) && forall p :: p in s ==> InBounds(g, p)
    ensures |s| <= |g| * Width(g)
  {
    var cells := Cells(g);
    forall p | p in s
      ensures p in cells
    {
      CellsComplete(g, p);
    }
    Seqs.SeqSetCard(cells);
    Seqs.SubsetCard(s, set p | p in cells);
  }

  lemma DivModUnique(k: int, w: int, q: int, r: int)
    requires w > 0 && 0 <= r < w && k == q * w + r
    ensures k / w == q && k % w == r
  {
    var q0, r0 := k / w, k % w;
    assert (q0 - q) * w == r - r0;
    if q0 > q {
      MulMono(q0 - q, 1, w);
    } else if q0 < q {
      MulMono(q - q0, 1, w);
    }
  }

  /** The row `line` decoded cell by cell, or None when a character does
      not decode (the source panics). */
  function ParseRow<T>(line: string, decode: char -> Option<T>): (r: Option<seq<T>>)
    ensures r.Some? ==> |r.value| == |line|
    ensures r.Some? ==> forall k :: 0 <= k < |line| ==> decode(line[k]) == Some(r.value[k])
    ensures r.None? ==> exists k :: 0 <= k < |line| && decode(line[k]).None?
  {
    if |line| == 0 then Some([])
    else match decode(line[|line| - 1])
      case None => None
      case Some(t) =>
        match ParseRow(line[..|line| - 1], decode)
        case None => None
        case Some(row) => Some(row + [t])
  }

  /** `Map::from`: one row per line, one cell per character, or None when
      a character does not decode. */
  function ParseGrid<T>(lines: seq<string>, decode: char -> Option<T>): (r: Option<seq<seq<T>>>)
    ensures r.Some? ==> |r.value| == |lines|
    ensures r.Some? ==> forall i :: 0 <= i < |lines| ==> ParseRow(lines[i], decode) == Some(r.value[i])
  {
    if |lines| == 0 then Some([])
    else match ParseRow(lines[|lines| - 1], decode)
      case None => None
      case Some(row) =>
        match ParseGrid(lines[..|lines| - 1], decode)
        case None => None
        case Some(g) => Some(g + [row])
  }

  /** Lines that each parse to the matching row of g parse to g. */
  lemma {:induction false} GridOfRows<T>(lines: seq<string>, decode: char -> Option<T>, g: seq<seq<T>>)
    requires |lines| == |g| && forall i :: 0 <= i < |lines| ==> ParseRow(lines[i], decode) == Some(g[i])
    ensures ParseGrid(lines, decode) == Some(g)
  {
    if |lines| > 0 {
      var n := |lines| - 1;
      GridOfRows(lines[..n], decode, g[..n]);
      assert g[..n] + [g[n]] == g;
    }
  }

  /** How many cells hold `v`. */
  function CountIn<T(==)>(g: seq<seq<T>>, v: T): nat {
    if |g| == 0 then 0 else CountIn(g[..|g| - 1], v) + multiset(g[|g| - 1])[v]
  }
}
