/** Day 8, resonant antennas: every character but '.' is an antenna of
    that frequency.  Two antennas of one frequency make an antinode on
    the far side of each of them (part 1), or a whole line of antinodes
    stepping away from each by their distance (part 2).  The answers count
    the distinct antinodes on the map. */
module Antennas {
  import opened Wrappers
  import opened Grid
  import Text
  import Seqs

  datatype Cell = Empty | Antenna(frequency: char)

  function CellFromChar(c: char): (r: Cell)
    ensures r.Empty? <==> c == '.'
    ensures r.Antenna? ==> r.frequency == c
  {
    if c == '.' then Empty else Antenna(c)
  }

  function Rows(lines: seq<string>): (r: seq<seq<Cell>>)
    ensures |r| == |lines| && forall i :: 0 <= i < |lines| ==> |r[i]| == |lines[i]|
    ensures forall i, j :: 0 <= i < |lines| && 0 <= j < |lines[i]| ==> r[i][j] == CellFromChar(lines[i][j])
  {
    seq(|lines|, i requires 0 <= i < |lines| =>
      seq(|lines[i]|, j requires 0 <= j < |lines[i]| => CellFromChar(lines[i][j])))
  }

  /** The cells of one row with their locations, left to right. */
  function RowEntries(x: nat, row: string): (r: seq<(Point, char)>)
    ensures |r| == |row| && forall j :: 0 <= j < |row| ==> r[j] == ((x, j), row[j])
  {
    seq(|row|, j requires 0 <= j < |row| => ((x, j), row[j]))
  }

  /** Every cell with its location, in reading order. */
  function ReadingOrder(lines: seq<string>): seq<(Point, char)> {
    if |lines| == 0 then []
    else ReadingOrder(lines[..|lines| - 1]) + RowEntries(|lines| - 1, lines[|lines| - 1])
  }

  lemma {:induction false} ReadingOrderMeans(lines: seq<string>)
    ensures forall p, c :: (p, c) in ReadingOrder(lines) <==>
      0 <= p.0 < |lines| && 0 <= p.1 < |lines[p.0]| && lines[p.0][p.1] == c
    ensures forall i, j :: 0 <= i < j < |ReadingOrder(lines)| ==> ReadingOrder(lines)[i].0 != ReadingOrder(lines)[j].0
    ensures forall k :: 0 <= k < |ReadingOrder(lines)| ==> 0 <= ReadingOrder(lines)[k].0.0 < |lines|
    decreases |lines|
  {
    if |lines| > 0 {
      var n := |lines| - 1;
      ReadingOrderMeans(lines[..n]);
      assert forall i :: 0 <= i < n ==> lines[..n][i] == lines[i];
      var front, row := ReadingOrder(lines[..n]), RowEntries(n, lines[n]);
      assert ReadingOrder(lines) == front + row;
      forall p: Point, c: char
        ensures (p, c) in front + row <==> 0 <= p.0 < |lines| && 0 <= p.1 < |lines[p.0]| && lines[p.0][p.1] == c
      {
        if p.0 == n && 0 <= p.1 < |lines[n]| && lines[n][p.1] == c {
          assert row[p.1] == (p, c);
        }
      }
    }
  }

  /** The `antennas` map as `from` fills it: for every frequency, the
      locations of its antennas in the order the entries are read. */
  function Index(entries: seq<(Point, char)>): map<char, seq<Point>> {
    if |entries| == 0 then map[]
    else
      var before := Index(entries[..|entries| - 1]);
      var (p, c) := entries[|entries| - 1];
      if c == '.' then before
      else before[c := (if c in before then before[c] else []) + [p]]
  }

  /** A frequency is indexed exactly when some entry has it. */
  lemma {:induction false} IndexDomain(entries: seq<(Point, char)>)
    ensures forall c :: c in Index(entries) <==> c != '.' && exists k :: 0 <= k < |entries| && entries[k].1 == c
    decreases |entries|
  {
    if |entries| > 0 {
      var n := |entries| - 1;
      var front := entries[..n];
      IndexDomain(front);
      var before := Index(front);
      var (q, last) := entries[n];
      assert Index(entries) == if last == '.' then before else before[last := (if last in before then before[last] else []) + [q]];
      forall c | c != '.' && exists k :: 0 <= k < |entries| && entries[k].1 == c
        ensures c in Index(entries)
      {
        var k :| 0 <= k < |entries| && entries[k].1 == c;
        if k < n {
          assert front[k].1 == c;
        }
      }
      forall c | c in Index(entries)
        ensures c != '.' && exists k :: 0 <= k < |entries| && entries[k].1 == c
      {
        if c != last {
          assert c in before;
          var k :| 0 <= k < n && front[k].1 == c;
          assert entries[k].1 == c;
        }
      }
    }
  }

  /** The list of a frequency holds exactly the locations of its entries. */
  lemma {:induction false} IndexContents(entries: seq<(Point, char)>)
    ensures forall c, p :: c in Index(entries) ==> (p in Index(entries)[c] <==> (p, c) in entries)
    decreases |entries|
  {
    if |entries| > 0 {
      var n := |entries| - 1;
      var front := entries[..n];
      IndexContents(front);
      IndexDomain(front);
      assert entries == front + [entries[n]];
      var before := Index(front);
      var (q, last) := entries[n];
      assert Index(entries) == if last == '.' then before else before[last := (if last in before then before[last] else []) + [q]];
      forall c, p | c in Index(entries)
        ensures p in Index(entries)[c] <==> (p, c) in entries
      {
        if c == last {
          if c !in before {
            assert forall k :: 0 <= k < n ==> front[k].1 != c;
            assert (p, c) !in front;
          }
        }
      }
    }
  }

  /** With every location read once, every list holds each location once. */
  lemma {:induction false} IndexDistinct(entries: seq<(Point, char)>)
    requires forall i, j :: 0 <= i < j < |entries| ==> entries[i].0 != entries[j].0
    ensures forall c :: c in Index(entries) ==> Seqs.Distinct(Index(entries)[c]) && |Index(entries)[c]| >= 1
    decreases |entries|
  {
    if |entries| > 0 {
      var n := |entries| - 1;
      var front := entries[..n];
      IndexDistinct(front);
      IndexContents(front);
      var (q, c) := entries[n];
      var before := Index(front);
      if c != '.' {
        var earlier := if c in before then before[c] else [];
        assert forall k :: 0 <= k < n ==> front[k].0 != q;
        assert (q, c) !in front;
        assert q !in earlier;
        assert Seqs.Distinct(earlier + [q]);
      }
    }
  }

  /** The `Map` struct: the cells, the antennas by frequency, and the
      bounds (number of rows, length of the first row). */
  datatype AntennaMap = AntennaMap(points: seq<seq<Cell>>, antennas: map<char, seq<Point>>, bounds: (nat, nat))

  /** `Map::from`; None for an empty input, where `points[0]` panics. */
  function ParseMap(input: string): (r: Option<AntennaMap>)
    ensures r.Some? <==> |Text.Lines(input)| > 0
  {
    var lines := Text.Lines(input);
    if |lines| == 0 then None
    else Some(AntennaMap(Rows(lines), Index(ReadingOrder(lines)), (|lines|, |lines[0]|)))
  }

  /** What `from` records for a parsed map: every antenna of a frequency
      and nothing else, each location once. */
  lemma ParseMapAntennas(input: string)
    requires ParseMap(input).Some?
    ensures var m := ParseMap(input).value;
      forall c, p :: c in m.antennas ==>
        (p in m.antennas[c] <==> At(m.points, p) == Some(Antenna(c)))
    ensures var m := ParseMap(input).value;
      forall c :: c in m.antennas ==> Seqs.Distinct(m.antennas[c]) && c != '.'
  {
    var lines := Text.Lines(input);
    ReadingOrderMeans(lines);
    IndexDomain(ReadingOrder(lines));
    IndexContents(ReadingOrder(lines));
    IndexDistinct(ReadingOrder(lines));
  }

  /** `from`'s loops, filling the `antennas` map cell by cell. */
  method CollectAntennas(lines: seq<string>) returns (antennas: map<char, seq<Point>>)
    ensures antennas == Index(ReadingOrder(lines))
  {
    antennas := map[];
    for x := 0 to |lines|
      invariant antennas == Index(ReadingOrder(lines[..x]))
    {
      assert lines[..x + 1][..x] == lines[..x];
      var row := lines[x];
      assert ReadingOrder(lines[..x]) + RowEntries(x, row[..0]) == ReadingOrder(lines[..x]);
      for y := 0 to |row|
        invariant antennas == Index(ReadingOrder(lines[..x]) + RowEntries(x, row[..y]))
      {
        var entries := ReadingOrder(lines[..x]) + RowEntries(x, row[..y]);
        assert ReadingOrder(lines[..x]) + RowEntries(x, row[..y + 1]) == entries + [((x, y), row[y])];
        var c := row[y];
        if c != '.' {
          var list := if c in antennas then antennas[c] else [];
          antennas := antennas[c := list + [(x, y)]];
        }
      }
      assert row[..|row|] == row;
    }
    assert lines[..|lines|] == lines;
  }

  /** `Map::from` with its antenna-collecting loop. */
  method FromInput(input: string) returns (m: Option<AntennaMap>)
    ensures m == ParseMap(input)
  {
    var lines := Text.Lines(input);
    if |lines| == 0 {
      return None;
    }
    var antennas := CollectAntennas(lines);
    m := Some(AntennaMap(Rows(lines), antennas, (|lines|, |lines[0]|)));
  }

  /** `combinations`' inner iterator: `a` paired with every other location. */
  function Partners(a: Point, all: seq<Point>): (r: seq<(Point, Point)>)
    ensures forall q :: q in r <==> q.0 == a && q.1 in all && q.1 != a
  {
    if |all| == 0 then []
    else
      var n := |all| - 1;
      assert all == all[..n] + [all[n]];
      Partners(a, all[..n]) + if all[n] != a then [(a, all[n])] else []
  }

  function CombinationsFrom(front: seq<Point>, all: seq<Point>): seq<(Point, Point)> {
    if |front| == 0 then []
    else CombinationsFrom(front[..|front| - 1], all) + Partners(front[|front| - 1], all)
  }

  /** `combinations`: every ordered pair of different locations. */
  function Combinations(locations: seq<Point>): seq<(Point, Point)> {
    CombinationsFrom(locations, locations)
  }

  lemma {:induction false} CombinationsFromMeans(front: seq<Point>, all: seq<Point>)
    ensures forall a, b :: (a, b) in CombinationsFrom(front, all) <==> a in front && b in all && a != b
    decreases |front|
  {
    if |front| > 0 {
      var n := |front| - 1;
      CombinationsFromMeans(front[..n], all);
      assert front == front[..n] + [front[n]];
    }
  }

  lemma {:induction false} CombinationsFromCount(front: seq<Point>, all: seq<Point>)
    requires Seqs.Distinct(all) && forall i :: 0 <= i < |front| ==> front[i] in all
    ensures |CombinationsFrom(front, all)| == |front| * (|all| - 1)
    decreases |front|
  {
    if |front| > 0 {
      var n := |front| - 1;
      var w := |all| - 1;
      var earlier := CombinationsFrom(front[..n], all);
      var partners := Partners(front[n], all);
      assert forall i :: 0 <= i < n ==> front[..n][i] == front[i];
      CombinationsFromCount(front[..n], all);
      PartnersCount(front[n], all);
      assert |earlier| == n * w && |partners| == w;
      assert CombinationsFrom(front, all) == earlier + partners;
      MulSucc(n, w);
    }
  }

  /** A location of a list without repeats has one partner per other
      location. */
  lemma PartnersCount(a: Point, all: seq<Point>)
    requires Seqs.Distinct(all) && a in all
    ensures |Partners(a, all)| == |all| - 1
  {
    Seqs.DistinctOnce(all, a);
    PartnersLength(a, all);
  }

  /** `a` is paired with every location but its own copies. */
  lemma {:induction false} PartnersLength(a: Point, all: seq<Point>)
    ensures |Partners(a, all)| == |all| - multiset(all)[a]
    decreases |all|
  {
    if |all| > 0 {
      var n := |all| - 1;
      assert all == all[..n] + [all[n]];
      PartnersLength(a, all[..n]);
    }
  }

  lemma MulSucc(n: int, w: int)
    ensures n * w + w == (n + 1) * w
  {
  }

  /** The pairs are exactly the ordered pairs of different locations, so
      (a, b) comes with (b, a); from n different locations there are
      n * (n - 1) of them. */
  lemma CombinationsMeans(locations: seq<Point>)
    ensures forall a, b :: (a, b) in Combinations(locations) <==> a in locations && b in locations && a != b
    ensures Seqs.Distinct(locations) ==> |Combinations(locations)| == |locations| * (|locations| - 1)
  {
    CombinationsFromMeans(locations, locations);
    if Seqs.Distinct(locations) {
      assert forall i :: 0 <= i < |locations| ==> locations[i] in locations;
      CombinationsFromCount(locations, locations);
    }
  }

  /** The antinode of a beyond b's partner: a reflected away from b. */
  function Mirror(a: Point, b: Point): Point {
    (2 * a.0 - b.0, 2 * a.1 - b.1)
  }

  /** The `filter_map` of `antinodes_for`: the reflections whose
      coordinates both convert to `usize`. */
  function MirrorsOf(pairs: seq<(Point, Point)>): (r: seq<Point>)
    ensures forall p :: p in r <==> p.0 >= 0 && p.1 >= 0 && exists k :: 0 <= k < |pairs| && Mirror(pairs[k].0, pairs[k].1) == p
  {
    if |pairs| == 0 then []
    else
      var n := |pairs| - 1;
      var front := MirrorsOf(pairs[..n]);
      assert forall k :: 0 <= k < n ==> pairs[..n][k] == pairs[k];
      var p := Mirror(pairs[n].0, pairs[n].1);
      if p.0 >= 0 && p.1 >= 0 then front + [p] else front
  }

  /** `antinodes_for`. */
  function AntinodesFor(locations: seq<Point>): seq<Point> {
    MirrorsOf(Combinations(locations))
  }

  /** An antinode of part 1 is a reflection 2a - b of one antenna a of
      the frequency across another b, with no negative coordinate; every
      such reflection is one. */
  lemma AntinodesForMeans(locations: seq<Point>, p: Point)
    ensures p in AntinodesFor(locations) <==>
      p.0 >= 0 && p.1 >= 0 && exists a, b :: a in locations && b in locations && a != b && Mirror(a, b) == p
  {
    var pairs := Combinations(locations);
    CombinationsMeans(locations);
    if p in AntinodesFor(locations) {
      var k :| 0 <= k < |pairs| && Mirror(pairs[k].0, pairs[k].1) == p;
      assert pairs[k] in pairs;
    }
    if p.0 >= 0 && p.1 >= 0 && exists a, b :: a in locations && b in locations && a != b && Mirror(a, b) == p {
      var a, b :| a in locations && b in locations && a != b && Mirror(a, b) == p;
      assert (a, b) in pairs;
      var k :| 0 <= k < |pairs| && pairs[k] == (a, b);
    }
  }

  predicate Inside(bounds: (nat, nat), p: Point) {
    0 <= p.0 < bounds.0 && 0 <= p.1 < bounds.1
  }

  /** The point n steps of d from p. */
  function Steps(p: Point, d: Point, n: nat): Point {
    (p.0 + n * d.0, p.1 + n * d.1)
  }

  /** How far p can still go in direction d before it leaves the bounds. */
  function Room(p: Point, d: Point, bounds: (nat, nat)): int {
    if d.0 > 0 then bounds.0 - p.0
    else if d.0 < 0 then p.0 + 1
    else if d.1 > 0 then bounds.1 - p.1
    else p.1 + 1
  }

  /** One step of d from p. */
  function Next(p: Point, d: Point): Point {
    (p.0 + d.0, p.1 + d.1)
  }

  /** The inner loop of `repeated_antinodes_for`: p, p + d, p + 2d, ...
      while inside the bounds. */
  function Line(p: Point, d: Point, bounds: (nat, nat)): seq<Point>
    requires d != (0, 0)
    decreases Room(p, d, bounds)
  {
    if !Inside(bounds, p) then []
    else [p] + Line(Next(p, d), d, bounds)
  }

  /** Inside the bounds between two inside points of a line. */
  lemma Between(x: int, dx: int, n: nat, bound: int)
    requires n >= 1 && 0 <= x < bound && 0 <= x + n * dx < bound
    ensures 0 <= x + dx < bound
  {
    assert n * dx == dx + (n - 1) * dx;
    if dx >= 0 {
      assert (n - 1) * dx >= 0;
    } else {
      assert (n - 1) * dx <= 0;
    }
  }

  /** n + 1 steps from p are n steps from the point after p. */
  lemma StepsNext(p: Point, d: Point, n: nat)
    ensures Steps(p, d, n + 1) == Steps(Next(p, d), d, n)
  {
    assert (n + 1) * d.0 == n * d.0 + d.0 && (n + 1) * d.1 == n * d.1 + d.1;
  }

  /** Every point of the line is a whole number of steps from its start. */
  lemma {:induction false} LineOnly(p: Point, d: Point, bounds: (nat, nat), q: Point)
    requires d != (0, 0) && q in Line(p, d, bounds)
    ensures Inside(bounds, p) && Inside(bounds, q)
    ensures exists n: nat :: Steps(p, d, n) == q
    decreases Room(p, d, bounds)
  {
    var next := Next(p, d);
    if q == p {
      assert Steps(p, d, 0) == q;
    } else {
      LineOnly(next, d, bounds, q);
      var n: nat :| Steps(next, d, n) == q;
      StepsNext(p, d, n);
    }
  }

  /** Every point inside the bounds a whole number of steps from an inside
      start is on the line. */
  lemma {:induction false} LineIncludes(p: Point, d: Point, bounds: (nat, nat), n: nat)
    requires d != (0, 0) && Inside(bounds, p) && Inside(bounds, Steps(p, d, n))
    ensures Steps(p, d, n) in Line(p, d, bounds)
    decreases n
  {
    var next := Next(p, d);
    if n > 0 {
      StepsNext(p, d, n - 1);
      Between(p.0, d.0, n, bounds.0);
      Between(p.1, d.1, n, bounds.1);
      LineIncludes(next, d, bounds, n - 1);
    }
  }

  /** The line from p holds exactly the points a whole number of steps
      from p that are inside the bounds, provided p itself is. */
  lemma LineMeans(p: Point, d: Point, bounds: (nat, nat), q: Point)
    requires d != (0, 0)
    ensures q in Line(p, d, bounds) <==> Inside(bounds, p) && Inside(bounds, q) && exists n: nat :: Steps(p, d, n) == q
  {
    if q in Line(p, d, bounds) {
      LineOnly(p, d, bounds, q);
    }
    if Inside(bounds, p) && Inside(bounds, q) && exists n: nat :: Steps(p, d, n) == q {
      var n: nat :| Steps(p, d, n) == q;
      LineIncludes(p, d, bounds, n);
    }
  }

  /** The step from the second antenna of a pair to the first. */
  function Away(pair: (Point, Point)): Point {
    (pair.0.0 - pair.1.0, pair.0.1 - pair.1.1)
  }

  /** The resonant lines of all pairs: from a away from b. */
  function LinesOf(pairs: seq<(Point, Point)>, bounds: (nat, nat)): seq<Point>
    requires forall k :: 0 <= k < |pairs| ==> pairs[k].0 != pairs[k].1
  {
    if |pairs| == 0 then []
    else
      var n := |pairs| - 1;
      LinesOf(pairs[..n], bounds) + Line(pairs[n].0, Away(pairs[n]), bounds)
  }

  lemma CombinationsDifferent(locations: seq<Point>)
    ensures forall k :: 0 <= k < |Combinations(locations)| ==> Combinations(locations)[k].0 != Combinations(locations)[k].1
  {
    CombinationsMeans(locations);
    var pairs := Combinations(locations);
    forall k | 0 <= k < |pairs|
      ensures pairs[k].0 != pairs[k].1
    {
      assert (pairs[k].0, pairs[k].1) in pairs;
    }
  }

  /** `repeated_antinodes_for` as a value. */
  function RepeatedFor(locations: seq<Point>, bounds: (nat, nat)): seq<Point> {
    CombinationsDifferent(locations);
    LinesOf(Combinations(locations), bounds)
  }

  /** One more point on a line inside the bounds. */
  lemma LineUnfold(p: Point, d: Point, bounds: (nat, nat))
    requires d != (0, 0)
    ensures Line(p, d, bounds) == if Inside(bounds, p) then [p] + Line(Next(p, d), d, bounds) else []
  {
  }

  /** `repeated_antinodes_for`: for every pair, step n = 0, 1, ... from the
      first antenna away from the second while inside the bounds. */
  method RepeatedAntinodesFor(locations: seq<Point>, bounds: (nat, nat)) returns (antinodes: seq<Point>)
    ensures antinodes == RepeatedFor(locations, bounds)
  {
    var pairs := Combinations(locations);
    CombinationsDifferent(locations);
    antinodes := [];
    for k := 0 to |pairs|
      invariant antinodes == LinesOf(pairs[..k], bounds)
    {
      var (antenna, other) := pairs[k];
      assert pairs[..k + 1][..k] == pairs[..k];
      antinodes := WalkLine(antinodes, antenna, other, bounds);
    }
    assert pairs[..|pairs|] == pairs;
  }

  method WalkLine(start: seq<Point>, antenna: Point, other: Point, bounds: (nat, nat)) returns (antinodes: seq<Point>)
    requires antenna != other
    ensures antinodes == start + Line(antenna, Away((antenna, other)), bounds)
  {
      antinodes := start;
      ghost var d := Away((antenna, other));
      ghost var here := antenna;
      var n := 0;
      while true
        invariant here == Steps(antenna, d, n)
        invariant antinodes + Line(here, d, bounds) == start + Line(antenna, d, bounds)
        decreases Room(here, d, bounds)
      {
        var x := antenna.0 + (antenna.0 - other.0) * n;
        var y := antenna.1 + (antenna.1 - other.1) * n;
        assert (x, y) == here by {
          assert (antenna.0 - other.0) * n == n * d.0 && (antenna.1 - other.1) * n == n * d.1;
        }
        LineUnfold(here, d, bounds);
        if x < 0 || y < 0 || x >= bounds.0 || y >= bounds.1 {
          break;
        }
        StepsNext(antenna, d, n);
        ghost var next := Next(here, d);
        assert antinodes + [(x, y)] + Line(next, d, bounds) == antinodes + ([here] + Line(next, d, bounds));
        antinodes := antinodes + [(x, y)];
        here := next;
        n := n + 1;
      }
  }

  /** q is a whole number of steps from the first antenna of some pair,
      away from the second, and that antenna is inside the bounds. */
  ghost predicate OnSomeLine(pairs: seq<(Point, Point)>, bounds: (nat, nat), q: Point) {
    exists k, n: nat :: 0 <= k < |pairs| && Inside(bounds, pairs[k].0) && Steps(pairs[k].0, Away(pairs[k]), n) == q
  }

  lemma {:induction false} LinesOfOnly(pairs: seq<(Point, Point)>, bounds: (nat, nat), q: Point)
    requires forall k :: 0 <= k < |pairs| ==> pairs[k].0 != pairs[k].1
    requires q in LinesOf(pairs, bounds)
    ensures Inside(bounds, q) && OnSomeLine(pairs, bounds, q)
    decreases |pairs|
  {
    var m := |pairs| - 1;
    assert forall k :: 0 <= k < m ==> pairs[..m][k] == pairs[k];
    if q in Line(pairs[m].0, Away(pairs[m]), bounds) {
      LineOnly(pairs[m].0, Away(pairs[m]), bounds, q);
      var n: nat :| Steps(pairs[m].0, Away(pairs[m]), n) == q;
    } else {
      LinesOfOnly(pairs[..m], bounds, q);
      var k, n: nat :| 0 <= k < m && Inside(bounds, pairs[..m][k].0) && Steps(pairs[..m][k].0, Away(pairs[..m][k]), n) == q;
    }
  }

  lemma {:induction false} LinesOfIncludes(pairs: seq<(Point, Point)>, bounds: (nat, nat), k: nat, n: nat)
    requires forall k :: 0 <= k < |pairs| ==> pairs[k].0 != pairs[k].1
    requires k < |pairs| && Inside(bounds, pairs[k].0) && Inside(bounds, Steps(pairs[k].0, Away(pairs[k]), n))
    ensures Steps(pairs[k].0, Away(pairs[k]), n) in LinesOf(pairs, bounds)
    decreases |pairs|
  {
    var m := |pairs| - 1;
    if k == m {
      LineIncludes(pairs[m].0, Away(pairs[m]), bounds, n);
    } else {
      assert pairs[..m][k] == pairs[k];
      LinesOfIncludes(pairs[..m], bounds, k, n);
    }
  }

  /** A part 2 antinode lies inside the bounds on the line through two
      antennas of the frequency, a whole number of steps of their distance
      from the first; every such point is one, provided that antenna is
      inside the bounds. */
  lemma LinesOfMeans(pairs: seq<(Point, Point)>, bounds: (nat, nat), q: Point)
    requires forall k :: 0 <= k < |pairs| ==> pairs[k].0 != pairs[k].1
    ensures q in LinesOf(pairs, bounds) <==> Inside(bounds, q) && OnSomeLine(pairs, bounds, q)
  {
    if q in LinesOf(pairs, bounds) {
      LinesOfOnly(pairs, bounds, q);
    }
    if Inside(bounds, q) && OnSomeLine(pairs, bounds, q) {
      var k, n: nat :| 0 <= k < |pairs| && Inside(bounds, pairs[k].0) && Steps(pairs[k].0, Away(pairs[k]), n) == q;
      LinesOfIncludes(pairs, bounds, k, n);
    }
  }

  /** The antinodes of one frequency's antennas. */
  function FrequencyAntinodes(m: AntennaMap, c: char, repeatable: bool): seq<Point>
    requires c in m.antennas
  {
    if repeatable then RepeatedFor(m.antennas[c], m.bounds) else AntinodesFor(m.antennas[c])
  }

  /** `antinodes`, over the frequencies in any order (the source's
      `HashMap` order is unspecified; only the set of them is used). */
  function Antinodes(m: AntennaMap, repeatable: bool): set<Point> {
    set c, p | c in m.antennas && p in FrequencyAntinodes(m, c, repeatable) :: p
  }

  /** `placeable_antinodes`: the antinodes on a cell of the map. */
  function Placeable(m: AntennaMap, repeatable: bool): (r: set<Point>)
    ensures forall p :: p in r ==> InBounds(m.points, p)
  {
    set p | p in Antinodes(m, repeatable) && At(m.points, p).Some?
  }

  /** p reflects one antenna across another of the same frequency. */
  ghost predicate IsReflection(m: AntennaMap, p: Point) {
    exists c, a, b :: c in m.antennas && a in m.antennas[c] && b in m.antennas[c] && a != b && Mirror(a, b) == p
  }

  /** Part 1's antinodes on the map are exactly the reflections of one
      antenna across another of the same frequency that land on the map. */
  lemma PlaceableMeans(m: AntennaMap, p: Point)
    ensures p in Placeable(m, false) <==> InBounds(m.points, p) && IsReflection(m, p)
  {
    if p in Placeable(m, false) {
      var c :| c in m.antennas && p in FrequencyAntinodes(m, c, false);
      AntinodesForMeans(m.antennas[c], p);
    }
    if InBounds(m.points, p) && IsReflection(m, p) {
      var c, a, b :| c in m.antennas && a in m.antennas[c] && b in m.antennas[c] && a != b && Mirror(a, b) == p;
      AntinodesForMeans(m.antennas[c], p);
      assert p in FrequencyAntinodes(m, c, false);
    }
  }

  /** In part 2 every antenna that shares its frequency with another one
      inside the bounds is itself an antinode (the step n = 0). */
  lemma AntennasAreAntinodes(m: AntennaMap, c: char, a: Point, b: Point)
    requires c in m.antennas && a in m.antennas[c] && b in m.antennas[c] && a != b
    requires Inside(m.bounds, a) && InBounds(m.points, a)
    ensures a in Placeable(m, true)
  {
    AntennaOnItsLine(m.antennas[c], m.bounds, a, b);
    assert a in FrequencyAntinodes(m, c, true);
    assert a in Antinodes(m, true);
  }

  /** The step n = 0 of the line from a away from b. */
  lemma AntennaOnItsLine(locations: seq<Point>, bounds: (nat, nat), a: Point, b: Point)
    requires a in locations && b in locations && a != b && Inside(bounds, a)
    ensures a in RepeatedFor(locations, bounds)
  {
    var pairs := Combinations(locations);
    CombinationsMeans(locations);
    CombinationsDifferent(locations);
    assert (a, b) in pairs;
    var k :| 0 <= k < |pairs| && pairs[k] == (a, b);
    assert Steps(a, Away(pairs[k]), 0) == a;
    LinesOfIncludes(pairs, bounds, k, 0);
  }

  /** Part 1 and part 2 count the placeable antinodes; a rectangular map
      holds no more of them than it has cells. */
  function Part(input: string, repeatable: bool): (r: Option<nat>)
    ensures r.Some? <==> ParseMap(input).Some?
  {
    match ParseMap(input)
    case None => None
    case Some(m) => Some(|Placeable(m, repeatable)|)
  }

  lemma PartBounds(input: string, repeatable: bool)
    requires ParseMap(input).Some? && Rectangular(ParseMap(input).value.points)
    ensures Part(input, repeatable).value <= |ParseMap(input).value.points| * Width(ParseMap(input).value.points)
  {
    var m := ParseMap(input).value;
    InBoundsCount(m.points, Placeable(m, repeatable));
  }
}
