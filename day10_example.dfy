/** The worked example of day 10, "Hoof It": the map of the tests of
    `day10-hoof-it`, its nine trailheads, the score of the first and the
    map's score and rating, from the example's text.  The lemmas about
    the map are stated for any grid holding the example's heights
    (`ExampleMap`), so that the verifier works from those heights one
    cell at a time instead of evaluating the recursion on a literal grid;
    `ParseExample` shows that the parsed text is such a grid. */
module HoofItExample {
  import opened Wrappers
  import opened Grid
  import opened HoofIt
  import Text

  /** The lines of the tests' `EXAMPLE`. */
  const ExampleLines: seq<string> := ["89010123", "78121874", "87430965", "96549874", "45678903", "32019012", "01329801", "10456732"]

  /** The tests' `EXAMPLE`: its lines joined with line feeds, with none
      after the last. */
  const ExampleText: string := Text.Join(ExampleLines, "\n")

  /** The heights of `ExampleLines`. */
  const ExampleGrid: seq<seq<Height>> := [[8, 9, 0, 1, 0, 1, 2, 3], [7, 8, 1, 2, 1, 8, 7, 4], [8, 7, 4, 3, 0, 9, 6, 5], [9, 6, 5, 4, 9, 8, 7, 4], [4, 5, 6, 7, 8, 9, 0, 3], [3, 2, 0, 1, 9, 0, 1, 2], [0, 1, 3, 2, 9, 8, 0, 1], [1, 0, 4, 5, 6, 7, 3, 2]]

  /** g holds the heights of the example map. */
  predicate ExampleMap(g: seq<seq<Height>>) {
    |g| == 8 && (forall i :: 0 <= i < 8 ==> |g[i]| == 8) &&
    g[0][0] == 8 && g[0][1] == 9 && g[0][2] == 0 && g[0][3] == 1 && g[0][4] == 0 && g[0][5] == 1 && g[0][6] == 2 && g[0][7] == 3 &&
    g[1][0] == 7 && g[1][1] == 8 && g[1][2] == 1 && g[1][3] == 2 && g[1][4] == 1 && g[1][5] == 8 && g[1][6] == 7 && g[1][7] == 4 &&
    g[2][0] == 8 && g[2][1] == 7 && g[2][2] == 4 && g[2][3] == 3 && g[2][4] == 0 && g[2][5] == 9 && g[2][6] == 6 && g[2][7] == 5 &&
    g[3][0] == 9 && g[3][1] == 6 && g[3][2] == 5 && g[3][3] == 4 && g[3][4] == 9 && g[3][5] == 8 && g[3][6] == 7 && g[3][7] == 4 &&
    g[4][0] == 4 && g[4][1] == 5 && g[4][2] == 6 && g[4][3] == 7 && g[4][4] == 8 && g[4][5] == 9 && g[4][6] == 0 && g[4][7] == 3 &&
    g[5][0] == 3 && g[5][1] == 2 && g[5][2] == 0 && g[5][3] == 1 && g[5][4] == 9 && g[5][5] == 0 && g[5][6] == 1 && g[5][7] == 2 &&
    g[6][0] == 0 && g[6][1] == 1 && g[6][2] == 3 && g[6][3] == 2 && g[6][4] == 9 && g[6][5] == 8 && g[6][6] == 0 && g[6][7] == 1 &&
    g[7][0] == 1 && g[7][1] == 0 && g[7][2] == 4 && g[7][3] == 5 && g[7][4] == 6 && g[7][5] == 7 && g[7][6] == 3 && g[7][7] == 2
  }


  /** The 9s of the example map. */
  const Nines: set<Point> := {(0, 1), (2, 5), (3, 0), (3, 4), (4, 5), (5, 4), (6, 4)}

  /** Every 9 of the example map is one of `Nines`. */
  lemma NineAt(g: seq<seq<Height>>, q: Point)
    requires ExampleMap(g) && InBounds(g, q) && g[q.0][q.1] == 9
    ensures q in Nines
  {
    assert q.0 == 0 || q.0 == 1 || q.0 == 2 || q.0 == 3 || q.0 == 4 || q.0 == 5 || q.0 == 6 || q.0 == 7;
    assert q.1 == 0 || q.1 == 1 || q.1 == 2 || q.1 == 3 || q.1 == 4 || q.1 == 5 || q.1 == 6 || q.1 == 7;
  }

  /** A step in direction k onto a height one higher, below 9, continues
      with the reachable ends of the point stepped onto. */
  lemma ClimbOnto(g: seq<seq<Height>>, p: Point, k: nat, q: Point)
    requires InBounds(g, p) && k < 4 && q == MovePointBy(p, Directions[k].0, Directions[k].1)
    requires InBounds(g, q) && g[q.0][q.1] as int == g[p.0][p.1] as int + 1 && g[q.0][q.1] < 9
    ensures Climb(g, p, Directions[k]) == ReachableEnds(g, q)
  {
  }

  /** A step in direction k onto a 9 one higher ends there. */
  lemma ClimbTop(g: seq<seq<Height>>, p: Point, k: nat, q: Point)
    requires InBounds(g, p) && k < 4 && q == MovePointBy(p, Directions[k].0, Directions[k].1)
    requires InBounds(g, q) && g[p.0][p.1] == 8 && g[q.0][q.1] == 9
    ensures Climb(g, p, Directions[k]) == [q]
  {
  }

  /** A step in direction k off the map contributes nothing. */
  lemma ClimbOff(g: seq<seq<Height>>, p: Point, k: nat, q: Point)
    requires InBounds(g, p) && k < 4 && q == MovePointBy(p, Directions[k].0, Directions[k].1)
    requires !InBounds(g, q)
    ensures Climb(g, p, Directions[k]) == []
  {
  }

  /** A step in direction k onto a height that is not one higher
      contributes nothing. */
  lemma ClimbLevel(g: seq<seq<Height>>, p: Point, k: nat, q: Point)
    requires InBounds(g, p) && k < 4 && q == MovePointBy(p, Directions[k].0, Directions[k].1)
    requires InBounds(g, q) && g[q.0][q.1] as int != g[p.0][p.1] as int + 1
    ensures Climb(g, p, Directions[k]) == []
  {
  }

  /** The reachable ends of p from what each of the four directions
      contributes. */
  lemma Combine(g: seq<seq<Height>>, p: Point, a: seq<Point>, b: seq<Point>, c: seq<Point>, d: seq<Point>)
    requires InBounds(g, p)
    requires Climb(g, p, Directions[0]) == a && Climb(g, p, Directions[1]) == b
    requires Climb(g, p, Directions[2]) == c && Climb(g, p, Directions[3]) == d
    ensures ReachableEnds(g, p) == a + b + c + d
  {
  }

  /** The score of p is the size of S when S holds exactly the 9s of the
      map that p reaches. */
  lemma ScoreOf(g: seq<seq<Height>>, p: Point, S: set<Point>)
    requires ExampleMap(g) && InBounds(g, p)
    requires forall t :: t in S ==> t in ReachableEnds(g, p)
    requires forall t :: t in Nines && t !in S ==> t !in ReachableEnds(g, p)
    ensures TrailScore(g, p) == |S|
  {
    forall q | q in ReachableEnds(g, p)
      ensures q in S
    {
      ReachableEndsAreTops(g, p, q);
      NineAt(g, q);
    }
    assert (set q | q in ReachableEnds(g, p)) == S;
  }

  /** From (1, 1), at height 8. */
  lemma EndsAt11(g: seq<seq<Height>>)
    requires ExampleMap(g)
    ensures |ReachableEnds(g, (1, 1))| == 1
    ensures (0, 1) in ReachableEnds(g, (1, 1))
    ensures (2, 5) !in ReachableEnds(g, (1, 1))
    ensures (3, 0) !in ReachableEnds(g, (1, 1))
    ensures (3, 4) !in ReachableEnds(g, (1, 1))
    ensures (4, 5) !in ReachableEnds(g, (1, 1))
    ensures (5, 4) !in ReachableEnds(g, (1, 1))
    ensures (6, 4) !in ReachableEnds(g, (1, 1))
  {
    var none: seq<Point> := [];
    ClimbLevel(g, (1, 1), 0, (1, 2));
    ClimbLevel(g, (1, 1), 1, (2, 1));
    ClimbLevel(g, (1, 1), 2, (1, 0));
    ClimbTop(g, (1, 1), 3, (0, 1));
    Combine(g, (1, 1), none, none, none, [(0, 1)]);
  }

  /** From (1, 5), at height 8. */
  lemma EndsAt15(g: seq<seq<Height>>)
    requires ExampleMap(g)
    ensures |ReachableEnds(g, (1, 5))| == 1
    ensures (0, 1) !in ReachableEnds(g, (1, 5))
    ensures (2, 5) in ReachableEnds(g, (1, 5))
    ensures (3, 0) !in ReachableEnds(g, (1, 5))
    ensures (3, 4) !in ReachableEnds(g, (1, 5))
    ensures (4, 5) !in ReachableEnds(g, (1, 5))
    ensures (5, 4) !in ReachableEnds(g, (1, 5))
    ensures (6, 4) !in ReachableEnds(g, (1, 5))
  {
    var none: seq<Point> := [];
    ClimbLevel(g, (1, 5), 0, (1, 6));
    ClimbLevel(g, (1, 5), 2, (1, 4));
    ClimbLevel(g, (1, 5), 3, (0, 5));
    ClimbTop(g, (1, 5), 1, (2, 5));
    Combine(g, (1, 5), none, [(2, 5)], none, none);
  }

  /** From (2, 0), at height 8. */
  lemma EndsAt20(g: seq<seq<Height>>)
    requires ExampleMap(g)
    ensures |ReachableEnds(g, (2, 0))| == 1
    ensures (0, 1) !in ReachableEnds(g, (2, 0))
    ensures (2, 5) !in ReachableEnds(g, (2, 0))
    ensures (3, 0) in ReachableEnds(g, (2, 0))
    ensures (3, 4) !in ReachableEnds(g, (2, 0))
    ensures (4, 5) !in ReachableEnds(g, (2, 0))
    ensures (5, 4) !in ReachableEnds(g, (2, 0))
    ensures (6, 4) !in ReachableEnds(g, (2, 0))
  {
    var none: seq<Point> := [];
    ClimbLevel(g, (2, 0), 0, (2, 1));
    ClimbOff(g, (2, 0), 2, (2, -1));
    ClimbLevel(g, (2, 0), 3, (1, 0));
    ClimbTop(g, (2, 0), 1, (3, 0));
    Combine(g, (2, 0), none, [(3, 0)], none, none);
  }

  /** From (3, 5), at height 8. */
  lemma EndsAt35(g: seq<seq<Height>>)
    requires ExampleMap(g)
    ensures |ReachableEnds(g, (3, 5))| == 3
    ensures (0, 1) !in ReachableEnds(g, (3, 5))
    ensures (2, 5) in ReachableEnds(g, (3, 5))
    ensures (3, 0) !in ReachableEnds(g, (3, 5))
    ensures (3, 4) in ReachableEnds(g, (3, 5))
    ensures (4, 5) in ReachableEnds(g, (3, 5))
    ensures (5, 4) !in ReachableEnds(g, (3, 5))
    ensures (6, 4) !in ReachableEnds(g, (3, 5))
  {
    var none: seq<Point> := [];
    ClimbLevel(g, (3, 5), 0, (3, 6));
    ClimbTop(g, (3, 5), 1, (4, 5));
    ClimbTop(g, (3, 5), 2, (3, 4));
    ClimbTop(g, (3, 5), 3, (2, 5));
    Combine(g, (3, 5), none, [(4, 5)], [(3, 4)], [(2, 5)]);
  }

  /** From (4, 4), at height 8. */
  lemma EndsAt44(g: seq<seq<Height>>)
    requires ExampleMap(g)
    ensures |ReachableEnds(g, (4, 4))| == 3
    ensures (0, 1) !in ReachableEnds(g, (4, 4))
    ensures (2, 5) !in ReachableEnds(g, (4, 4))
    ensures (3, 0) !in ReachableEnds(g, (4, 4))
    ensures (3, 4) in ReachableEnds(g, (4, 4))
    ensures (4, 5) in ReachableEnds(g, (4, 4))
    ensures (5, 4) in ReachableEnds(g, (4, 4))
    ensures (6, 4) !in ReachableEnds(g, (4, 4))
  {
    var none: seq<Point> := [];
    ClimbLevel(g, (4, 4), 2, (4, 3));
    ClimbTop(g, (4, 4), 0, (4, 5));
    ClimbTop(g, (4, 4), 1, (5, 4));
    ClimbTop(g, (4, 4), 3, (3, 4));
    Combine(g, (4, 4), [(4, 5)], [(5, 4)], none, [(3, 4)]);
  }

  /** From (6, 5), at height 8. */
  lemma EndsAt65(g: seq<seq<Height>>)
    requires ExampleMap(g)
    ensures |ReachableEnds(g, (6, 5))| == 1
    ensures (0, 1) !in ReachableEnds(g, (6, 5))
    ensures (2, 5) !in ReachableEnds(g, (6, 5))
    ensures (3, 0) !in ReachableEnds(g, (6, 5))
    ensures (3, 4) !in ReachableEnds(g, (6, 5))
    ensures (4, 5) !in ReachableEnds(g, (6, 5))
    ensures (5, 4) !in ReachableEnds(g, (6, 5))
    ensures (6, 4) in ReachableEnds(g, (6, 5))
  {
    var none: seq<Point> := [];
    ClimbLevel(g, (6, 5), 0, (6, 6));
    ClimbLevel(g, (6, 5), 1, (7, 5));
    ClimbLevel(g, (6, 5), 3, (5, 5));
    ClimbTop(g, (6, 5), 2, (6, 4));
    Combine(g, (6, 5), none, none, [(6, 4)], none);
  }

  /** From (1, 6), at height 7. */
  lemma EndsAt16(g: seq<seq<Height>>)
    requires ExampleMap(g)
    ensures |ReachableEnds(g, (1, 6))| == 1
    ensures (0, 1) !in ReachableEnds(g, (1, 6))
    ensures (2, 5) in ReachableEnds(g, (1, 6))
    ensures (3, 0) !in ReachableEnds(g, (1, 6))
    ensures (3, 4) !in ReachableEnds(g, (1, 6))
    ensures (4, 5) !in ReachableEnds(g, (1, 6))
    ensures (5, 4) !in ReachableEnds(g, (1, 6))
    ensures (6, 4) !in ReachableEnds(g, (1, 6))
  {
    var none: seq<Point> := [];
    ClimbLevel(g, (1, 6), 0, (1, 7));
    ClimbLevel(g, (1, 6), 1, (2, 6));
    ClimbLevel(g, (1, 6), 3, (0, 6));
    ClimbOnto(g, (1, 6), 2, (1, 5));
    Combine(g, (1, 6), none, none, ReachableEnds(g, (1, 5)), none);
    EndsAt15(g);
  }

  /** From (2, 1), at height 7. */
  lemma EndsAt21(g: seq<seq<Height>>)
    requires ExampleMap(g)
    ensures |ReachableEnds(g, (2, 1))| == 2
    ensures (0, 1) in ReachableEnds(g, (2, 1))
    ensures (2, 5) !in ReachableEnds(g, (2, 1))
    ensures (3, 0) in ReachableEnds(g, (2, 1))
    ensures (3, 4) !in ReachableEnds(g, (2, 1))
    ensures (4, 5) !in ReachableEnds(g, (2, 1))
    ensures (5, 4) !in ReachableEnds(g, (2, 1))
    ensures (6, 4) !in ReachableEnds(g, (2, 1))
  {
    var none: seq<Point> := [];
    ClimbLevel(g, (2, 1), 0, (2, 2));
    ClimbLevel(g, (2, 1), 1, (3, 1));
    ClimbOnto(g, (2, 1), 2, (2, 0));
    ClimbOnto(g, (2, 1), 3, (1, 1));
    Combine(g, (2, 1), none, none, ReachableEnds(g, (2, 0)), ReachableEnds(g, (1, 1)));
    EndsAt20(g);
    EndsAt11(g);
  }

  /** From (3, 6), at height 7. */
  lemma EndsAt36(g: seq<seq<Height>>)
    requires ExampleMap(g)
    ensures |ReachableEnds(g, (3, 6))| == 3
    ensures (0, 1) !in ReachableEnds(g, (3, 6))
    ensures (2, 5) in ReachableEnds(g, (3, 6))
    ensures (3, 0) !in ReachableEnds(g, (3, 6))
    ensures (3, 4) in ReachableEnds(g, (3, 6))
    ensures (4, 5) in ReachableEnds(g, (3, 6))
    ensures (5, 4) !in ReachableEnds(g, (3, 6))
    ensures (6, 4) !in ReachableEnds(g, (3, 6))
  {
    var none: seq<Point> := [];
    ClimbLevel(g, (3, 6), 0, (3, 7));
    ClimbLevel(g, (3, 6), 1, (4, 6));
    ClimbLevel(g, (3, 6), 3, (2, 6));
    ClimbOnto(g, (3, 6), 2, (3, 5));
    Combine(g, (3, 6), none, none, ReachableEnds(g, (3, 5)), none);
    EndsAt35(g);
  }

  /** From (4, 3), at height 7. */
  lemma EndsAt43(g: seq<seq<Height>>)
    requires ExampleMap(g)
    ensures |ReachableEnds(g, (4, 3))| == 3
    ensures (0, 1) !in ReachableEnds(g, (4, 3))
    ensures (2, 5) !in ReachableEnds(g, (4, 3))
    ensures (3, 0) !in ReachableEnds(g, (4, 3))
    ensures (3, 4) in ReachableEnds(g, (4, 3))
    ensures (4, 5) in ReachableEnds(g, (4, 3))
    ensures (5, 4) in ReachableEnds(g, (4, 3))
    ensures (6, 4) !in ReachableEnds(g, (4, 3))
  {
    var none: seq<Point> := [];
    ClimbLevel(g, (4, 3), 1, (5, 3));
    ClimbLevel(g, (4, 3), 2, (4, 2));
    ClimbLevel(g, (4, 3), 3, (3, 3));
    ClimbOnto(g, (4, 3), 0, (4, 4));
    Combine(g, (4, 3), ReachableEnds(g, (4, 4)), none, none, none);
    EndsAt44(g);
  }

  /** From (7, 5), at height 7. */
  lemma EndsAt75(g: seq<seq<Height>>)
    requires ExampleMap(g)
    ensures |ReachableEnds(g, (7, 5))| == 1
    ensures (0, 1) !in ReachableEnds(g, (7, 5))
    ensures (2, 5) !in ReachableEnds(g, (7, 5))
    ensures (3, 0) !in ReachableEnds(g, (7, 5))
    ensures (3, 4) !in ReachableEnds(g, (7, 5))
    ensures (4, 5) !in ReachableEnds(g, (7, 5))
    ensures (5, 4) !in ReachableEnds(g, (7, 5))
    ensures (6, 4) in ReachableEnds(g, (7, 5))
  {
    var none: seq<Point> := [];
    ClimbLevel(g, (7, 5), 0, (7, 6));
    ClimbOff(g, (7, 5), 1, (8, 5));
    ClimbLevel(g, (7, 5), 2, (7, 4));
    ClimbOnto(g, (7, 5), 3, (6, 5));
    Combine(g, (7, 5), none, none, none, ReachableEnds(g, (6, 5)));
    EndsAt65(g);
  }

  /** From (2, 6), at height 6. */
  lemma EndsAt26(g: seq<seq<Height>>)
    requires ExampleMap(g)
    ensures |ReachableEnds(g, (2, 6))| == 4
    ensures (0, 1) !in ReachableEnds(g, (2, 6))
    ensures (2, 5) in ReachableEnds(g, (2, 6))
    ensures (3, 0) !in ReachableEnds(g, (2, 6))
    ensures (3, 4) in ReachableEnds(g, (2, 6))
    ensures (4, 5) in ReachableEnds(g, (2, 6))
    ensures (5, 4) !in ReachableEnds(g, (2, 6))
    ensures (6, 4) !in ReachableEnds(g, (2, 6))
  {
    var none: seq<Point> := [];
    ClimbLevel(g, (2, 6), 0, (2, 7));
    ClimbLevel(g, (2, 6), 2, (2, 5));
    ClimbOnto(g, (2, 6), 1, (3, 6));
    ClimbOnto(g, (2, 6), 3, (1, 6));
    Combine(g, (2, 6), none, ReachableEnds(g, (3, 6)), none, ReachableEnds(g, (1, 6)));
    EndsAt36(g);
    EndsAt16(g);
  }

  /** From (3, 1), at height 6. */
  lemma EndsAt31(g: seq<seq<Height>>)
    requires ExampleMap(g)
    ensures |ReachableEnds(g, (3, 1))| == 2
    ensures (0, 1) in ReachableEnds(g, (3, 1))
    ensures (2, 5) !in ReachableEnds(g, (3, 1))
    ensures (3, 0) in ReachableEnds(g, (3, 1))
    ensures (3, 4) !in ReachableEnds(g, (3, 1))
    ensures (4, 5) !in ReachableEnds(g, (3, 1))
    ensures (5, 4) !in ReachableEnds(g, (3, 1))
    ensures (6, 4) !in ReachableEnds(g, (3, 1))
  {
    var none: seq<Point> := [];
    ClimbLevel(g, (3, 1), 0, (3, 2));
    ClimbLevel(g, (3, 1), 1, (4, 1));
    ClimbLevel(g, (3, 1), 2, (3, 0));
    ClimbOnto(g, (3, 1), 3, (2, 1));
    Combine(g, (3, 1), none, none, none, ReachableEnds(g, (2, 1)));
    EndsAt21(g);
  }

  /** From (4, 2), at height 6. */
  lemma EndsAt42(g: seq<seq<Height>>)
    requires ExampleMap(g)
    ensures |ReachableEnds(g, (4, 2))| == 3
    ensures (0, 1) !in ReachableEnds(g, (4, 2))
    ensures (2, 5) !in ReachableEnds(g, (4, 2))
    ensures (3, 0) !in ReachableEnds(g, (4, 2))
    ensures (3, 4) in ReachableEnds(g, (4, 2))
    ensures (4, 5) in ReachableEnds(g, (4, 2))
    ensures (5, 4) in ReachableEnds(g, (4, 2))
    ensures (6, 4) !in ReachableEnds(g, (4, 2))
  {
    var none: seq<Point> := [];
    ClimbLevel(g, (4, 2), 1, (5, 2));
    ClimbLevel(g, (4, 2), 2, (4, 1));
    ClimbLevel(g, (4, 2), 3, (3, 2));
    ClimbOnto(g, (4, 2), 0, (4, 3));
    Combine(g, (4, 2), ReachableEnds(g, (4, 3)), none, none, none);
    EndsAt43(g);
  }

  /** From (7, 4), at height 6. */
  lemma EndsAt74(g: seq<seq<Height>>)
    requires ExampleMap(g)
    ensures |ReachableEnds(g, (7, 4))| == 1
    ensures (0, 1) !in ReachableEnds(g, (7, 4))
    ensures (2, 5) !in ReachableEnds(g, (7, 4))
    ensures (3, 0) !in ReachableEnds(g, (7, 4))
    ensures (3, 4) !in ReachableEnds(g, (7, 4))
    ensures (4, 5) !in ReachableEnds(g, (7, 4))
    ensures (5, 4) !in ReachableEnds(g, (7, 4))
    ensures (6, 4) in ReachableEnds(g, (7, 4))
  {
    var none: seq<Point> := [];
    ClimbOff(g, (7, 4), 1, (8, 4));
    ClimbLevel(g, (7, 4), 2, (7, 3));
    ClimbLevel(g, (7, 4), 3, (6, 4));
    ClimbOnto(g, (7, 4), 0, (7, 5));
    Combine(g, (7, 4), ReachableEnds(g, (7, 5)), none, none, none);
    EndsAt75(g);
  }

  /** From (2, 7), at height 5. */
  lemma EndsAt27(g: seq<seq<Height>>)
    requires ExampleMap(g)
    ensures |ReachableEnds(g, (2, 7))| == 4
    ensures (0, 1) !in ReachableEnds(g, (2, 7))
    ensures (2, 5) in ReachableEnds(g, (2, 7))
    ensures (3, 0) !in ReachableEnds(g, (2, 7))
    ensures (3, 4) in ReachableEnds(g, (2, 7))
    ensures (4, 5) in ReachableEnds(g, (2, 7))
    ensures (5, 4) !in ReachableEnds(g, (2, 7))
    ensures (6, 4) !in ReachableEnds(g, (2, 7))
  {
    var none: seq<Point> := [];
    ClimbOff(g, (2, 7), 0, (2, 8));
    ClimbLevel(g, (2, 7), 1, (3, 7));
    ClimbLevel(g, (2, 7), 3, (1, 7));
    ClimbOnto(g, (2, 7), 2, (2, 6));
    Combine(g, (2, 7), none, none, ReachableEnds(g, (2, 6)), none);
    EndsAt26(g);
  }

  /** From (3, 2), at height 5. */
  lemma EndsAt32(g: seq<seq<Height>>)
    requires ExampleMap(g)
    ensures |ReachableEnds(g, (3, 2))| == 5
    ensures (0, 1) in ReachableEnds(g, (3, 2))
    ensures (2, 5) !in ReachableEnds(g, (3, 2))
    ensures (3, 0) in ReachableEnds(g, (3, 2))
    ensures (3, 4) in ReachableEnds(g, (3, 2))
    ensures (4, 5) in ReachableEnds(g, (3, 2))
    ensures (5, 4) in ReachableEnds(g, (3, 2))
    ensures (6, 4) !in ReachableEnds(g, (3, 2))
  {
    var none: seq<Point> := [];
    ClimbLevel(g, (3, 2), 0, (3, 3));
    ClimbLevel(g, (3, 2), 3, (2, 2));
    ClimbOnto(g, (3, 2), 1, (4, 2));
    ClimbOnto(g, (3, 2), 2, (3, 1));
    Combine(g, (3, 2), none, ReachableEnds(g, (4, 2)), ReachableEnds(g, (3, 1)), none);
    EndsAt42(g);
    EndsAt31(g);
  }

  /** From (4, 1), at height 5. */
  lemma EndsAt41(g: seq<seq<Height>>)
    requires ExampleMap(g)
    ensures |ReachableEnds(g, (4, 1))| == 5
    ensures (0, 1) in ReachableEnds(g, (4, 1))
    ensures (2, 5) !in ReachableEnds(g, (4, 1))
    ensures (3, 0) in ReachableEnds(g, (4, 1))
    ensures (3, 4) in ReachableEnds(g, (4, 1))
    ensures (4, 5) in ReachableEnds(g, (4, 1))
    ensures (5, 4) in ReachableEnds(g, (4, 1))
    ensures (6, 4) !in ReachableEnds(g, (4, 1))
  {
    var none: seq<Point> := [];
    ClimbLevel(g, (4, 1), 1, (5, 1));
    ClimbLevel(g, (4, 1), 2, (4, 0));
    ClimbOnto(g, (4, 1), 0, (4, 2));
    ClimbOnto(g, (4, 1), 3, (3, 1));
    Combine(g, (4, 1), ReachableEnds(g, (4, 2)), none, none, ReachableEnds(g, (3, 1)));
    EndsAt42(g);
    EndsAt31(g);
  }

  /** From (7, 3), at height 5. */
  lemma EndsAt73(g: seq<seq<Height>>)
    requires ExampleMap(g)
    ensures |ReachableEnds(g, (7, 3))| == 1
    ensures (0, 1) !in ReachableEnds(g, (7, 3))
    ensures (2, 5) !in ReachableEnds(g, (7, 3))
    ensures (3, 0) !in ReachableEnds(g, (7, 3))
    ensures (3, 4) !in ReachableEnds(g, (7, 3))
    ensures (4, 5) !in ReachableEnds(g, (7, 3))
    ensures (5, 4) !in ReachableEnds(g, (7, 3))
    ensures (6, 4) in ReachableEnds(g, (7, 3))
  {
    var none: seq<Point> := [];
    ClimbOff(g, (7, 3), 1, (8, 3));
    ClimbLevel(g, (7, 3), 2, (7, 2));
    ClimbLevel(g, (7, 3), 3, (6, 3));
    ClimbOnto(g, (7, 3), 0, (7, 4));
    Combine(g, (7, 3), ReachableEnds(g, (7, 4)), none, none, none);
    EndsAt74(g);
  }

  /** From (1, 7), at height 4. */
  lemma EndsAt17(g: seq<seq<Height>>)
    requires ExampleMap(g)
    ensures |ReachableEnds(g, (1, 7))| == 4
    ensures (0, 1) !in ReachableEnds(g, (1, 7))
    ensures (2, 5) in ReachableEnds(g, (1, 7))
    ensures (3, 0) !in ReachableEnds(g, (1, 7))
    ensures (3, 4) in ReachableEnds(g, (1, 7))
    ensures (4, 5) in ReachableEnds(g, (1, 7))
    ensures (5, 4) !in ReachableEnds(g, (1, 7))
    ensures (6, 4) !in ReachableEnds(g, (1, 7))
  {
    var none: seq<Point> := [];
    ClimbOff(g, (1, 7), 0, (1, 8));
    ClimbLevel(g, (1, 7), 2, (1, 6));
    ClimbLevel(g, (1, 7), 3, (0, 7));
    ClimbOnto(g, (1, 7), 1, (2, 7));
    Combine(g, (1, 7), none, ReachableEnds(g, (2, 7)), none, none);
    EndsAt27(g);
  }

  /** From (2, 2), at height 4. */
  lemma EndsAt22(g: seq<seq<Height>>)
    requires ExampleMap(g)
    ensures |ReachableEnds(g, (2, 2))| == 5
    ensures (0, 1) in ReachableEnds(g, (2, 2))
    ensures (2, 5) !in ReachableEnds(g, (2, 2))
    ensures (3, 0) in ReachableEnds(g, (2, 2))
    ensures (3, 4) in ReachableEnds(g, (2, 2))
    ensures (4, 5) in ReachableEnds(g, (2, 2))
    ensures (5, 4) in ReachableEnds(g, (2, 2))
    ensures (6, 4) !in ReachableEnds(g, (2, 2))
  {
    var none: seq<Point> := [];
    ClimbLevel(g, (2, 2), 0, (2, 3));
    ClimbLevel(g, (2, 2), 2, (2, 1));
    ClimbLevel(g, (2, 2), 3, (1, 2));
    ClimbOnto(g, (2, 2), 1, (3, 2));
    Combine(g, (2, 2), none, ReachableEnds(g, (3, 2)), none, none);
    EndsAt32(g);
  }

  /** From (3, 3), at height 4. */
  lemma EndsAt33(g: seq<seq<Height>>)
    requires ExampleMap(g)
    ensures |ReachableEnds(g, (3, 3))| == 5
    ensures (0, 1) in ReachableEnds(g, (3, 3))
    ensures (2, 5) !in ReachableEnds(g, (3, 3))
    ensures (3, 0) in ReachableEnds(g, (3, 3))
    ensures (3, 4) in ReachableEnds(g, (3, 3))
    ensures (4, 5) in ReachableEnds(g, (3, 3))
    ensures (5, 4) in ReachableEnds(g, (3, 3))
    ensures (6, 4) !in ReachableEnds(g, (3, 3))
  {
    var none: seq<Point> := [];
    ClimbLevel(g, (3, 3), 0, (3, 4));
    ClimbLevel(g, (3, 3), 1, (4, 3));
    ClimbLevel(g, (3, 3), 3, (2, 3));
    ClimbOnto(g, (3, 3), 2, (3, 2));
    Combine(g, (3, 3), none, none, ReachableEnds(g, (3, 2)), none);
    EndsAt32(g);
  }

  /** From (3, 7), at height 4. */
  lemma EndsAt37(g: seq<seq<Height>>)
    requires ExampleMap(g)
    ensures |ReachableEnds(g, (3, 7))| == 4
    ensures (0, 1) !in ReachableEnds(g, (3, 7))
    ensures (2, 5) in ReachableEnds(g, (3, 7))
    ensures (3, 0) !in ReachableEnds(g, (3, 7))
    ensures (3, 4) in ReachableEnds(g, (3, 7))
    ensures (4, 5) in ReachableEnds(g, (3, 7))
    ensures (5, 4) !in ReachableEnds(g, (3, 7))
    ensures (6, 4) !in ReachableEnds(g, (3, 7))
  {
    var none: seq<Point> := [];
    ClimbOff(g, (3, 7), 0, (3, 8));
    ClimbLevel(g, (3, 7), 1, (4, 7));
    ClimbLevel(g, (3, 7), 2, (3, 6));
    ClimbOnto(g, (3, 7), 3, (2, 7));
    Combine(g, (3, 7), none, none, none, ReachableEnds(g, (2, 7)));
    EndsAt27(g);
  }

  /** From (4, 0), at height 4. */
  lemma EndsAt40(g: seq<seq<Height>>)
    requires ExampleMap(g)
    ensures |ReachableEnds(g, (4, 0))| == 5
    ensures (0, 1) in ReachableEnds(g, (4, 0))
    ensures (2, 5) !in ReachableEnds(g, (4, 0))
    ensures (3, 0) in ReachableEnds(g, (4, 0))
    ensures (3, 4) in ReachableEnds(g, (4, 0))
    ensures (4, 5) in ReachableEnds(g, (4, 0))
    ensures (5, 4) in ReachableEnds(g, (4, 0))
    ensures (6, 4) !in ReachableEnds(g, (4, 0))
  {
    var none: seq<Point> := [];
    ClimbLevel(g, (4, 0), 1, (5, 0));
    ClimbOff(g, (4, 0), 2, (4, -1));
    ClimbLevel(g, (4, 0), 3, (3, 0));
    ClimbOnto(g, (4, 0), 0, (4, 1));
    Combine(g, (4, 0), ReachableEnds(g, (4, 1)), none, none, none);
    EndsAt41(g);
  }

  /** From (7, 2), at height 4. */
  lemma EndsAt72(g: seq<seq<Height>>)
    requires ExampleMap(g)
    ensures |ReachableEnds(g, (7, 2))| == 1
    ensures (0, 1) !in ReachableEnds(g, (7, 2))
    ensures (2, 5) !in ReachableEnds(g, (7, 2))
    ensures (3, 0) !in ReachableEnds(g, (7, 2))
    ensures (3, 4) !in ReachableEnds(g, (7, 2))
    ensures (4, 5) !in ReachableEnds(g, (7, 2))
    ensures (5, 4) !in ReachableEnds(g, (7, 2))
    ensures (6, 4) in ReachableEnds(g, (7, 2))
  {
    var none: seq<Point> := [];
    ClimbOff(g, (7, 2), 1, (8, 2));
    ClimbLevel(g, (7, 2), 2, (7, 1));
    ClimbLevel(g, (7, 2), 3, (6, 2));
    ClimbOnto(g, (7, 2), 0, (7, 3));
    Combine(g, (7, 2), ReachableEnds(g, (7, 3)), none, none, none);
    EndsAt73(g);
  }

  /** From (0, 7), at height 3. */
  lemma EndsAt07(g: seq<seq<Height>>)
    requires ExampleMap(g)
    ensures |ReachableEnds(g, (0, 7))| == 4
    ensures (0, 1) !in ReachableEnds(g, (0, 7))
    ensures (2, 5) in ReachableEnds(g, (0, 7))
    ensures (3, 0) !in ReachableEnds(g, (0, 7))
    ensures (3, 4) in ReachableEnds(g, (0, 7))
    ensures (4, 5) in ReachableEnds(g, (0, 7))
    ensures (5, 4) !in ReachableEnds(g, (0, 7))
    ensures (6, 4) !in ReachableEnds(g, (0, 7))
  {
    var none: seq<Point> := [];
    ClimbOff(g, (0, 7), 0, (0, 8));
    ClimbLevel(g, (0, 7), 2, (0, 6));
    ClimbOff(g, (0, 7), 3, (-1, 7));
    ClimbOnto(g, (0, 7), 1, (1, 7));
    Combine(g, (0, 7), none, ReachableEnds(g, (1, 7)), none, none);
    EndsAt17(g);
  }

  /** From (2, 3), at height 3. */
  lemma EndsAt23(g: seq<seq<Height>>)
    requires ExampleMap(g)
    ensures |ReachableEnds(g, (2, 3))| == 10
    ensures (0, 1) in ReachableEnds(g, (2, 3))
    ensures (2, 5) !in ReachableEnds(g, (2, 3))
    ensures (3, 0) in ReachableEnds(g, (2, 3))
    ensures (3, 4) in ReachableEnds(g, (2, 3))
    ensures (4, 5) in ReachableEnds(g, (2, 3))
    ensures (5, 4) in ReachableEnds(g, (2, 3))
    ensures (6, 4) !in ReachableEnds(g, (2, 3))
  {
    var none: seq<Point> := [];
    ClimbLevel(g, (2, 3), 0, (2, 4));
    ClimbLevel(g, (2, 3), 3, (1, 3));
    ClimbOnto(g, (2, 3), 1, (3, 3));
    ClimbOnto(g, (2, 3), 2, (2, 2));
    Combine(g, (2, 3), none, ReachableEnds(g, (3, 3)), ReachableEnds(g, (2, 2)), none);
    EndsAt33(g);
    EndsAt22(g);
  }

  /** From (4, 7), at height 3. */
  lemma EndsAt47(g: seq<seq<Height>>)
    requires ExampleMap(g)
    ensures |ReachableEnds(g, (4, 7))| == 4
    ensures (0, 1) !in ReachableEnds(g, (4, 7))
    ensures (2, 5) in ReachableEnds(g, (4, 7))
    ensures (3, 0) !in ReachableEnds(g, (4, 7))
    ensures (3, 4) in ReachableEnds(g, (4, 7))
    ensures (4, 5) in ReachableEnds(g, (4, 7))
    ensures (5, 4) !in ReachableEnds(g, (4, 7))
    ensures (6, 4) !in ReachableEnds(g, (4, 7))
  {
    var none: seq<Point> := [];
    ClimbOff(g, (4, 7), 0, (4, 8));
    ClimbLevel(g, (4, 7), 1, (5, 7));
    ClimbLevel(g, (4, 7), 2, (4, 6));
    ClimbOnto(g, (4, 7), 3, (3, 7));
    Combine(g, (4, 7), none, none, none, ReachableEnds(g, (3, 7)));
    EndsAt37(g);
  }

  /** From (5, 0), at height 3. */
  lemma EndsAt50(g: seq<seq<Height>>)
    requires ExampleMap(g)
    ensures |ReachableEnds(g, (5, 0))| == 5
    ensures (0, 1) in ReachableEnds(g, (5, 0))
    ensures (2, 5) !in ReachableEnds(g, (5, 0))
    ensures (3, 0) in ReachableEnds(g, (5, 0))
    ensures (3, 4) in ReachableEnds(g, (5, 0))
    ensures (4, 5) in ReachableEnds(g, (5, 0))
    ensures (5, 4) in ReachableEnds(g, (5, 0))
    ensures (6, 4) !in ReachableEnds(g, (5, 0))
  {
    var none: seq<Point> := [];
    ClimbLevel(g, (5, 0), 0, (5, 1));
    ClimbLevel(g, (5, 0), 1, (6, 0));
    ClimbOff(g, (5, 0), 2, (5, -1));
    ClimbOnto(g, (5, 0), 3, (4, 0));
    Combine(g, (5, 0), none, none, none, ReachableEnds(g, (4, 0)));
    EndsAt40(g);
  }

  /** From (6, 2), at height 3. */
  lemma EndsAt62(g: seq<seq<Height>>)
    requires ExampleMap(g)
    ensures |ReachableEnds(g, (6, 2))| == 1
    ensures (0, 1) !in ReachableEnds(g, (6, 2))
    ensures (2, 5) !in ReachableEnds(g, (6, 2))
    ensures (3, 0) !in ReachableEnds(g, (6, 2))
    ensures (3, 4) !in ReachableEnds(g, (6, 2))
    ensures (4, 5) !in ReachableEnds(g, (6, 2))
    ensures (5, 4) !in ReachableEnds(g, (6, 2))
    ensures (6, 4) in ReachableEnds(g, (6, 2))
  {
    var none: seq<Point> := [];
    ClimbLevel(g, (6, 2), 0, (6, 3));
    ClimbLevel(g, (6, 2), 2, (6, 1));
    ClimbLevel(g, (6, 2), 3, (5, 2));
    ClimbOnto(g, (6, 2), 1, (7, 2));
    Combine(g, (6, 2), none, ReachableEnds(g, (7, 2)), none, none);
    EndsAt72(g);
  }

  /** From (7, 6), at height 3. */
  lemma EndsAt76(g: seq<seq<Height>>)
    requires ExampleMap(g)
    ensures |ReachableEnds(g, (7, 6))| == 0
    ensures (0, 1) !in ReachableEnds(g, (7, 6))
    ensures (2, 5) !in ReachableEnds(g, (7, 6))
    ensures (3, 0) !in ReachableEnds(g, (7, 6))
    ensures (3, 4) !in ReachableEnds(g, (7, 6))
    ensures (4, 5) !in ReachableEnds(g, (7, 6))
    ensures (5, 4) !in ReachableEnds(g, (7, 6))
    ensures (6, 4) !in ReachableEnds(g, (7, 6))
  {
    var none: seq<Point> := [];
    ClimbLevel(g, (7, 6), 0, (7, 7));
    ClimbOff(g, (7, 6), 1, (8, 6));
    ClimbLevel(g, (7, 6), 2, (7, 5));
    ClimbLevel(g, (7, 6), 3, (6, 6));
    Combine(g, (7, 6), none, none, none, none);
  }

  /** From (0, 6), at height 2. */
  lemma EndsAt06(g: seq<seq<Height>>)
    requires ExampleMap(g)
    ensures |ReachableEnds(g, (0, 6))| == 4
    ensures (0, 1) !in ReachableEnds(g, (0, 6))
    ensures (2, 5) in ReachableEnds(g, (0, 6))
    ensures (3, 0) !in ReachableEnds(g, (0, 6))
    ensures (3, 4) in ReachableEnds(g, (0, 6))
    ensures (4, 5) in ReachableEnds(g, (0, 6))
    ensures (5, 4) !in ReachableEnds(g, (0, 6))
    ensures (6, 4) !in ReachableEnds(g, (0, 6))
  {
    var none: seq<Point> := [];
    ClimbLevel(g, (0, 6), 1, (1, 6));
    ClimbLevel(g, (0, 6), 2, (0, 5));
    ClimbOff(g, (0, 6), 3, (-1, 6));
    ClimbOnto(g, (0, 6), 0, (0, 7));
    Combine(g, (0, 6), ReachableEnds(g, (0, 7)), none, none, none);
    EndsAt07(g);
  }

  /** From (1, 3), at height 2. */
  lemma EndsAt13(g: seq<seq<Height>>)
    requires ExampleMap(g)
    ensures |ReachableEnds(g, (1, 3))| == 10
    ensures (0, 1) in ReachableEnds(g, (1, 3))
    ensures (2, 5) !in ReachableEnds(g, (1, 3))
    ensures (3, 0) in ReachableEnds(g, (1, 3))
    ensures (3, 4) in ReachableEnds(g, (1, 3))
    ensures (4, 5) in ReachableEnds(g, (1, 3))
    ensures (5, 4) in ReachableEnds(g, (1, 3))
    ensures (6, 4) !in ReachableEnds(g, (1, 3))
  {
    var none: seq<Point> := [];
    ClimbLevel(g, (1, 3), 0, (1, 4));
    ClimbLevel(g, (1, 3), 2, (1, 2));
    ClimbLevel(g, (1, 3), 3, (0, 3));
    ClimbOnto(g, (1, 3), 1, (2, 3));
    Combine(g, (1, 3), none, ReachableEnds(g, (2, 3)), none, none);
    EndsAt23(g);
  }

  /** From (5, 1), at height 2. */
  lemma EndsAt51(g: seq<seq<Height>>)
    requires ExampleMap(g)
    ensures |ReachableEnds(g, (5, 1))| == 5
    ensures (0, 1) in ReachableEnds(g, (5, 1))
    ensures (2, 5) !in ReachableEnds(g, (5, 1))
    ensures (3, 0) in ReachableEnds(g, (5, 1))
    ensures (3, 4) in ReachableEnds(g, (5, 1))
    ensures (4, 5) in ReachableEnds(g, (5, 1))
    ensures (5, 4) in ReachableEnds(g, (5, 1))
    ensures (6, 4) !in ReachableEnds(g, (5, 1))
  {
    var none: seq<Point> := [];
    ClimbLevel(g, (5, 1), 0, (5, 2));
    ClimbLevel(g, (5, 1), 1, (6, 1));
    ClimbLevel(g, (5, 1), 3, (4, 1));
    ClimbOnto(g, (5, 1), 2, (5, 0));
    Combine(g, (5, 1), none, none, ReachableEnds(g, (5, 0)), none);
    EndsAt50(g);
  }

  /** From (5, 7), at height 2. */
  lemma EndsAt57(g: seq<seq<Height>>)
    requires ExampleMap(g)
    ensures |ReachableEnds(g, (5, 7))| == 4
    ensures (0, 1) !in ReachableEnds(g, (5, 7))
    ensures (2, 5) in ReachableEnds(g, (5, 7))
    ensures (3, 0) !in ReachableEnds(g, (5, 7))
    ensures (3, 4) in ReachableEnds(g, (5, 7))
    ensures (4, 5) in ReachableEnds(g, (5, 7))
    ensures (5, 4) !in ReachableEnds(g, (5, 7))
    ensures (6, 4) !in ReachableEnds(g, (5, 7))
  {
    var none: seq<Point> := [];
    ClimbOff(g, (5, 7), 0, (5, 8));
    ClimbLevel(g, (5, 7), 1, (6, 7));
    ClimbLevel(g, (5, 7), 2, (5, 6));
    ClimbOnto(g, (5, 7), 3, (4, 7));
    Combine(g, (5, 7), none, none, none, ReachableEnds(g, (4, 7)));
    EndsAt47(g);
  }

  /** From (6, 3), at height 2. */
  lemma EndsAt63(g: seq<seq<Height>>)
    requires ExampleMap(g)
    ensures |ReachableEnds(g, (6, 3))| == 1
    ensures (0, 1) !in ReachableEnds(g, (6, 3))
    ensures (2, 5) !in ReachableEnds(g, (6, 3))
    ensures (3, 0) !in ReachableEnds(g, (6, 3))
    ensures (3, 4) !in ReachableEnds(g, (6, 3))
    ensures (4, 5) !in ReachableEnds(g, (6, 3))
    ensures (5, 4) !in ReachableEnds(g, (6, 3))
    ensures (6, 4) in ReachableEnds(g, (6, 3))
  {
    var none: seq<Point> := [];
    ClimbLevel(g, (6, 3), 0, (6, 4));
    ClimbLevel(g, (6, 3), 1, (7, 3));
    ClimbLevel(g, (6, 3), 3, (5, 3));
    ClimbOnto(g, (6, 3), 2, (6, 2));
    Combine(g, (6, 3), none, none, ReachableEnds(g, (6, 2)), none);
    EndsAt62(g);
  }

  /** From (7, 7), at height 2. */
  lemma EndsAt77(g: seq<seq<Height>>)
    requires ExampleMap(g)
    ensures |ReachableEnds(g, (7, 7))| == 0
    ensures (0, 1) !in ReachableEnds(g, (7, 7))
    ensures (2, 5) !in ReachableEnds(g, (7, 7))
    ensures (3, 0) !in ReachableEnds(g, (7, 7))
    ensures (3, 4) !in ReachableEnds(g, (7, 7))
    ensures (4, 5) !in ReachableEnds(g, (7, 7))
    ensures (5, 4) !in ReachableEnds(g, (7, 7))
    ensures (6, 4) !in ReachableEnds(g, (7, 7))
  {
    var none: seq<Point> := [];
    ClimbOff(g, (7, 7), 0, (7, 8));
    ClimbOff(g, (7, 7), 1, (8, 7));
    ClimbLevel(g, (7, 7), 3, (6, 7));
    ClimbOnto(g, (7, 7), 2, (7, 6));
    Combine(g, (7, 7), none, none, ReachableEnds(g, (7, 6)), none);
    EndsAt76(g);
  }

  /** From (0, 3), at height 1. */
  lemma EndsAt03(g: seq<seq<Height>>)
    requires ExampleMap(g)
    ensures |ReachableEnds(g, (0, 3))| == 10
    ensures (0, 1) in ReachableEnds(g, (0, 3))
    ensures (2, 5) !in ReachableEnds(g, (0, 3))
    ensures (3, 0) in ReachableEnds(g, (0, 3))
    ensures (3, 4) in ReachableEnds(g, (0, 3))
    ensures (4, 5) in ReachableEnds(g, (0, 3))
    ensures (5, 4) in ReachableEnds(g, (0, 3))
    ensures (6, 4) !in ReachableEnds(g, (0, 3))
  {
    var none: seq<Point> := [];
    ClimbLevel(g, (0, 3), 0, (0, 4));
    ClimbLevel(g, (0, 3), 2, (0, 2));
    ClimbOff(g, (0, 3), 3, (-1, 3));
    ClimbOnto(g, (0, 3), 1, (1, 3));
    Combine(g, (0, 3), none, ReachableEnds(g, (1, 3)), none, none);
    EndsAt13(g);
  }

  /** From (0, 5), at height 1. */
  lemma EndsAt05(g: seq<seq<Height>>)
    requires ExampleMap(g)
    ensures |ReachableEnds(g, (0, 5))| == 4
    ensures (0, 1) !in ReachableEnds(g, (0, 5))
    ensures (2, 5) in ReachableEnds(g, (0, 5))
    ensures (3, 0) !in ReachableEnds(g, (0, 5))
    ensures (3, 4) in ReachableEnds(g, (0, 5))
    ensures (4, 5) in ReachableEnds(g, (0, 5))
    ensures (5, 4) !in ReachableEnds(g, (0, 5))
    ensures (6, 4) !in ReachableEnds(g, (0, 5))
  {
    var none: seq<Point> := [];
    ClimbLevel(g, (0, 5), 1, (1, 5));
    ClimbLevel(g, (0, 5), 2, (0, 4));
    ClimbOff(g, (0, 5), 3, (-1, 5));
    ClimbOnto(g, (0, 5), 0, (0, 6));
    Combine(g, (0, 5), ReachableEnds(g, (0, 6)), none, none, none);
    EndsAt06(g);
  }

  /** From (1, 2), at height 1. */
  lemma EndsAt12(g: seq<seq<Height>>)
    requires ExampleMap(g)
    ensures |ReachableEnds(g, (1, 2))| == 10
    ensures (0, 1) in ReachableEnds(g, (1, 2))
    ensures (2, 5) !in ReachableEnds(g, (1, 2))
    ensures (3, 0) in ReachableEnds(g, (1, 2))
    ensures (3, 4) in ReachableEnds(g, (1, 2))
    ensures (4, 5) in ReachableEnds(g, (1, 2))
    ensures (5, 4) in ReachableEnds(g, (1, 2))
    ensures (6, 4) !in ReachableEnds(g, (1, 2))
  {
    var none: seq<Point> := [];
    ClimbLevel(g, (1, 2), 1, (2, 2));
    ClimbLevel(g, (1, 2), 2, (1, 1));
    ClimbLevel(g, (1, 2), 3, (0, 2));
    ClimbOnto(g, (1, 2), 0, (1, 3));
    Combine(g, (1, 2), ReachableEnds(g, (1, 3)), none, none, none);
    EndsAt13(g);
  }

  /** From (1, 4), at height 1. */
  lemma EndsAt14(g: seq<seq<Height>>)
    requires ExampleMap(g)
    ensures |ReachableEnds(g, (1, 4))| == 10
    ensures (0, 1) in ReachableEnds(g, (1, 4))
    ensures (2, 5) !in ReachableEnds(g, (1, 4))
    ensures (3, 0) in ReachableEnds(g, (1, 4))
    ensures (3, 4) in ReachableEnds(g, (1, 4))
    ensures (4, 5) in ReachableEnds(g, (1, 4))
    ensures (5, 4) in ReachableEnds(g, (1, 4))
    ensures (6, 4) !in ReachableEnds(g, (1, 4))
  {
    var none: seq<Point> := [];
    ClimbLevel(g, (1, 4), 0, (1, 5));
    ClimbLevel(g, (1, 4), 1, (2, 4));
    ClimbLevel(g, (1, 4), 3, (0, 4));
    ClimbOnto(g, (1, 4), 2, (1, 3));
    Combine(g, (1, 4), none, none, ReachableEnds(g, (1, 3)), none);
    EndsAt13(g);
  }

  /** From (5, 3), at height 1. */
  lemma EndsAt53(g: seq<seq<Height>>)
    requires ExampleMap(g)
    ensures |ReachableEnds(g, (5, 3))| == 1
    ensures (0, 1) !in ReachableEnds(g, (5, 3))
    ensures (2, 5) !in ReachableEnds(g, (5, 3))
    ensures (3, 0) !in ReachableEnds(g, (5, 3))
    ensures (3, 4) !in ReachableEnds(g, (5, 3))
    ensures (4, 5) !in ReachableEnds(g, (5, 3))
    ensures (5, 4) !in ReachableEnds(g, (5, 3))
    ensures (6, 4) in ReachableEnds(g, (5, 3))
  {
    var none: seq<Point> := [];
    ClimbLevel(g, (5, 3), 0, (5, 4));
    ClimbLevel(g, (5, 3), 2, (5, 2));
    ClimbLevel(g, (5, 3), 3, (4, 3));
    ClimbOnto(g, (5, 3), 1, (6, 3));
    Combine(g, (5, 3), none, ReachableEnds(g, (6, 3)), none, none);
    EndsAt63(g);
  }

  /** From (5, 6), at height 1. */
  lemma EndsAt56(g: seq<seq<Height>>)
    requires ExampleMap(g)
    ensures |ReachableEnds(g, (5, 6))| == 4
    ensures (0, 1) !in ReachableEnds(g, (5, 6))
    ensures (2, 5) in ReachableEnds(g, (5, 6))
    ensures (3, 0) !in ReachableEnds(g, (5, 6))
    ensures (3, 4) in ReachableEnds(g, (5, 6))
    ensures (4, 5) in ReachableEnds(g, (5, 6))
    ensures (5, 4) !in ReachableEnds(g, (5, 6))
    ensures (6, 4) !in ReachableEnds(g, (5, 6))
  {
    var none: seq<Point> := [];
    ClimbLevel(g, (5, 6), 1, (6, 6));
    ClimbLevel(g, (5, 6), 2, (5, 5));
    ClimbLevel(g, (5, 6), 3, (4, 6));
    ClimbOnto(g, (5, 6), 0, (5, 7));
    Combine(g, (5, 6), ReachableEnds(g, (5, 7)), none, none, none);
    EndsAt57(g);
  }

  /** From (6, 1), at height 1. */
  lemma EndsAt61(g: seq<seq<Height>>)
    requires ExampleMap(g)
    ensures |ReachableEnds(g, (6, 1))| == 5
    ensures (0, 1) in ReachableEnds(g, (6, 1))
    ensures (2, 5) !in ReachableEnds(g, (6, 1))
    ensures (3, 0) in ReachableEnds(g, (6, 1))
    ensures (3, 4) in ReachableEnds(g, (6, 1))
    ensures (4, 5) in ReachableEnds(g, (6, 1))
    ensures (5, 4) in ReachableEnds(g, (6, 1))
    ensures (6, 4) !in ReachableEnds(g, (6, 1))
  {
    var none: seq<Point> := [];
    ClimbLevel(g, (6, 1), 0, (6, 2));
    ClimbLevel(g, (6, 1), 1, (7, 1));
    ClimbLevel(g, (6, 1), 2, (6, 0));
    ClimbOnto(g, (6, 1), 3, (5, 1));
    Combine(g, (6, 1), none, none, none, ReachableEnds(g, (5, 1)));
    EndsAt51(g);
  }

  /** From (6, 7), at height 1. */
  lemma EndsAt67(g: seq<seq<Height>>)
    requires ExampleMap(g)
    ensures |ReachableEnds(g, (6, 7))| == 4
    ensures (0, 1) !in ReachableEnds(g, (6, 7))
    ensures (2, 5) in ReachableEnds(g, (6, 7))
    ensures (3, 0) !in ReachableEnds(g, (6, 7))
    ensures (3, 4) in ReachableEnds(g, (6, 7))
    ensures (4, 5) in ReachableEnds(g, (6, 7))
    ensures (5, 4) !in ReachableEnds(g, (6, 7))
    ensures (6, 4) !in ReachableEnds(g, (6, 7))
  {
    var none: seq<Point> := [];
    ClimbOff(g, (6, 7), 0, (6, 8));
    ClimbLevel(g, (6, 7), 2, (6, 6));
    ClimbOnto(g, (6, 7), 1, (7, 7));
    ClimbOnto(g, (6, 7), 3, (5, 7));
    Combine(g, (6, 7), none, ReachableEnds(g, (7, 7)), none, ReachableEnds(g, (5, 7)));
    EndsAt77(g);
    EndsAt57(g);
  }

  /** From (7, 0), at height 1. */
  lemma EndsAt70(g: seq<seq<Height>>)
    requires ExampleMap(g)
    ensures |ReachableEnds(g, (7, 0))| == 0
    ensures (0, 1) !in ReachableEnds(g, (7, 0))
    ensures (2, 5) !in ReachableEnds(g, (7, 0))
    ensures (3, 0) !in ReachableEnds(g, (7, 0))
    ensures (3, 4) !in ReachableEnds(g, (7, 0))
    ensures (4, 5) !in ReachableEnds(g, (7, 0))
    ensures (5, 4) !in ReachableEnds(g, (7, 0))
    ensures (6, 4) !in ReachableEnds(g, (7, 0))
  {
    var none: seq<Point> := [];
    ClimbLevel(g, (7, 0), 0, (7, 1));
    ClimbOff(g, (7, 0), 1, (8, 0));
    ClimbOff(g, (7, 0), 2, (7, -1));
    ClimbLevel(g, (7, 0), 3, (6, 0));
    Combine(g, (7, 0), none, none, none, none);
  }

  /** From (0, 2), at height 0. */
  lemma EndsAt02(g: seq<seq<Height>>)
    requires ExampleMap(g)
    ensures |ReachableEnds(g, (0, 2))| == 20
    ensures (0, 1) in ReachableEnds(g, (0, 2))
    ensures (2, 5) !in ReachableEnds(g, (0, 2))
    ensures (3, 0) in ReachableEnds(g, (0, 2))
    ensures (3, 4) in ReachableEnds(g, (0, 2))
    ensures (4, 5) in ReachableEnds(g, (0, 2))
    ensures (5, 4) in ReachableEnds(g, (0, 2))
    ensures (6, 4) !in ReachableEnds(g, (0, 2))
  {
    var none: seq<Point> := [];
    ClimbLevel(g, (0, 2), 2, (0, 1));
    ClimbOff(g, (0, 2), 3, (-1, 2));
    ClimbOnto(g, (0, 2), 0, (0, 3));
    ClimbOnto(g, (0, 2), 1, (1, 2));
    Combine(g, (0, 2), ReachableEnds(g, (0, 3)), ReachableEnds(g, (1, 2)), none, none);
    EndsAt03(g);
    EndsAt12(g);
  }

  /** From (0, 4), at height 0. */
  lemma EndsAt04(g: seq<seq<Height>>)
    requires ExampleMap(g)
    ensures |ReachableEnds(g, (0, 4))| == 24
    ensures (0, 1) in ReachableEnds(g, (0, 4))
    ensures (2, 5) in ReachableEnds(g, (0, 4))
    ensures (3, 0) in ReachableEnds(g, (0, 4))
    ensures (3, 4) in ReachableEnds(g, (0, 4))
    ensures (4, 5) in ReachableEnds(g, (0, 4))
    ensures (5, 4) in ReachableEnds(g, (0, 4))
    ensures (6, 4) !in ReachableEnds(g, (0, 4))
  {
    var none: seq<Point> := [];
    ClimbOff(g, (0, 4), 3, (-1, 4));
    ClimbOnto(g, (0, 4), 0, (0, 5));
    ClimbOnto(g, (0, 4), 1, (1, 4));
    ClimbOnto(g, (0, 4), 2, (0, 3));
    Combine(g, (0, 4), ReachableEnds(g, (0, 5)), ReachableEnds(g, (1, 4)), ReachableEnds(g, (0, 3)), none);
    EndsAt05(g);
    EndsAt14(g);
    EndsAt03(g);
  }

  /** From (2, 4), at height 0. */
  lemma EndsAt24(g: seq<seq<Height>>)
    requires ExampleMap(g)
    ensures |ReachableEnds(g, (2, 4))| == 10
    ensures (0, 1) in ReachableEnds(g, (2, 4))
    ensures (2, 5) !in ReachableEnds(g, (2, 4))
    ensures (3, 0) in ReachableEnds(g, (2, 4))
    ensures (3, 4) in ReachableEnds(g, (2, 4))
    ensures (4, 5) in ReachableEnds(g, (2, 4))
    ensures (5, 4) in ReachableEnds(g, (2, 4))
    ensures (6, 4) !in ReachableEnds(g, (2, 4))
  {
    var none: seq<Point> := [];
    ClimbLevel(g, (2, 4), 0, (2, 5));
    ClimbLevel(g, (2, 4), 1, (3, 4));
    ClimbLevel(g, (2, 4), 2, (2, 3));
    ClimbOnto(g, (2, 4), 3, (1, 4));
    Combine(g, (2, 4), none, none, none, ReachableEnds(g, (1, 4)));
    EndsAt14(g);
  }

  /** From (4, 6), at height 0. */
  lemma EndsAt46(g: seq<seq<Height>>)
    requires ExampleMap(g)
    ensures |ReachableEnds(g, (4, 6))| == 4
    ensures (0, 1) !in ReachableEnds(g, (4, 6))
    ensures (2, 5) in ReachableEnds(g, (4, 6))
    ensures (3, 0) !in ReachableEnds(g, (4, 6))
    ensures (3, 4) in ReachableEnds(g, (4, 6))
    ensures (4, 5) in ReachableEnds(g, (4, 6))
    ensures (5, 4) !in ReachableEnds(g, (4, 6))
    ensures (6, 4) !in ReachableEnds(g, (4, 6))
  {
    var none: seq<Point> := [];
    ClimbLevel(g, (4, 6), 0, (4, 7));
    ClimbLevel(g, (4, 6), 2, (4, 5));
    ClimbLevel(g, (4, 6), 3, (3, 6));
    ClimbOnto(g, (4, 6), 1, (5, 6));
    Combine(g, (4, 6), none, ReachableEnds(g, (5, 6)), none, none);
    EndsAt56(g);
  }

  /** From (5, 2), at height 0. */
  lemma EndsAt52(g: seq<seq<Height>>)
    requires ExampleMap(g)
    ensures |ReachableEnds(g, (5, 2))| == 1
    ensures (0, 1) !in ReachableEnds(g, (5, 2))
    ensures (2, 5) !in ReachableEnds(g, (5, 2))
    ensures (3, 0) !in ReachableEnds(g, (5, 2))
    ensures (3, 4) !in ReachableEnds(g, (5, 2))
    ensures (4, 5) !in ReachableEnds(g, (5, 2))
    ensures (5, 4) !in ReachableEnds(g, (5, 2))
    ensures (6, 4) in ReachableEnds(g, (5, 2))
  {
    var none: seq<Point> := [];
    ClimbLevel(g, (5, 2), 1, (6, 2));
    ClimbLevel(g, (5, 2), 2, (5, 1));
    ClimbLevel(g, (5, 2), 3, (4, 2));
    ClimbOnto(g, (5, 2), 0, (5, 3));
    Combine(g, (5, 2), ReachableEnds(g, (5, 3)), none, none, none);
    EndsAt53(g);
  }

  /** From (5, 5), at height 0. */
  lemma EndsAt55(g: seq<seq<Height>>)
    requires ExampleMap(g)
    ensures |ReachableEnds(g, (5, 5))| == 4
    ensures (0, 1) !in ReachableEnds(g, (5, 5))
    ensures (2, 5) in ReachableEnds(g, (5, 5))
    ensures (3, 0) !in ReachableEnds(g, (5, 5))
    ensures (3, 4) in ReachableEnds(g, (5, 5))
    ensures (4, 5) in ReachableEnds(g, (5, 5))
    ensures (5, 4) !in ReachableEnds(g, (5, 5))
    ensures (6, 4) !in ReachableEnds(g, (5, 5))
  {
    var none: seq<Point> := [];
    ClimbLevel(g, (5, 5), 1, (6, 5));
    ClimbLevel(g, (5, 5), 2, (5, 4));
    ClimbLevel(g, (5, 5), 3, (4, 5));
    ClimbOnto(g, (5, 5), 0, (5, 6));
    Combine(g, (5, 5), ReachableEnds(g, (5, 6)), none, none, none);
    EndsAt56(g);
  }

  /** From (6, 0), at height 0. */
  lemma EndsAt60(g: seq<seq<Height>>)
    requires ExampleMap(g)
    ensures |ReachableEnds(g, (6, 0))| == 5
    ensures (0, 1) in ReachableEnds(g, (6, 0))
    ensures (2, 5) !in ReachableEnds(g, (6, 0))
    ensures (3, 0) in ReachableEnds(g, (6, 0))
    ensures (3, 4) in ReachableEnds(g, (6, 0))
    ensures (4, 5) in ReachableEnds(g, (6, 0))
    ensures (5, 4) in ReachableEnds(g, (6, 0))
    ensures (6, 4) !in ReachableEnds(g, (6, 0))
  {
    var none: seq<Point> := [];
    ClimbOff(g, (6, 0), 2, (6, -1));
    ClimbLevel(g, (6, 0), 3, (5, 0));
    ClimbOnto(g, (6, 0), 0, (6, 1));
    ClimbOnto(g, (6, 0), 1, (7, 0));
    Combine(g, (6, 0), ReachableEnds(g, (6, 1)), ReachableEnds(g, (7, 0)), none, none);
    EndsAt61(g);
    EndsAt70(g);
  }

  /** From (6, 6), at height 0. */
  lemma EndsAt66(g: seq<seq<Height>>)
    requires ExampleMap(g)
    ensures |ReachableEnds(g, (6, 6))| == 8
    ensures (0, 1) !in ReachableEnds(g, (6, 6))
    ensures (2, 5) in ReachableEnds(g, (6, 6))
    ensures (3, 0) !in ReachableEnds(g, (6, 6))
    ensures (3, 4) in ReachableEnds(g, (6, 6))
    ensures (4, 5) in ReachableEnds(g, (6, 6))
    ensures (5, 4) !in ReachableEnds(g, (6, 6))
    ensures (6, 4) !in ReachableEnds(g, (6, 6))
  {
    var none: seq<Point> := [];
    ClimbLevel(g, (6, 6), 1, (7, 6));
    ClimbLevel(g, (6, 6), 2, (6, 5));
    ClimbOnto(g, (6, 6), 0, (6, 7));
    ClimbOnto(g, (6, 6), 3, (5, 6));
    Combine(g, (6, 6), ReachableEnds(g, (6, 7)), none, none, ReachableEnds(g, (5, 6)));
    EndsAt67(g);
    EndsAt56(g);
  }

  /** From (7, 1), at height 0. */
  lemma EndsAt71(g: seq<seq<Height>>)
    requires ExampleMap(g)
    ensures |ReachableEnds(g, (7, 1))| == 5
    ensures (0, 1) in ReachableEnds(g, (7, 1))
    ensures (2, 5) !in ReachableEnds(g, (7, 1))
    ensures (3, 0) in ReachableEnds(g, (7, 1))
    ensures (3, 4) in ReachableEnds(g, (7, 1))
    ensures (4, 5) in ReachableEnds(g, (7, 1))
    ensures (5, 4) in ReachableEnds(g, (7, 1))
    ensures (6, 4) !in ReachableEnds(g, (7, 1))
  {
    var none: seq<Point> := [];
    ClimbLevel(g, (7, 1), 0, (7, 2));
    ClimbOff(g, (7, 1), 1, (8, 1));
    ClimbOnto(g, (7, 1), 2, (7, 0));
    ClimbOnto(g, (7, 1), 3, (6, 1));
    Combine(g, (7, 1), none, none, ReachableEnds(g, (7, 0)), ReachableEnds(g, (6, 1)));
    EndsAt70(g);
    EndsAt61(g);
  }

  /** The score and the rating of the trailhead (0, 2). */
  lemma ScoreAt02(g: seq<seq<Height>>)
    requires ExampleMap(g)
    ensures TrailScore(g, (0, 2)) == 5 && |ReachableEnds(g, (0, 2))| == 20
  {
    EndsAt02(g);
    ScoreOf(g, (0, 2), {(0, 1), (3, 0), (3, 4), (4, 5), (5, 4)});
  }

  /** The score and the rating of the trailhead (0, 4). */
  lemma ScoreAt04(g: seq<seq<Height>>)
    requires ExampleMap(g)
    ensures TrailScore(g, (0, 4)) == 6 && |ReachableEnds(g, (0, 4))| == 24
  {
    EndsAt04(g);
    ScoreOf(g, (0, 4), {(0, 1), (2, 5), (3, 0), (3, 4), (4, 5), (5, 4)});
  }

  /** The score and the rating of the trailhead (2, 4). */
  lemma ScoreAt24(g: seq<seq<Height>>)
    requires ExampleMap(g)
    ensures TrailScore(g, (2, 4)) == 5 && |ReachableEnds(g, (2, 4))| == 10
  {
    EndsAt24(g);
    ScoreOf(g, (2, 4), {(0, 1), (3, 0), (3, 4), (4, 5), (5, 4)});
  }

  /** The score and the rating of the trailhead (4, 6). */
  lemma ScoreAt46(g: seq<seq<Height>>)
    requires ExampleMap(g)
    ensures TrailScore(g, (4, 6)) == 3 && |ReachableEnds(g, (4, 6))| == 4
  {
    EndsAt46(g);
    ScoreOf(g, (4, 6), {(2, 5), (3, 4), (4, 5)});
  }

  /** The score and the rating of the trailhead (5, 2). */
  lemma ScoreAt52(g: seq<seq<Height>>)
    requires ExampleMap(g)
    ensures TrailScore(g, (5, 2)) == 1 && |ReachableEnds(g, (5, 2))| == 1
  {
    EndsAt52(g);
    ScoreOf(g, (5, 2), {(6, 4)});
  }

  /** The score and the rating of the trailhead (5, 5). */
  lemma ScoreAt55(g: seq<seq<Height>>)
    requires ExampleMap(g)
    ensures TrailScore(g, (5, 5)) == 3 && |ReachableEnds(g, (5, 5))| == 4
  {
    EndsAt55(g);
    ScoreOf(g, (5, 5), {(2, 5), (3, 4), (4, 5)});
  }

  /** The score and the rating of the trailhead (6, 0). */
  lemma ScoreAt60(g: seq<seq<Height>>)
    requires ExampleMap(g)
    ensures TrailScore(g, (6, 0)) == 5 && |ReachableEnds(g, (6, 0))| == 5
  {
    EndsAt60(g);
    ScoreOf(g, (6, 0), {(0, 1), (3, 0), (3, 4), (4, 5), (5, 4)});
  }

  /** The score and the rating of the trailhead (6, 6). */
  lemma ScoreAt66(g: seq<seq<Height>>)
    requires ExampleMap(g)
    ensures TrailScore(g, (6, 6)) == 3 && |ReachableEnds(g, (6, 6))| == 8
  {
    EndsAt66(g);
    ScoreOf(g, (6, 6), {(2, 5), (3, 4), (4, 5)});
  }

  /** The score and the rating of the trailhead (7, 1). */
  lemma ScoreAt71(g: seq<seq<Height>>)
    requires ExampleMap(g)
    ensures TrailScore(g, (7, 1)) == 5 && |ReachableEnds(g, (7, 1))| == 5
  {
    EndsAt71(g);
    ScoreOf(g, (7, 1), {(0, 1), (3, 0), (3, 4), (4, 5), (5, 4)});
  }

  /** The trailheads of one row of eight heights, cell by cell. */
  lemma RowOfEight(row: seq<Height>, x: nat)
    requires |row| == 8
    ensures RowStarts(row, x, 8) ==
      (if row[0] == 0 then [(x, 0)] else []) + (if row[1] == 0 then [(x, 1)] else []) +
      (if row[2] == 0 then [(x, 2)] else []) + (if row[3] == 0 then [(x, 3)] else []) +
      (if row[4] == 0 then [(x, 4)] else []) + (if row[5] == 0 then [(x, 5)] else []) +
      (if row[6] == 0 then [(x, 6)] else []) + (if row[7] == 0 then [(x, 7)] else [])
  {
    var none: seq<Point> := [];
    assert RowStarts(row, x, 1) == none + (if row[0] == 0 then [(x, 0)] else []);
    assert none + (if row[0] == 0 then [(x, 0)] else []) == (if row[0] == 0 then [(x, 0)] else []);
    assert RowStarts(row, x, 2) == RowStarts(row, x, 1) + (if row[1] == 0 then [(x, 1)] else []);
    assert RowStarts(row, x, 3) == RowStarts(row, x, 2) + (if row[2] == 0 then [(x, 2)] else []);
    assert RowStarts(row, x, 4) == RowStarts(row, x, 3) + (if row[3] == 0 then [(x, 3)] else []);
    assert RowStarts(row, x, 5) == RowStarts(row, x, 4) + (if row[4] == 0 then [(x, 4)] else []);
    assert RowStarts(row, x, 6) == RowStarts(row, x, 5) + (if row[5] == 0 then [(x, 5)] else []);
    assert RowStarts(row, x, 7) == RowStarts(row, x, 6) + (if row[6] == 0 then [(x, 6)] else []);
    assert RowStarts(row, x, 8) == RowStarts(row, x, 7) + (if row[7] == 0 then [(x, 7)] else []);
  }

  /** One more row of the map adds that row's trailheads. */
  lemma StartsStep(grid: seq<seq<Height>>, n: nat)
    requires n < |grid|
    ensures Starts(grid[..n + 1]) == Starts(grid[..n]) + RowStarts(grid[n], n, |grid[n]|)
  {
    assert grid[..n + 1][..n] == grid[..n];
  }

  /** The trailheads of a map of eight rows, row by row. */
  lemma RowByRow(grid: seq<seq<Height>>)
    requires |grid| == 8
    ensures Starts(grid) ==
      RowStarts(grid[0], 0, |grid[0]|) + RowStarts(grid[1], 1, |grid[1]|) +
      RowStarts(grid[2], 2, |grid[2]|) + RowStarts(grid[3], 3, |grid[3]|) +
      RowStarts(grid[4], 4, |grid[4]|) + RowStarts(grid[5], 5, |grid[5]|) +
      RowStarts(grid[6], 6, |grid[6]|) + RowStarts(grid[7], 7, |grid[7]|)
  {
    var none: seq<Point> := [];
    assert grid[..0] == [];
    assert none + RowStarts(grid[0], 0, |grid[0]|) == RowStarts(grid[0], 0, |grid[0]|);
    StartsStep(grid, 0);
    StartsStep(grid, 1);
    StartsStep(grid, 2);
    StartsStep(grid, 3);
    StartsStep(grid, 4);
    StartsStep(grid, 5);
    StartsStep(grid, 6);
    StartsStep(grid, 7);
    assert grid[..8] == grid;
  }

  /** The example's nine trailheads, in reading order. */
  const Heads: seq<Point> := [(0, 2), (0, 4), (2, 4), (4, 6), (5, 2), (5, 5), (6, 0), (6, 6), (7, 1)]

  /** The trailheads of the example map are `Heads`. */
  lemma ExampleStarts(g: seq<seq<Height>>)
    requires ExampleMap(g)
    ensures Starts(g) == [(0, 2), (0, 4), (2, 4), (4, 6), (5, 2), (5, 5), (6, 0), (6, 6), (7, 1)]
  {
    RowByRow(g);
    RowOfEight(g[0], 0);
    RowOfEight(g[1], 1);
    RowOfEight(g[2], 2);
    RowOfEight(g[3], 3);
    RowOfEight(g[4], 4);
    RowOfEight(g[5], 5);
    RowOfEight(g[6], 6);
    RowOfEight(g[7], 7);
  }

  /** The total over the first n trailheads, one trailhead more. */
  lemma TotalStep(g: seq<seq<Height>>, s: seq<Point>, n: nat, rating: bool)
    requires 0 < n <= |s| && forall k :: 0 <= k < |s| ==> InBounds(g, s[k])
    ensures Total(g, s[..n], rating) ==
      Total(g, s[..n - 1], rating) + if rating then |ReachableEnds(g, s[n - 1])| else TrailScore(g, s[n - 1])
  {
    assert s[..n][..n - 1] == s[..n - 1];
  }

  /** The totals of the scores and of the ratings over the first n of
      `Heads`. */
  const ScoreSums: seq<nat> := [0, 5, 11, 16, 19, 20, 23, 28, 31, 36]
  const RatingSums: seq<nat> := [0, 20, 44, 54, 58, 59, 63, 68, 76, 81]

  /** The score or rating of the first of `Heads`. */
  lemma ExampleUpTo1(g: seq<seq<Height>>, rating: bool)
    requires ExampleMap(g)
    ensures forall k :: 0 <= k < 1 ==> InBounds(g, Heads[..1][k])
    ensures Total(g, Heads[..1], rating) == if rating then RatingSums[1] else ScoreSums[1]
  {
    assert |Heads[..0]| == 0;
    TotalStep(g, Heads, 1, rating);
    ScoreAt02(g);
  }

  /** The score or rating summed over the first 2 of `Heads`. */
  lemma ExampleUpTo2(g: seq<seq<Height>>, rating: bool)
    requires ExampleMap(g)
    ensures forall k :: 0 <= k < 2 ==> InBounds(g, Heads[..2][k])
    ensures Total(g, Heads[..2], rating) == if rating then RatingSums[2] else ScoreSums[2]
  {
    ExampleUpTo1(g, rating);
    TotalStep(g, Heads, 2, rating);
    ScoreAt04(g);
  }

  /** The score or rating summed over the first 3 of `Heads`. */
  lemma ExampleUpTo3(g: seq<seq<Height>>, rating: bool)
    requires ExampleMap(g)
    ensures forall k :: 0 <= k < 3 ==> InBounds(g, Heads[..3][k])
    ensures Total(g, Heads[..3], rating) == if rating then RatingSums[3] else ScoreSums[3]
  {
    ExampleUpTo2(g, rating);
    TotalStep(g, Heads, 3, rating);
    ScoreAt24(g);
  }

  /** The score or rating summed over the first 4 of `Heads`. */
  lemma ExampleUpTo4(g: seq<seq<Height>>, rating: bool)
    requires ExampleMap(g)
    ensures forall k :: 0 <= k < 4 ==> InBounds(g, Heads[..4][k])
    ensures Total(g, Heads[..4], rating) == if rating then RatingSums[4] else ScoreSums[4]
  {
    ExampleUpTo3(g, rating);
    TotalStep(g, Heads, 4, rating);
    ScoreAt46(g);
  }

  /** The score or rating summed over the first 5 of `Heads`. */
  lemma ExampleUpTo5(g: seq<seq<Height>>, rating: bool)
    requires ExampleMap(g)
    ensures forall k :: 0 <= k < 5 ==> InBounds(g, Heads[..5][k])
    ensures Total(g, Heads[..5], rating) == if rating then RatingSums[5] else ScoreSums[5]
  {
    ExampleUpTo4(g, rating);
    TotalStep(g, Heads, 5, rating);
    ScoreAt52(g);
  }

  /** The score or rating summed over the first 6 of `Heads`. */
  lemma ExampleUpTo6(g: seq<seq<Height>>, rating: bool)
    requires ExampleMap(g)
    ensures forall k :: 0 <= k < 6 ==> InBounds(g, Heads[..6][k])
    ensures Total(g, Heads[..6], rating) == if rating then RatingSums[6] else ScoreSums[6]
  {
    ExampleUpTo5(g, rating);
    TotalStep(g, Heads, 6, rating);
    ScoreAt55(g);
  }

  /** The score or rating summed over the first 7 of `Heads`. */
  lemma ExampleUpTo7(g: seq<seq<Height>>, rating: bool)
    requires ExampleMap(g)
    ensures forall k :: 0 <= k < 7 ==> InBounds(g, Heads[..7][k])
    ensures Total(g, Heads[..7], rating) == if rating then RatingSums[7] else ScoreSums[7]
  {
    ExampleUpTo6(g, rating);
    TotalStep(g, Heads, 7, rating);
    ScoreAt60(g);
  }

  /** The score or rating summed over the first 8 of `Heads`. */
  lemma ExampleUpTo8(g: seq<seq<Height>>, rating: bool)
    requires ExampleMap(g)
    ensures forall k :: 0 <= k < 8 ==> InBounds(g, Heads[..8][k])
    ensures Total(g, Heads[..8], rating) == if rating then RatingSums[8] else ScoreSums[8]
  {
    ExampleUpTo7(g, rating);
    TotalStep(g, Heads, 8, rating);
    ScoreAt66(g);
  }

  /** The score or rating summed over the first 9 of `Heads`. */
  lemma ExampleUpTo9(g: seq<seq<Height>>, rating: bool)
    requires ExampleMap(g)
    ensures forall k :: 0 <= k < 9 ==> InBounds(g, Heads[..9][k])
    ensures Total(g, Heads[..9], rating) == if rating then RatingSums[9] else ScoreSums[9]
  {
    ExampleUpTo8(g, rating);
    TotalStep(g, Heads, 9, rating);
    ScoreAt71(g);
  }

  /** The example map scores 36. */
  lemma MapScore(g: seq<seq<Height>>)
    requires ExampleMap(g)
    ensures forall k :: 0 <= k < |Starts(g)| ==> InBounds(g, Starts(g)[k])
    ensures Total(g, Starts(g), false) == 36
  {
    ExampleStarts(g);
    ExampleUpTo9(g, false);
    assert Heads[..9] == Heads;
  }

  /** The example map's rating is 81. */
  lemma MapRating(g: seq<seq<Height>>)
    requires ExampleMap(g)
    ensures forall k :: 0 <= k < |Starts(g)| ==> InBounds(g, Starts(g)[k])
    ensures Total(g, Starts(g), true) == 81
  {
    ExampleStarts(g);
    ExampleUpTo9(g, true);
    assert Heads[..9] == Heads;
  }

  /** A line of digits parses to their values. */
  lemma {:induction false} DigitRow(line: string, row: seq<Height>)
    requires |line| == |row| && forall j :: 0 <= j < |line| ==> line[j] as int == '0' as int + row[j]
    ensures ParseRow(line, HeightOf) == Some(row)
  {
    if |line| > 0 {
      var n := |line| - 1;
      DigitRow(line[..n], row[..n]);
      assert row[..n] + [row[n]] == row;
    }
  }

  /** Line k of the example's text parses to row k of `ExampleGrid`. */
  lemma RowParses(k: nat)
    requires k < 8
    ensures ParseRow(ExampleLines[k], HeightOf) == Some(ExampleGrid[k])
  {
    DigitRow(ExampleLines[k], ExampleGrid[k]);
  }

  /** The example's text splits into `ExampleLines`. */
  lemma LinesExample()
    ensures Text.Lines(ExampleText) == ExampleLines
  {
    Text.LinesOfJoin(ExampleLines);
  }

  /** The example's lines parse to `ExampleGrid`. */
  lemma GridExample()
    ensures ParseGrid(ExampleLines, HeightOf) == Some(ExampleGrid)
  {
    forall k | 0 <= k < 8
      ensures ParseRow(ExampleLines[k], HeightOf) == Some(ExampleGrid[k])
    {
      RowParses(k);
    }
    GridOfRows(ExampleLines, HeightOf, ExampleGrid);
  }

  /** `ExampleGrid` holds the example's heights. */
  lemma ExampleGridMap()
    ensures ExampleMap(ExampleGrid)
  {
  }

  /** `Trails::from` on the example's text: the grid is `ExampleGrid`,
      which holds the example's heights. */
  lemma ParseExample()
    ensures ParseTrails(ExampleText) == Some(Trails(ExampleGrid, Starts(ExampleGrid)))
    ensures ExampleMap(ExampleGrid)
  {
    LinesExample();
    GridExample();
    ExampleGridMap();
  }

  /** `test_trails_from`: nine trailheads, the first at height 0. */
  lemma TrailsFromExample()
    ensures ParseTrails(ExampleText).Some?
    ensures var t := ParseTrails(ExampleText).value;
      |t.starts| == 9 && InBounds(t.grid, t.starts[0]) && t.grid[t.starts[0].0][t.starts[0].1] == 0
  {
    ParseExample();
    ExampleStarts(ExampleGrid);
  }

  /** `test_trail_score`: the first trailhead scores 5. */
  lemma TrailScoreExample()
    ensures ParseTrails(ExampleText).Some?
    ensures var t := ParseTrails(ExampleText).value;
      |t.starts| == 9 && InBounds(t.grid, t.starts[0]) && TrailScore(t.grid, t.starts[0]) == 5
  {
    ParseExample();
    ExampleStarts(ExampleGrid);
    ScoreAt02(ExampleGrid);
  }

  /** `test_score`: part 1 on the example is 36. */
  lemma ScoreExample()
    ensures Part(ExampleText, false) == Some(36)
  {
    ParseExample();
    MapScore(ExampleGrid);
  }

  /** `test_rating`: part 2 on the example is 81. */
  lemma RatingExample()
    ensures Part(ExampleText, true) == Some(81)
  {
    ParseExample();
    MapRating(ExampleGrid);
  }
}
