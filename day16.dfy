/** Day 16, the reindeer maze: a weighted search over (row, column, facing)
    states.  Straight corridors are compressed into "splits": one split
    follows a corridor from a state until it forks or reaches the end.  A
    step that keeps the facing costs 1, a step that turns costs 1001, and a
    branch leaving a fork in a new direction costs 1000 more.  The search
    keeps the best weight of every state together with every source that
    reaches it at that weight, and a backward walk over those sources
    collects the cells of the cheapest routes. */
module ReindeerMaze {
  import opened Wrappers
  import opened Grid
  import Text

  datatype Tile = Wall | Corridor | Start | End

  datatype Direction = Up | Down | Left | Right

  /** Position of a direction in the order `corridors_at` tries them. */
  function DirIndex(d: Direction): nat {
    match d
    case Up => 0
    case Down => 1
    case Left => 2
    case Right => 3
  }

  function Negated(v: (int, int)): (int, int) {
    (-v.0, -v.1)
  }

  /** `Direction::to_delta`: a unit step along exactly one axis. */
  function ToDelta(d: Direction): (r: (int, int))
    ensures (r.0 == 0) != (r.1 == 0)
    ensures -1 <= r.0 <= 1 && -1 <= r.1 <= 1
  {
    match d
    case Up => (-1, 0)
    case Down => (1, 0)
    case Left => (0, -1)
    case Right => (0, 1)
  }

  /** `Direction::is_opposite`: true exactly when the two deltas cancel. */
  function IsOpposite(a: Direction, b: Direction): (r: bool)
    ensures r <==> Negated(ToDelta(a)) == ToDelta(b)
  {
    match (a, b)
    case (Up, Down) => true
    case (Down, Up) => true
    case (Left, Right) => true
    case (Right, Left) => true
    case _ => false
  }

  /** Opposition is symmetric and irreflexive, and every direction has
      exactly one opposite. */
  lemma OppositeProperties(a: Direction, b: Direction, c: Direction)
    ensures IsOpposite(a, b) == IsOpposite(b, a)
    ensures !IsOpposite(a, a)
    ensures IsOpposite(a, b) && IsOpposite(a, c) ==> b == c
    ensures exists d :: IsOpposite(a, d)
  {
    var d := match a case Up => Down case Down => Up case Left => Right case Right => Left;
    assert IsOpposite(a, d);
  }

  /** Different directions step differently. */
  lemma DeltaInjective(a: Direction, b: Direction)
    ensures ToDelta(a) == ToDelta(b) ==> a == b
  {
  }

  /** `Direction::add_delta` on unbounded coordinates: a step off the top
      or left edge gives a negative coordinate, which no lookup accepts
      (the source's `as usize` wraps it to a huge value instead). */
  function AddDelta(d: Direction, x: int, y: int): Point {
    (x + ToDelta(d).0, y + ToDelta(d).1)
  }

  /** `Tile::from`: None for a character the source panics on. */
  function TileFromChar(c: char): (r: Option<Tile>)
    ensures r.Some? <==> c in {'#', '.', 'S', 'E'}
    ensures r.Some? ==> TileToChar(r.value) == c
  {
    match c
    case '#' => Some(Wall)
    case '.' => Some(Corridor)
    case 'S' => Some(Start)
    case 'E' => Some(End)
    case _ => None
  }

  /** The character `Display` writes for a tile. */
  function TileToChar(t: Tile): char {
    match t
    case Wall => '#'
    case Corridor => '.'
    case Start => 'S'
    case End => 'E'
  }

  /** Displaying a tile and reading it back gives the tile. */
  lemma TileCharRoundTrip(t: Tile)
    ensures TileFromChar(TileToChar(t)) == Some(t)
  {
  }

  /** A search state: (row, column, facing). */
  datatype State = State(x: int, y: int, dir: Direction)

  datatype Maze = Maze(tiles: seq<seq<Tile>>, position: State, end: Point)

  /** `Maze::from`: the map, a start fixed at (height - 2, 1) facing right
      and an end fixed at (1, height - 2).  None when a character is not a
      tile, or when the map has fewer than two rows (where `height - 2`
      underflows). */
  function MazeFrom(s: string): (r: Option<Maze>)
    ensures r.Some? ==> var h := |r.value.tiles|;
      h >= 2 && r.value.position == State(h - 2, 1, Right) && r.value.end == (1, h - 2)
    ensures r.Some? ==> ParseGrid(Text.Lines(s), TileFromChar) == Some(r.value.tiles)
    ensures r.None? <==>
      ParseGrid(Text.Lines(s), TileFromChar).None? || |Text.Lines(s)| < 2
  {
    match ParseGrid(Text.Lines(s), TileFromChar)
    case None => None
    case Some(g) =>
      if |g| < 2 then None
      else Some(Maze(g, State(|g| - 2, 1, Right), (1, |g| - 2)))
  }

  /** A tile the reindeer may walk onto: a corridor or the end. */
  predicate IsOpen(m: seq<seq<Tile>>, p: Point) {
    InBounds(m, p) && (m[p.0][p.1] == Corridor || m[p.0][p.1] == End)
  }

  /** The corridor `corridors_at` offers in direction d, if any. */
  function Candidate(m: seq<seq<Tile>>, x: int, y: int, facing: Direction, d: Direction): seq<(Point, Direction)> {
    if !IsOpposite(facing, d) && IsOpen(m, AddDelta(d, x, y)) then [(AddDelta(d, x, y), d)] else []
  }

  /** `Maze::corridors_at`: the open neighbours of (x, y) other than the
      one behind the reindeer, each with the direction that reaches it, in
      the order up, down, left, right. */
  function CorridorsAt(m: seq<seq<Tile>>, x: int, y: int, facing: Direction): (r: seq<(Point, Direction)>)
    ensures |r| <= 3
    ensures forall e :: e in r ==>
      !IsOpposite(facing, e.1) && e.0 == AddDelta(e.1, x, y) && IsOpen(m, e.0)
    ensures forall d :: !IsOpposite(facing, d) && IsOpen(m, AddDelta(d, x, y)) ==> (AddDelta(d, x, y), d) in r
    ensures forall j, k :: 0 <= j < k < |r| ==> DirIndex(r[j].1) < DirIndex(r[k].1)
  {
    CorridorsUnrolled(m, x, y, facing);
    CandidatesOffered(m, x, y, facing);
    FourInOrder(Candidate(m, x, y, facing, Up), Candidate(m, x, y, facing, Down),
      Candidate(m, x, y, facing, Left), Candidate(m, x, y, facing, Right));
    CorridorsAmong(m, x, y, facing, 4)
  }

  lemma CorridorsUnrolled(m: seq<seq<Tile>>, x: int, y: int, facing: Direction)
    ensures CorridorsAmong(m, x, y, facing, 4) == Candidate(m, x, y, facing, Up) + Candidate(m, x, y, facing, Down)
      + Candidate(m, x, y, facing, Left) + Candidate(m, x, y, facing, Right)
  {
    assert CorridorsAmong(m, x, y, facing, 1) == Candidate(m, x, y, facing, Up);
    assert CorridorsAmong(m, x, y, facing, 2) == CorridorsAmong(m, x, y, facing, 1) + Candidate(m, x, y, facing, Down);
    assert CorridorsAmong(m, x, y, facing, 3) == CorridorsAmong(m, x, y, facing, 2) + Candidate(m, x, y, facing, Left);
    assert CorridorsAmong(m, x, y, facing, 4) == CorridorsAmong(m, x, y, facing, 3) + Candidate(m, x, y, facing, Right);
  }

  /** The four candidates hold at most three moves, every move they hold
      is offered, and every offered move is among them. */
  lemma CandidatesOffered(m: seq<seq<Tile>>, x: int, y: int, facing: Direction)
    ensures var r := Candidate(m, x, y, facing, Up) + Candidate(m, x, y, facing, Down)
      + Candidate(m, x, y, facing, Left) + Candidate(m, x, y, facing, Right);
      && |r| <= 3
      && (forall e :: e in r ==> !IsOpposite(facing, e.1) && e.0 == AddDelta(e.1, x, y) && IsOpen(m, e.0))
      && (forall d :: !IsOpposite(facing, d) && IsOpen(m, AddDelta(d, x, y)) ==> (AddDelta(d, x, y), d) in r)
  {
    var c0, c1, c2, c3 := Candidate(m, x, y, facing, Up), Candidate(m, x, y, facing, Down),
      Candidate(m, x, y, facing, Left), Candidate(m, x, y, facing, Right);
    if facing == Up { assert c1 == []; }
    else if facing == Down { assert c0 == []; }
    else if facing == Left { assert c3 == []; }
    else { assert c2 == []; }
  }

  /** The order `corridors_at` tries directions in. */
  const Directions: seq<Direction> := [Up, Down, Left, Right]

  /** The corridors offered among the first n of `Directions`. */
  function CorridorsAmong(m: seq<seq<Tile>>, x: int, y: int, facing: Direction, n: nat): seq<(Point, Direction)>
    requires n <= 4
  {
    if n == 0 then [] else CorridorsAmong(m, x, y, facing, n - 1) + Candidate(m, x, y, facing, Directions[n - 1])
  }

  /** Four at-most-singleton lists, one per direction, concatenated in
      direction order, are in direction order. */
  lemma FourInOrder(c0: seq<(Point, Direction)>, c1: seq<(Point, Direction)>,
                    c2: seq<(Point, Direction)>, c3: seq<(Point, Direction)>)
    requires |c0| <= 1 && |c1| <= 1 && |c2| <= 1 && |c3| <= 1
    requires forall e :: e in c0 ==> e.1 == Up
    requires forall e :: e in c1 ==> e.1 == Down
    requires forall e :: e in c2 ==> e.1 == Left
    requires forall e :: e in c3 ==> e.1 == Right
    ensures var r := c0 + c1 + c2 + c3;
      forall j, k :: 0 <= j < k < |r| ==> DirIndex(r[j].1) < DirIndex(r[k].1)
  {
    var r := c0 + c1 + c2 + c3;
    var ranks := seq(|c0|, _ => 0) + seq(|c1|, _ => 1) + seq(|c2|, _ => 2) + seq(|c3|, _ => 3);
    forall i | 0 <= i < |r| ensures DirIndex(r[i].1) == ranks[i] {
      if i < |c0| { assert r[i] in c0; }
      else if i < |c0| + |c1| { assert r[i] == c1[i - |c0|]; assert r[i] in c1; }
      else if i < |c0| + |c1| + |c2| { assert r[i] == c2[i - |c0| - |c1|]; assert r[i] in c2; }
      else { assert r[i] == c3[i - |c0| - |c1| - |c2|]; assert r[i] in c3; }
    }
  }

  /** A corridor segment found by `reachable_splits`: the state it ends in,
      its weight, and the cells it passes (starting with the origin). */
  datatype Split = Split(x: int, y: int, dir: Direction, weight: nat, path: seq<Point>)

  function SplitState(sp: Split): State {
    State(sp.x, sp.y, sp.dir)
  }

  /** The cost of one step: 1 when the facing is kept, 1001 when it turns. */
  function StepCost(from: Direction, to: Direction): nat {
    if from == to then 1 else 1001
  }

  /** The splits leaving a fork at `point`: one per open direction, 1000
      dearer when it turns away from the arriving direction `dir`. */
  function Branches(point: Point, dir: Direction, weight: nat, visited: seq<Point>,
                    next: seq<(Point, Direction)>): (r: seq<Split>)
    ensures |r| == |next|
  {
    seq(|next|, k requires 0 <= k < |next| =>
      Split(point.0, point.1, next[k].1, if next[k].1 != dir then weight + 1000 else weight, visited))
  }

  /** The inner `loop` of `reachable_splits` as written: the reindeer
      stands on `point` facing `dir`, having paid `weight` and passed
      `visited`.  The end tile is only recognised after a step along a
      straight corridor, so a walk whose first cell is the end tile walks
      on past it. */
  function FollowAsWritten(m: seq<seq<Tile>>, point: Point, dir: Direction, weight: nat,
                           visited: seq<Point>, fuel: nat): seq<Split>
    decreases fuel
  {
    if fuel == 0 then []
    else
      var visited' := visited + [point];
      var next := CorridorsAt(m, point.0, point.1, dir);
      if |next| == 1 then
        var w := weight + StepCost(dir, next[0].1);
        if At(m, next[0].0) == Some(End) then [Split(next[0].0.0, next[0].0.1, next[0].1, w, visited')]
        else FollowAsWritten(m, next[0].0, next[0].1, w, visited', fuel - 1)
      else if |next| == 0 then []
      else Branches(point, dir, weight, visited', next)
  }

  /** The inner loop with the end tile recognised wherever the walk stands
      on it, the first cell included.  At most `fuel` iterations are
      followed; when the fuel runs out the walk yields nothing. */
  function Follow(m: seq<seq<Tile>>, point: Point, dir: Direction, weight: nat,
                  visited: seq<Point>, fuel: nat): seq<Split>
    decreases fuel
  {
    if fuel == 0 then []
    else if At(m, point) == Some(End) then [Split(point.0, point.1, dir, weight, visited)]
    else
      var visited' := visited + [point];
      var next := CorridorsAt(m, point.0, point.1, dir);
      if |next| == 1 then
        var w := weight + StepCost(dir, next[0].1);
        if At(m, next[0].0) == Some(End) then [Split(next[0].0.0, next[0].0.1, next[0].1, w, visited')]
        else Follow(m, next[0].0, next[0].1, w, visited', fuel - 1)
      else if |next| == 0 then []
      else Branches(point, dir, weight, visited', next)
  }

  /** The splits of the first `|cs|` corridors offered at (x, y). */
  function SplitsOf(m: seq<seq<Tile>>, x: int, y: int, facing: Direction,
                    cs: seq<(Point, Direction)>, fuel: nat): seq<Split>
  {
    if |cs| == 0 then []
    else
      var c := cs[|cs| - 1];
      SplitsOf(m, x, y, facing, cs[..|cs| - 1], fuel) + Follow(m, c.0, c.1, StepCost(facing, c.1), [(x, y)], fuel)
  }

  /** `Maze::reachable_splits` as a function of the state, built on the
      corrected walk `Follow` rather than on `FollowAsWritten`. */
  function Splits(m: seq<seq<Tile>>, s: State, fuel: nat): seq<Split> {
    SplitsOf(m, s.x, s.y, s.dir, CorridorsAt(m, s.x, s.y, s.dir), fuel)
  }

  /** Two cells one orthogonal step apart. */
  predicate Adjacent(p: Point, q: Point) {
    exists d :: q == AddDelta(d, p.0, p.1)
  }

  /** What every split of `Follow` satisfies: its path extends `visited`,
      it ends on an open cell, and every step costs at least 1. */
  ghost predicate SplitShape(m: seq<seq<Tile>>, visited: seq<Point>, weight: nat, sp: Split) {
    && |visited| > 0
    && |sp.path| >= |visited|
    && sp.path[..|visited|] == visited
    && sp.weight >= weight && sp.weight + |visited| + 1 >= weight + |sp.path|
    && IsOpen(m, (sp.x, sp.y))
    && (forall i :: |visited| <= i < |sp.path| ==> IsOpen(m, sp.path[i]))
    && (forall i :: |visited| <= i < |sp.path| ==> Adjacent(sp.path[i - 1], sp.path[i]))
    && ((sp.x, sp.y) == sp.path[|sp.path| - 1] || Adjacent(sp.path[|sp.path| - 1], (sp.x, sp.y)))
  }

  lemma {:induction false} FollowShape(m: seq<seq<Tile>>, point: Point, dir: Direction, weight: nat,
                                       visited: seq<Point>, fuel: nat, sp: Split)
    requires |visited| > 0 && Adjacent(visited[|visited| - 1], point) && IsOpen(m, point)
    requires sp in Follow(m, point, dir, weight, visited, fuel)
    ensures SplitShape(m, visited, weight, sp)
    decreases fuel
  {
    var next := CorridorsAt(m, point.0, point.1, dir);
    if At(m, point) == Some(End) {
      StartShape(m, point, dir, weight, visited, fuel, sp);
    } else if |next| == 1 {
      var (q, d) := next[0];
      var w := weight + StepCost(dir, d);
      StraightOpen(m, point, dir);
      if At(m, q) != Some(End) {
        FollowStraight(m, point, dir, weight, visited, fuel, sp);
        FollowShape(m, q, d, w, visited + [point], fuel - 1, sp);
        ShapeWeaken(m, visited, point, weight, w, sp);
      } else {
        StraightEndShape(m, point, dir, weight, visited, fuel, sp);
      }
    } else {
      ForkShape(m, point, dir, weight, visited, next, sp);
    }
  }

  /** A walk started on the end tile yields the split standing there. */
  lemma StartShape(m: seq<seq<Tile>>, point: Point, dir: Direction, weight: nat,
                   visited: seq<Point>, fuel: nat, sp: Split)
    requires |visited| > 0 && Adjacent(visited[|visited| - 1], point) && IsOpen(m, point)
    requires sp in Follow(m, point, dir, weight, visited, fuel) && At(m, point) == Some(End)
    ensures SplitShape(m, visited, weight, sp)
  {
    assert sp == Split(point.0, point.1, dir, weight, visited);
    assert sp.path[..|visited|] == visited;
  }

  /** The one corridor offered along a straight stretch is a step away. */
  lemma StraightOpen(m: seq<seq<Tile>>, point: Point, dir: Direction)
    requires |CorridorsAt(m, point.0, point.1, dir)| == 1
    ensures var (q, d) := CorridorsAt(m, point.0, point.1, dir)[0];
      Adjacent(point, q) && IsOpen(m, q)
  {
    var next := CorridorsAt(m, point.0, point.1, dir);
    assert next[0] in next;
  }

  /** A straight step onto the end tile yields the split standing there. */
  lemma StraightEndShape(m: seq<seq<Tile>>, point: Point, dir: Direction, weight: nat,
                         visited: seq<Point>, fuel: nat, sp: Split)
    requires |visited| > 0 && Adjacent(visited[|visited| - 1], point) && IsOpen(m, point)
    requires sp in Follow(m, point, dir, weight, visited, fuel) && At(m, point) != Some(End)
    requires |CorridorsAt(m, point.0, point.1, dir)| == 1
    requires At(m, CorridorsAt(m, point.0, point.1, dir)[0].0) == Some(End)
    ensures SplitShape(m, visited, weight, sp)
  {
    var (q, d) := CorridorsAt(m, point.0, point.1, dir)[0];
    StraightOpen(m, point, dir);
    assert sp == Split(q.0, q.1, d, weight + StepCost(dir, d), visited + [point]);
    EndShape(m, visited, point, weight, weight + StepCost(dir, d), q, d);
  }

  /** Along a straight corridor, `Follow` continues from the next cell. */
  lemma FollowStraight(m: seq<seq<Tile>>, point: Point, dir: Direction, weight: nat,
                       visited: seq<Point>, fuel: nat, sp: Split)
    requires sp in Follow(m, point, dir, weight, visited, fuel)
    requires At(m, point) != Some(End) && |CorridorsAt(m, point.0, point.1, dir)| == 1
    requires At(m, CorridorsAt(m, point.0, point.1, dir)[0].0) != Some(End)
    ensures fuel > 0
    ensures var (q, d) := CorridorsAt(m, point.0, point.1, dir)[0];
      sp in Follow(m, q, d, weight + StepCost(dir, d), visited + [point], fuel - 1)
  {
  }

  lemma ForkShape(m: seq<seq<Tile>>, point: Point, dir: Direction, weight: nat,
                  visited: seq<Point>, next: seq<(Point, Direction)>, sp: Split)
    requires |visited| > 0 && Adjacent(visited[|visited| - 1], point) && IsOpen(m, point)
    requires sp in Branches(point, dir, weight, visited + [point], next)
    ensures SplitShape(m, visited, weight, sp)
  {
    var k :| 0 <= k < |next| && sp == Branches(point, dir, weight, visited + [point], next)[k];
    assert sp.path == visited + [point] && (sp.x, sp.y) == point;
    assert sp.path[..|visited|] == visited;
  }

  lemma ShapeWeaken(m: seq<seq<Tile>>, visited: seq<Point>, point: Point, weight: nat, w: nat, sp: Split)
    requires w >= weight + 1 && |visited| > 0
    requires Adjacent(visited[|visited| - 1], point) && IsOpen(m, point)
    requires SplitShape(m, visited + [point], w, sp)
    ensures SplitShape(m, visited, weight, sp)
  {
    var visited' := visited + [point];
    assert sp.path[..|visited|] == sp.path[..|visited'|][..|visited|];
    assert sp.path[|visited|] == point;
  }

  lemma EndShape(m: seq<seq<Tile>>, visited: seq<Point>, point: Point, weight: nat, w: nat, q: Point, d: Direction)
    requires w >= weight && |visited| > 0
    requires Adjacent(visited[|visited| - 1], point) && IsOpen(m, point)
    requires Adjacent(point, q) && IsOpen(m, q)
    ensures SplitShape(m, visited, weight, Split(q.0, q.1, d, w, visited + [point]))
  {
    assert (visited + [point])[..|visited|] == visited;
  }

  /** Every split of a state starts its path at the state's cell, moves by
      orthogonal steps over open cells, ends on an open cell, and weighs at
      least one unit per step. */
  lemma SplitsShape(m: seq<seq<Tile>>, s: State, fuel: nat, sp: Split)
    requires sp in Splits(m, s, fuel)
    ensures |sp.path| >= 1 && sp.path[0] == (s.x, s.y)
    ensures sp.weight + 2 >= |sp.path| && sp.weight >= 1
    ensures IsOpen(m, (sp.x, sp.y))
    ensures forall i :: 1 <= i < |sp.path| ==> IsOpen(m, sp.path[i]) && Adjacent(sp.path[i - 1], sp.path[i])
  {
    SplitsOfShape(m, s.x, s.y, s.dir, CorridorsAt(m, s.x, s.y, s.dir), fuel, sp);
  }

  lemma {:induction false} SplitsOfShape(m: seq<seq<Tile>>, x: int, y: int, facing: Direction,
                                         cs: seq<(Point, Direction)>, fuel: nat, sp: Split)
    requires forall e :: e in cs ==> e.0 == AddDelta(e.1, x, y) && IsOpen(m, e.0)
    requires sp in SplitsOf(m, x, y, facing, cs, fuel)
    ensures |sp.path| >= 1 && sp.path[0] == (x, y)
    ensures sp.weight + 2 >= |sp.path| && sp.weight >= 1
    ensures IsOpen(m, (sp.x, sp.y))
    ensures forall i :: 1 <= i < |sp.path| ==> IsOpen(m, sp.path[i]) && Adjacent(sp.path[i - 1], sp.path[i])
  {
    var c := cs[|cs| - 1];
    assert c in cs;
    assert forall e :: e in cs[..|cs| - 1] ==> e in cs;
    if sp in SplitsOf(m, x, y, facing, cs[..|cs| - 1], fuel) {
      SplitsOfShape(m, x, y, facing, cs[..|cs| - 1], fuel, sp);
    } else {
      assert Adjacent((x, y), c.0);
      FollowShape(m, c.0, c.1, StepCost(facing, c.1), [(x, y)], fuel, sp);
      assert SplitShape(m, [(x, y)], StepCost(facing, c.1), sp);
      assert sp.path[..1] == [(x, y)];
    }
  }

  /** A dead end yields no split. */
  lemma DeadEnd(m: seq<seq<Tile>>, s: State, fuel: nat)
    requires CorridorsAt(m, s.x, s.y, s.dir) == []
    ensures Splits(m, s, fuel) == []
  {
  }

  /** The inner loop comes to rest within `fuel` iterations: it stands on
      the end tile, steps onto it, or meets a dead end or a fork before the
      fuel runs out.  Whether it does depends on the cell and the facing
      only, not on the weight or the cells passed. */
  predicate Settles(m: seq<seq<Tile>>, point: Point, dir: Direction, fuel: nat)
    decreases fuel
  {
    && fuel > 0
    && (|| At(m, point) == Some(End)
        || var next := CorridorsAt(m, point.0, point.1, dir);
           || |next| != 1
           || At(m, next[0].0) == Some(End)
           || Settles(m, next[0].0, next[0].1, fuel - 1))
  }

  /** A walk that has not come to rest when the fuel runs out yields
      nothing, so every walk that yields a split has come to rest. */
  lemma {:induction false} FollowUnsettled(m: seq<seq<Tile>>, point: Point, dir: Direction, weight: nat,
                                           visited: seq<Point>, fuel: nat)
    requires !Settles(m, point, dir, fuel)
    ensures Follow(m, point, dir, weight, visited, fuel) == []
    decreases fuel
  {
    if fuel > 0 {
      var next := CorridorsAt(m, point.0, point.1, dir);
      FollowUnsettled(m, next[0].0, next[0].1, weight + StepCost(dir, next[0].1), visited + [point], fuel - 1);
    }
  }

  /** More fuel never stops a walk from coming to rest. */
  lemma {:induction false} SettlesMore(m: seq<seq<Tile>>, point: Point, dir: Direction, fuel: nat, more: nat)
    requires Settles(m, point, dir, fuel) && fuel <= more
    ensures Settles(m, point, dir, more)
    decreases fuel
  {
    var next := CorridorsAt(m, point.0, point.1, dir);
    if At(m, point) != Some(End) && |next| == 1 && At(m, next[0].0) != Some(End) {
      SettlesMore(m, next[0].0, next[0].1, fuel - 1, more - 1);
    }
  }

  /** Fuel adequacy: once a walk comes to rest within `fuel` iterations,
      any larger bound gives the same splits, which are then those of the
      unbounded loop. */
  lemma {:induction false} FollowEnough(m: seq<seq<Tile>>, point: Point, dir: Direction, weight: nat,
                                        visited: seq<Point>, fuel: nat, more: nat)
    requires Settles(m, point, dir, fuel) && fuel <= more
    ensures Follow(m, point, dir, weight, visited, more) == Follow(m, point, dir, weight, visited, fuel)
    decreases fuel
  {
    var next := CorridorsAt(m, point.0, point.1, dir);
    FollowUnfold(m, point, dir, weight, visited, fuel);
    FollowUnfold(m, point, dir, weight, visited, more);
    if At(m, point) != Some(End) && |next| == 1 && At(m, next[0].0) != Some(End) {
      FollowEnough(m, next[0].0, next[0].1, weight + StepCost(dir, next[0].1), visited + [point], fuel - 1, more - 1);
    }
  }

  /** When every corridor offered at x, y comes to rest within `fuel`
      iterations, any larger bound gives the same splits. */
  lemma {:induction false} SplitsOfEnough(m: seq<seq<Tile>>, x: int, y: int, facing: Direction,
                                          cs: seq<(Point, Direction)>, fuel: nat, more: nat)
    requires fuel <= more && forall e :: e in cs ==> Settles(m, e.0, e.1, fuel)
    ensures SplitsOf(m, x, y, facing, cs, more) == SplitsOf(m, x, y, facing, cs, fuel)
  {
    if |cs| > 0 {
      var c := cs[|cs| - 1];
      assert c in cs;
      assert forall e :: e in cs[..|cs| - 1] ==> e in cs;
      SplitsOfEnough(m, x, y, facing, cs[..|cs| - 1], fuel, more);
      FollowEnough(m, c.0, c.1, StepCost(facing, c.1), [(x, y)], fuel, more);
    }
  }

  /** `reachable_splits` of a state whose corridors all come to rest within
      `fuel` iterations is the same under any larger bound. */
  lemma SplitsEnough(m: seq<seq<Tile>>, s: State, fuel: nat, more: nat)
    requires fuel <= more
    requires forall e :: e in CorridorsAt(m, s.x, s.y, s.dir) ==> Settles(m, e.0, e.1, fuel)
    ensures Splits(m, s, more) == Splits(m, s, fuel)
  {
    SplitsOfEnough(m, s.x, s.y, s.dir, CorridorsAt(m, s.x, s.y, s.dir), fuel, more);
  }

  /** A two-by-two open block walled in on every side: the map of
      "####", "#..#", "#..#", "####". */
  const Circuit: seq<seq<Tile>> := [
    [Wall, Wall, Wall, Wall],
    [Wall, Corridor, Corridor, Wall],
    [Wall, Corridor, Corridor, Wall],
    [Wall, Wall, Wall, Wall]]

  /** The cells of a map around (1, 1) to (2, 2) that make that block. */
  predicate WalledBlock(m: seq<seq<Tile>>) {
    && At(m, (1, 1)) == Some(Corridor) && At(m, (1, 2)) == Some(Corridor)
    && At(m, (2, 1)) == Some(Corridor) && At(m, (2, 2)) == Some(Corridor)
    && At(m, (0, 1)) == Some(Wall) && At(m, (0, 2)) == Some(Wall)
    && At(m, (3, 1)) == Some(Wall) && At(m, (3, 2)) == Some(Wall)
    && At(m, (1, 0)) == Some(Wall) && At(m, (2, 0)) == Some(Wall)
    && At(m, (1, 3)) == Some(Wall) && At(m, (2, 3)) == Some(Wall)
  }

  lemma CircuitWalled()
    ensures WalledBlock(Circuit)
  {
    var m := Circuit;
    assert m[0][1] == Wall && m[0][2] == Wall && m[3][1] == Wall && m[3][2] == Wall;
    assert m[1][0] == Wall && m[2][0] == Wall && m[1][3] == Wall && m[2][3] == Wall;
    assert m[1][1] == Corridor && m[1][2] == Corridor && m[2][1] == Corridor && m[2][2] == Corridor;
  }

  /** The walk round that block: each state's only corridor leads to the
      next state, and the fourth leads back to the first. */
  function CircuitNext(p: Point, d: Direction): (Point, Direction) {
    if (p, d) == ((1, 1), Up) then ((1, 2), Right)
    else if (p, d) == ((1, 2), Right) then ((2, 2), Down)
    else if (p, d) == ((2, 2), Down) then ((2, 1), Left)
    else ((1, 1), Up)
  }

  predicate OnCircuit(p: Point, d: Direction) {
    || (p, d) == ((1, 1), Up) || (p, d) == ((1, 2), Right)
    || (p, d) == ((2, 2), Down) || (p, d) == ((2, 1), Left)
  }

  /** On the block, every state of the circuit is offered exactly the next
      state of the circuit, which is no end tile. */
  lemma CircuitCorridors(m: seq<seq<Tile>>, p: Point, d: Direction)
    requires WalledBlock(m) && OnCircuit(p, d)
    ensures CorridorsAt(m, p.0, p.1, d) == [CircuitNext(p, d)]
    ensures OnCircuit(CircuitNext(p, d).0, CircuitNext(p, d).1)
    ensures At(m, p) == Some(Corridor)
  {
    if (p, d) == ((1, 1), Up) { CircuitTopLeft(m); }
    else if (p, d) == ((1, 2), Right) { CircuitTopRight(m); }
    else if (p, d) == ((2, 2), Down) { CircuitBottomRight(m); }
    else { CircuitBottomLeft(m); }
  }

  lemma CircuitTopLeft(m: seq<seq<Tile>>)
    requires WalledBlock(m)
    ensures CorridorsAt(m, 1, 1, Up) == [((1, 2), Right)]
  {
    OneCorridor(m, 1, 1, Up, Right);
  }

  lemma CircuitTopRight(m: seq<seq<Tile>>)
    requires WalledBlock(m)
    ensures CorridorsAt(m, 1, 2, Right) == [((2, 2), Down)]
  {
    OneCorridor(m, 1, 2, Right, Down);
  }

  lemma CircuitBottomRight(m: seq<seq<Tile>>)
    requires WalledBlock(m)
    ensures CorridorsAt(m, 2, 2, Down) == [((2, 1), Left)]
  {
    OneCorridor(m, 2, 2, Down, Left);
  }

  lemma CircuitBottomLeft(m: seq<seq<Tile>>)
    requires WalledBlock(m)
    ensures CorridorsAt(m, 2, 1, Left) == [((1, 1), Up)]
  {
    OneCorridor(m, 2, 1, Left, Up);
  }

  /** A cell with exactly one open neighbour other than the one behind is
      offered that neighbour alone. */
  lemma OneCorridor(m: seq<seq<Tile>>, x: int, y: int, facing: Direction, d: Direction)
    requires !IsOpposite(facing, d) && IsOpen(m, AddDelta(d, x, y))
    requires forall e :: e != d && !IsOpposite(facing, e) ==> !IsOpen(m, AddDelta(e, x, y))
    ensures CorridorsAt(m, x, y, facing) == [(AddDelta(d, x, y), d)]
  {
    CorridorsUnrolled(m, x, y, facing);
    forall e | e != d ensures Candidate(m, x, y, facing, e) == [] {
    }
  }

  /** On a cell other than the end tile with a single corridor that does
      not lead onto the end tile, the walk comes to rest exactly when it
      does from the next cell with one iteration less. */
  lemma SettlesStraight(m: seq<seq<Tile>>, p: Point, d: Direction, q: Point, e: Direction, fuel: nat)
    requires fuel > 0 && At(m, p) != Some(End) && At(m, q) != Some(End)
    requires CorridorsAt(m, p.0, p.1, d) == [(q, e)]
    ensures Settles(m, p, d, fuel) == Settles(m, q, e, fuel - 1)
  {
  }

  /** Round such a block the inner loop never comes to rest: no bound on
      its iterations is enough, so the source's loop does not terminate on
      a map that sends a walk into the block. */
  lemma {:induction false} BlockNeverSettles(m: seq<seq<Tile>>, p: Point, d: Direction, fuel: nat)
    requires WalledBlock(m) && OnCircuit(p, d)
    ensures !Settles(m, p, d, fuel)
    decreases fuel
  {
    if fuel > 0 {
      var (q, e) := CircuitNext(p, d);
      CircuitCorridors(m, p, d);
      CircuitCorridors(m, q, e);
      BlockNeverSettles(m, q, e, fuel - 1);
      SettlesStraight(m, p, d, q, e, fuel);
    }
  }

  /** On the walled-in block, the walk from (1, 1) facing up yields no
      split under any bound. */
  lemma CircuitNeverSettles(weight: nat, visited: seq<Point>, fuel: nat)
    ensures !Settles(Circuit, (1, 1), Up, fuel)
    ensures Follow(Circuit, (1, 1), Up, weight, visited, fuel) == []
  {
    CircuitWalled();
    BlockNeverSettles(Circuit, (1, 1), Up, fuel);
    FollowUnsettled(Circuit, (1, 1), Up, weight, visited, fuel);
  }

  /** A five-by-five maze whose only way onto the end is a branch that
      leaves the fork at (2, 3) facing up: the map of
      "#####", "#.#E#", "#...#", "#S#.#", "#####". */
  const EndBehindFork: seq<seq<Tile>> := [
    [Wall, Wall, Wall, Wall, Wall],
    [Wall, Corridor, Wall, End, Wall],
    [Wall, Corridor, Corridor, Corridor, Wall],
    [Wall, Start, Wall, Corridor, Wall],
    [Wall, Wall, Wall, Wall, Wall]]

  /** On that maze the state (2, 3) facing up is offered the end tile as a
      corridor, yet the walk as written steps onto it, finds no corridor
      beyond and yields nothing, while the corrected walk stops there. */
  lemma EndFirstStepMissed(fuel: nat)
    requires fuel > 0
    ensures (AddDelta(Up, 2, 3), Up) in CorridorsAt(EndBehindFork, 2, 3, Up)
    ensures At(EndBehindFork, AddDelta(Up, 2, 3)) == Some(End)
    ensures FollowAsWritten(EndBehindFork, (1, 3), Up, StepCost(Up, Up), [(2, 3)], fuel) == []
    ensures Follow(EndBehindFork, (1, 3), Up, StepCost(Up, Up), [(2, 3)], fuel) == [Split(1, 3, Up, 1, [(2, 3)])]
  {
    EndOffered();
    EndWalkedPast(fuel);
    FollowAtEnd(EndBehindFork, (1, 3), Up, StepCost(Up, Up), [(2, 3)], fuel);
  }

  /** Facing up at (2, 3) of that maze, the end tile is offered. */
  lemma EndOffered()
    ensures (AddDelta(Up, 2, 3), Up) in CorridorsAt(EndBehindFork, 2, 3, Up)
    ensures At(EndBehindFork, AddDelta(Up, 2, 3)) == Some(End)
  {
    assert EndBehindFork[1][3] == End;
    assert IsOpen(EndBehindFork, (1, 3));
  }

  /** The walk as written, started on the end tile of that maze, finds
      nothing beyond it. */
  lemma EndWalkedPast(fuel: nat)
    requires fuel > 0
    ensures FollowAsWritten(EndBehindFork, (1, 3), Up, StepCost(Up, Up), [(2, 3)], fuel) == []
  {
    BeyondTheEnd();
  }

  /** Facing up on the end tile of that maze, no corridor is offered. */
  lemma BeyondTheEnd()
    ensures CorridorsAt(EndBehindFork, 1, 3, Up) == []
  {
    var m := EndBehindFork;
    assert m[0][3] == Wall && m[1][2] == Wall && m[1][4] == Wall;
    assert Candidate(m, 1, 3, Up, Up) == [];
    assert Candidate(m, 1, 3, Up, Down) == [];
    assert Candidate(m, 1, 3, Up, Left) == [];
    assert Candidate(m, 1, 3, Up, Right) == [];
    CorridorsUnrolled(m, 1, 3, Up);
  }

  /** Every corridor offered at a state that steps straight onto the end
      tile yields a split at the end that costs that one step. */
  lemma SplitsReachEnd(m: seq<seq<Tile>>, s: State, fuel: nat, d: Direction)
    requires fuel > 0 && !IsOpposite(s.dir, d) && At(m, AddDelta(d, s.x, s.y)) == Some(End)
    ensures var q := AddDelta(d, s.x, s.y);
      Split(q.0, q.1, d, StepCost(s.dir, d), [(s.x, s.y)]) in Splits(m, s, fuel)
  {
    var q := AddDelta(d, s.x, s.y);
    var cs := CorridorsAt(m, s.x, s.y, s.dir);
    assert IsOpen(m, q);
    assert (q, d) in cs;
    var i :| 0 <= i < |cs| && cs[i] == (q, d);
    var sp := Split(q.0, q.1, d, StepCost(s.dir, d), [(s.x, s.y)]);
    FollowAtEnd(m, q, d, StepCost(s.dir, d), [(s.x, s.y)], fuel);
    SplitsOfIncludes(m, s.x, s.y, s.dir, cs, fuel, i, sp);
  }

  /** A walk that starts on the end tile stops there. */
  lemma FollowAtEnd(m: seq<seq<Tile>>, q: Point, d: Direction, weight: nat, visited: seq<Point>, fuel: nat)
    requires fuel > 0 && At(m, q) == Some(End)
    ensures Follow(m, q, d, weight, visited, fuel) == [Split(q.0, q.1, d, weight, visited)]
  {
  }

  /** The walk along the i-th offered corridor is part of the splits. */
  lemma {:induction false} SplitsOfIncludes(m: seq<seq<Tile>>, x: int, y: int, facing: Direction,
                                            cs: seq<(Point, Direction)>, fuel: nat, i: nat, sp: Split)
    requires i < |cs| && sp in Follow(m, cs[i].0, cs[i].1, StepCost(facing, cs[i].1), [(x, y)], fuel)
    ensures sp in SplitsOf(m, x, y, facing, cs, fuel)
  {
    if i < |cs| - 1 {
      assert cs[..|cs| - 1][i] == cs[i];
      SplitsOfIncludes(m, x, y, facing, cs[..|cs| - 1], fuel, i, sp);
    }
  }

  /** `Maze::reachable_splits` with the corrected walk: for every corridor
      offered at the state, walk it cell by cell until it forks, dead-ends
      or reaches the end, the end being recognised on the corridor's first
      cell too (the source misses it there; see `EndFirstStepMissed`). */
  method ReachableSplits(m: seq<seq<Tile>>, x: int, y: int, direction: Direction, reach: nat)
    returns (splits: seq<Split>)
    ensures splits == Splits(m, State(x, y, direction), reach)
  {
    var corridors := CorridorsAt(m, x, y, direction);
    splits := [];
    for i := 0 to |corridors|
      invariant splits == SplitsOf(m, x, y, direction, corridors[..i], reach)
    {
      var (point, dir) := corridors[i];
      var found := FollowCorridor(m, point, dir, StepCost(direction, dir), [(x, y)], reach);
      SplitsOfSnoc(m, x, y, direction, corridors, i, reach);
      splits := splits + found;
    }
    assert corridors[..|corridors|] == corridors;
  }

  /** `SplitsOf` of one more corridor appends that corridor's walk. */
  lemma SplitsOfSnoc(m: seq<seq<Tile>>, x: int, y: int, facing: Direction,
                     cs: seq<(Point, Direction)>, i: nat, fuel: nat)
    requires i < |cs|
    ensures SplitsOf(m, x, y, facing, cs[..i + 1], fuel)
      == SplitsOf(m, x, y, facing, cs[..i], fuel) + Follow(m, cs[i].0, cs[i].1, StepCost(facing, cs[i].1), [(x, y)], fuel)
  {
    assert cs[..i + 1][..i] == cs[..i];
  }

  /** The inner `loop` of `reachable_splits` as corrected: the end tile is
      tested at the top of every iteration, and at most `reach` iterations
      are taken. */
  method FollowCorridor(m: seq<seq<Tile>>, point0: Point, dir0: Direction, weight0: nat,
                        visited0: seq<Point>, reach: nat)
    returns (found: seq<Split>)
    ensures found == Follow(m, point0, dir0, weight0, visited0, reach)
  {
    var point, dir, visited := point0, dir0, visited0;
    var weight: nat := weight0;
    var steps: nat := 0;
    found := [];
    var done := false;
    while !done && steps < reach
      invariant steps <= reach
      invariant !done ==> found == []
      invariant !done ==> Follow(m, point, dir, weight, visited, reach - steps) == Follow(m, point0, dir0, weight0, visited0, reach)
      invariant done ==> found == Follow(m, point0, dir0, weight0, visited0, reach)
      decreases reach - steps
    {
      ghost var rest := reach - steps;
      ghost var here := (point, dir, weight, visited);
      steps := steps + 1;
      if At(m, point) == Some(End) {
        found := [Split(point.0, point.1, dir, weight, visited)];
        done := true;
        FollowUnfold(m, here.0, here.1, here.2, here.3, rest);
        continue;
      }
      visited := visited + [point];
      var next := CorridorsAt(m, point.0, point.1, dir);
      if |next| == 1 {
        weight := weight + StepCost(dir, next[0].1);
        point := next[0].0;
        dir := next[0].1;
        if At(m, point) == Some(End) {
          found := [Split(point.0, point.1, dir, weight, visited)];
          done := true;
        }
      } else if |next| == 0 {
        done := true;
      } else {
        found := ForkSplits(point, dir, weight, visited, next);
        done := true;
      }
      FollowUnfold(m, here.0, here.1, here.2, here.3, rest);
    }
  }

  /** One iteration of the inner loop of `reachable_splits`. */
  lemma FollowUnfold(m: seq<seq<Tile>>, point: Point, dir: Direction, weight: nat, visited: seq<Point>, fuel: nat)
    requires fuel > 0
    ensures var next := CorridorsAt(m, point.0, point.1, dir);
      Follow(m, point, dir, weight, visited, fuel) ==
        if At(m, point) == Some(End) then [Split(point.0, point.1, dir, weight, visited)]
        else if |next| == 1 then
          if At(m, next[0].0) == Some(End) then
            [Split(next[0].0.0, next[0].0.1, next[0].1, weight + StepCost(dir, next[0].1), visited + [point])]
          else Follow(m, next[0].0, next[0].1, weight + StepCost(dir, next[0].1), visited + [point], fuel - 1)
        else if |next| == 0 then []
        else Branches(point, dir, weight, visited + [point], next)
  {
  }

  /** The splits a fork pushes: one per way out, 1000 dearer when it turns
      away from the arriving direction. */
  method ForkSplits(point: Point, dir: Direction, weight: nat, visited: seq<Point>, next: seq<(Point, Direction)>)
    returns (found: seq<Split>)
    ensures found == Branches(point, dir, weight, visited, next)
  {
    found := [];
    for k := 0 to |next|
      invariant found == Branches(point, dir, weight, visited, next)[..k]
    {
      var ndir := next[k].1;
      found := found + [Split(point.0, point.1, ndir, if ndir != dir then weight + 1000 else weight, visited)];
    }
  }
}
