/** Day 18, "RAM Run": bytes fall one by one onto a 71 by 71 memory grid
    and turn cells into walls.  An A* search (a binary heap of nodes
    ordered by estimated total cost, Manhattan distance as the estimate,
    a visited table) finds how many steps lead from the top-left corner
    to the bottom-right one; part 2 keeps dropping bytes until no route
    is left and reports the byte that closed it. */
module Falling {
  import opened Wrappers
  import opened Grid
  import Text

  datatype Tile = Empty | Wall

  /** `Display for Tile`. */
  function TileChar(t: Tile): (c: char)
    ensures c == '.' <==> t == Empty
    ensures c == '#' <==> t == Wall
  {
    match t
    case Empty => '.'
    case Wall => '#'
  }

  const MapSize: nat := 71
  const Bytes: nat := 1024

  /** The corner the search runs to. */
  const Exit: Point := (MapSize - 1, MapSize - 1)

  lemma ManhattanSymmetric(a: Point, b: Point)
    ensures Manhattan(a, b) == Manhattan(b, a)
  {
  }

  lemma ManhattanTriangle(a: Point, b: Point, c: Point)
    ensures Manhattan(a, c) <= Manhattan(a, b) + Manhattan(b, c)
  {
  }

  /** The cardinal neighbours are exactly the points at distance one. */
  lemma StepDistance(p: Point, k: nat)
    requires k < 4
    ensures Manhattan(p, StepTo(p, k)) == 1
  {
  }

  lemma UnitStep(p: Point, q: Point) returns (k: nat)
    requires Manhattan(p, q) == 1
    ensures k < 4 && q == StepTo(p, k)
  {
    if q.0 < p.0 {
      k := 0;
    } else if q.0 > p.0 {
      k := 1;
    } else if q.1 < p.1 {
      k := 2;
    } else {
      k := 3;
    }
  }

  /** The estimate of a neighbour is never less than one step short: the
      Manhattan estimate is consistent, so estimates never drop along a
      route. */
  lemma EstimateConsistent(p: Point, k: nat, end: Point)
    requires k < 4
    ensures Manhattan(p, end) <= 1 + Manhattan(StepTo(p, k), end)
  {
    ManhattanTriangle(p, StepTo(p, k), end);
    StepDistance(p, k);
  }

  /** An entry of the search queue. */
  datatype Node = Node(position: Point, costSoFar: nat, estimate: nat)

  datatype Ordering = Less | Equal | Greater

  function Compare(a: nat, b: nat): Ordering {
    if a < b then Less else if a == b then Equal else Greater
  }

  /** `Ord for Node`: reversed on the estimated total cost, so that the
      greatest node is the one with the smallest estimate. */
  function NodeCmp(a: Node, b: Node): (r: Ordering)
    ensures r == Greater <==> a.estimate < b.estimate
    ensures r == Less <==> b.estimate < a.estimate
    ensures r == Equal <==> a.estimate == b.estimate
  {
    Compare(b.estimate, a.estimate)
  }

  /** The index of the node `BinaryHeap::pop` returns: a greatest node
      under `NodeCmp`.  Among equal nodes the heap's own choice is not
      modelled; this takes the first. */
  function Top(queue: seq<Node>): (i: nat)
    requires |queue| > 0
    ensures i < |queue|
    ensures forall j :: 0 <= j < |queue| ==> NodeCmp(queue[i], queue[j]) != Less
  {
    if |queue| == 1 then 0
    else
      var i := Top(queue[..|queue| - 1]);
      if queue[|queue| - 1].estimate < queue[i].estimate then |queue| - 1 else i
  }

  /** The heap pops a node of least estimate. */
  lemma TopLeast(queue: seq<Node>)
    requires |queue| > 0
    ensures forall j :: 0 <= j < |queue| ==> queue[Top(queue)].estimate <= queue[j].estimate
  {
    var i := Top(queue);
    forall j | 0 <= j < |queue|
      ensures queue[i].estimate <= queue[j].estimate
    {
      assert NodeCmp(queue[i], queue[j]) != Less;
    }
  }

  /** The queue with entry i taken out. */
  function Without<T>(s: seq<T>, i: nat): (r: seq<T>)
    requires i < |s|
    ensures |r| == |s| - 1
    ensures forall j :: 0 <= j < |r| ==> r[j] == if j < i then s[j] else s[j + 1]
    ensures multiset(r) + multiset{s[i]} == multiset(s)
  {
    assert s == s[..i] + [s[i]] + s[i + 1..];
    s[..i] + s[i + 1..]
  }

  /** A route through the memory: each step to a cardinal neighbour that is
      an empty cell of the grid.  The first cell is not checked, as the
      search does not check the corner it starts from. */
  ghost predicate IsRoute(grid: seq<seq<Tile>>, route: seq<Point>) {
    |route| >= 1 && forall i :: 0 < i < |route| ==> StepOk(grid, route, i)
  }

  /** Step i of a route goes to a cardinal neighbour that is empty. */
  ghost predicate StepOk(grid: seq<seq<Tile>>, route: seq<Point>, i: nat)
    requires 0 < i < |route|
  {
    Manhattan(route[i - 1], route[i]) == 1 && At(grid, route[i]) == Some(Empty)
  }

  /** A route of `steps` steps from the top-left corner to `end`. */
  ghost predicate RouteOf(grid: seq<seq<Tile>>, route: seq<Point>, end: Point, steps: nat) {
    IsRoute(grid, route) && route[0] == (0, 0) && route[|route| - 1] == end && |route| == steps + 1
  }

  /** No route from the top-left corner reaches `end`. */
  ghost predicate Unreachable(grid: seq<seq<Tile>>, end: Point) {
    forall route {:trigger IsRoute(grid, route)} {:trigger route[0]} ::
      IsRoute(grid, route) && route[0] == (0, 0) ==> route[|route| - 1] != end
  }

  ghost predicate HasRoute(grid: seq<seq<Tile>>, end: Point) {
    exists route, steps: nat :: RouteOf(grid, route, end, steps)
  }

  /** The cells of the `visited` table. */
  predicate InTable(p: Point) {
    0 <= p.0 < MapSize && 0 <= p.1 < MapSize
  }

  function TableCells(): set<Point> {
    set i, j | 0 <= i < MapSize && 0 <= j < MapSize :: (i, j)
  }

  lemma TableCellsMeans(p: Point)
    ensures p in TableCells() <==> InTable(p)
  {
    if InTable(p) {
      assert p == (p.0, p.1);
    }
  }

  /** The grid fits the `visited` table. */
  predicate FitsTable(grid: seq<seq<Tile>>) {
    |grid| <= MapSize && forall i :: 0 <= i < |grid| ==> |grid[i]| <= MapSize
  }

  /** Some queue entry is at p. */
  ghost predicate Queued(queue: seq<Node>, p: Point) {
    exists i :: 0 <= i < |queue| && queue[i].position == p
  }

  /** Queue entry `node` with its route: a route as long as its cost, and
      the estimate its cost plus the distance still to go. */
  ghost predicate Entry(grid: seq<seq<Tile>>, end: Point, node: Node, route: seq<Point>) {
    RouteOf(grid, route, node.position, node.costSoFar) &&
    node.estimate == node.costSoFar + Manhattan(node.position, end) && InTable(node.position)
  }

  /** Every queue entry with its route. */
  ghost predicate Entries(grid: seq<seq<Tile>>, end: Point, queue: seq<Node>, routes: seq<seq<Point>>) {
    |routes| == |queue| && forall i :: 0 <= i < |queue| ==> Entry(grid, end, queue[i], routes[i])
  }

  /** The end never visited, the start visited or queued, and every empty
      neighbour of a visited cell visited or queued. */
  ghost predicate Frontier(grid: seq<seq<Tile>>, end: Point, queue: seq<Node>, seen: set<Point>) {
    end !in seen && seen <= TableCells() &&
    ((0, 0) in seen || Queued(queue, (0, 0))) &&
    forall v, k :: v in seen && 0 <= k < 4 && At(grid, StepTo(v, k)) == Some(Empty) ==>
      StepTo(v, k) in seen || Queued(queue, StepTo(v, k))
  }

  /** The state of `shortest_path`'s loop. */
  ghost predicate Searching(grid: seq<seq<Tile>>, end: Point, queue: seq<Node>, routes: seq<seq<Point>>, seen: set<Point>) {
    Entries(grid, end, queue, routes) && Frontier(grid, end, queue, seen)
  }

  /** The `visited` table: MapSize rows of MapSize flags. */
  predicate IsTable(visited: seq<seq<bool>>) {
    |visited| == MapSize && forall i :: 0 <= i < MapSize ==> |visited[i]| == MapSize
  }

  /** The `visited` table holds exactly the cells in `seen`. */
  ghost predicate Mirrors(visited: seq<seq<bool>>, seen: set<Point>) {
    IsTable(visited) &&
    forall i, j :: 0 <= i < MapSize && 0 <= j < MapSize ==> (visited[i][j] <==> (i, j) in seen)
  }

  /** Marking p in the table adds p to the cells it mirrors. */
  lemma MarkMirrors(visited: seq<seq<bool>>, seen: set<Point>, p: Point)
    requires InTable(p) && Mirrors(visited, seen)
    ensures Mirrors(visited[p.0 := visited[p.0][p.1 := true]], seen + {p})
  {
    var after := visited[p.0 := visited[p.0][p.1 := true]];
    forall i, j | 0 <= i < MapSize && 0 <= j < MapSize
      ensures after[i][j] <==> (i, j) in seen + {p}
    {
      if i == p.0 && j == p.1 {
      } else {
        assert after[i][j] == visited[i][j];
      }
    }
  }

  function Unvisited(seen: set<Point>): nat {
    |TableCells() - seen|
  }

  lemma UnvisitedShrinks(seen: set<Point>, p: Point)
    requires InTable(p) && p !in seen
    ensures Unvisited(seen + {p}) < Unvisited(seen)
  {
    TableCellsMeans(p);
    assert (TableCells() - (seen + {p})) + {p} == TableCells() - seen;
  }

  lemma SearchStart(grid: seq<seq<Tile>>, end: Point)
    ensures Searching(grid, end, [Node((0, 0), 0, Manhattan((0, 0), end))], [[(0, 0)]], {})
  {
    var queue := [Node((0, 0), 0, Manhattan((0, 0), end))];
    assert queue[0].position == (0, 0);
  }

  lemma QueuedWithout(queue: seq<Node>, i: nat, p: Point)
    requires i < |queue| && Queued(queue, p) && p != queue[i].position
    ensures Queued(Without(queue, i), p)
  {
    var j :| 0 <= j < |queue| && queue[j].position == p;
    var rest := Without(queue, i);
    if j < i {
      assert rest[j] == queue[j];
    } else {
      assert rest[j - 1] == queue[j];
    }
  }

  lemma QueuedAppend(a: seq<Node>, b: seq<Node>, p: Point)
    requires Queued(a, p) || Queued(b, p)
    ensures Queued(a + b, p)
  {
    if Queued(a, p) {
      var j :| 0 <= j < |a| && a[j].position == p;
      assert (a + b)[j] == a[j];
    } else {
      var j :| 0 <= j < |b| && b[j].position == p;
      assert (a + b)[|a| + j] == b[j];
    }
  }

  lemma EntriesWithout(grid: seq<seq<Tile>>, end: Point, queue: seq<Node>, routes: seq<seq<Point>>, i: nat)
    requires Entries(grid, end, queue, routes) && i < |queue|
    ensures Entries(grid, end, Without(queue, i), Without(routes, i))
  {
    var rest, restRoutes := Without(queue, i), Without(routes, i);
    forall j | 0 <= j < |rest|
      ensures Entry(grid, end, rest[j], restRoutes[j])
    {
      if j < i {
        assert rest[j] == queue[j] && restRoutes[j] == routes[j];
      } else {
        assert rest[j] == queue[j + 1] && restRoutes[j] == routes[j + 1];
      }
    }
  }

  lemma EntriesAppend(grid: seq<seq<Tile>>, end: Point, a: seq<Node>, ra: seq<seq<Point>>, b: seq<Node>, rb: seq<seq<Point>>)
    requires Entries(grid, end, a, ra) && Entries(grid, end, b, rb)
    ensures Entries(grid, end, a + b, ra + rb)
  {
    var q, r := a + b, ra + rb;
    forall j | 0 <= j < |q|
      ensures Entry(grid, end, q[j], r[j])
    {
      if j < |a| {
        assert q[j] == a[j] && r[j] == ra[j];
      } else {
        assert q[j] == b[j - |a|] && r[j] == rb[j - |a|];
      }
    }
  }

  /** A popped entry already visited is dropped. */
  lemma FrontierSkip(grid: seq<seq<Tile>>, end: Point, queue: seq<Node>, seen: set<Point>, i: nat)
    requires Frontier(grid, end, queue, seen)
    requires i < |queue| && queue[i].position in seen
    ensures Frontier(grid, end, Without(queue, i), seen)
  {
    var rest := Without(queue, i);
    forall p | Queued(queue, p) && p != queue[i].position
      ensures Queued(rest, p)
    {
      QueuedWithout(queue, i, p);
    }
  }

  /** An expanded entry: its cell joins the visited ones and its empty
      neighbours are queued. */
  lemma FrontierExpand(grid: seq<seq<Tile>>, end: Point, queue: seq<Node>, seen: set<Point>, i: nat, pushed: seq<Node>)
    requires Frontier(grid, end, queue, seen)
    requires i < |queue| && queue[i].position !in seen && queue[i].position != end && InTable(queue[i].position)
    requires forall k :: 0 <= k < 4 && At(grid, StepTo(queue[i].position, k)) == Some(Empty) ==>
      Queued(pushed, StepTo(queue[i].position, k))
    ensures Frontier(grid, end, Without(queue, i) + pushed, seen + {queue[i].position})
  {
    var p := queue[i].position;
    var rest := Without(queue, i);
    var seen' := seen + {p};
    TableCellsMeans(p);
    forall q | Queued(queue, q) && q != p
      ensures Queued(rest + pushed, q)
    {
      QueuedWithout(queue, i, q);
      QueuedAppend(rest, pushed, q);
    }
    forall k | 0 <= k < 4 && At(grid, StepTo(p, k)) == Some(Empty)
      ensures Queued(rest + pushed, StepTo(p, k))
    {
      QueuedAppend(rest, pushed, StepTo(p, k));
    }
  }

  /** The entries pushed for the neighbours 0 .. n - 1 of an expanded
      node: one per empty neighbour, a step dearer, its route one cell
      longer. */
  function Pushes(grid: seq<seq<Tile>>, end: Point, node: Node, n: nat): (r: seq<Node>)
    requires n <= 4
    ensures |r| <= n
  {
    if n == 0 then []
    else
      var q := StepTo(node.position, n - 1);
      Pushes(grid, end, node, n - 1) +
      if At(grid, q) == Some(Empty) then [Node(q, node.costSoFar + 1, node.costSoFar + 1 + Manhattan(q, end))] else []
  }

  function PushedRoutes(grid: seq<seq<Tile>>, node: Node, route: seq<Point>, n: nat): (r: seq<seq<Point>>)
    requires n <= 4
  {
    if n == 0 then []
    else
      var q := StepTo(node.position, n - 1);
      PushedRoutes(grid, node, route, n - 1) + if At(grid, q) == Some(Empty) then [route + [q]] else []
  }

  lemma PushesStep(grid: seq<seq<Tile>>, end: Point, node: Node, k: nat)
    requires k < 4
    ensures var q := StepTo(node.position, k);
      Pushes(grid, end, node, k + 1) == Pushes(grid, end, node, k) +
        if At(grid, q) == Some(Empty) then [Node(q, node.costSoFar + 1, node.costSoFar + 1 + Manhattan(q, end))] else []
  {
    var n := k + 1;
    assert n - 1 == k;
  }

  /** A route extended by an empty neighbour. */
  lemma RouteExtend(grid: seq<seq<Tile>>, route: seq<Point>, p: Point, steps: nat, k: nat)
    requires k < 4 && RouteOf(grid, route, p, steps) && At(grid, StepTo(p, k)) == Some(Empty)
    ensures RouteOf(grid, route + [StepTo(p, k)], StepTo(p, k), steps + 1)
  {
    var r := route + [StepTo(p, k)];
    StepDistance(p, k);
    forall i | 0 < i < |r|
      ensures StepOk(grid, r, i)
    {
      if i < |route| {
        assert StepOk(grid, route, i);
        assert r[i - 1] == route[i - 1] && r[i] == route[i];
      } else {
        assert r[i - 1] == p && r[i] == StepTo(p, k);
      }
    }
  }

  /** The pushed entries are entries. */
  lemma {:induction false} PushesEntries(grid: seq<seq<Tile>>, end: Point, node: Node, route: seq<Point>, n: nat)
    requires n <= 4 && FitsTable(grid) && RouteOf(grid, route, node.position, node.costSoFar)
    ensures Entries(grid, end, Pushes(grid, end, node, n), PushedRoutes(grid, node, route, n))
  {
    if n > 0 {
      PushesEntries(grid, end, node, route, n - 1);
      var q := StepTo(node.position, n - 1);
      var before, routesBefore := Pushes(grid, end, node, n - 1), PushedRoutes(grid, node, route, n - 1);
      if At(grid, q) == Some(Empty) {
        var entry := Node(q, node.costSoFar + 1, node.costSoFar + 1 + Manhattan(q, end));
        assert Pushes(grid, end, node, n) == before + [entry];
        assert PushedRoutes(grid, node, route, n) == routesBefore + [route + [q]];
        RouteExtend(grid, route, node.position, node.costSoFar, n - 1);
        assert InBounds(grid, q);
        assert InTable(q);
        assert Entry(grid, end, entry, route + [q]);
        EntriesAppend(grid, end, before, routesBefore, [entry], [route + [q]]);
      } else {
        assert Pushes(grid, end, node, n) == before + [];
        assert PushedRoutes(grid, node, route, n) == routesBefore + [];
      }
    }
  }

  /** Every empty neighbour among the first n is pushed, a step dearer. */
  lemma {:induction false} PushesAt(grid: seq<seq<Tile>>, end: Point, node: Node, n: nat, k: nat) returns (j: nat)
    requires k < n <= 4 && At(grid, StepTo(node.position, k)) == Some(Empty)
    ensures j < |Pushes(grid, end, node, n)|
    ensures Pushes(grid, end, node, n)[j].position == StepTo(node.position, k)
    ensures Pushes(grid, end, node, n)[j].costSoFar == node.costSoFar + 1
  {
    var q := StepTo(node.position, n - 1);
    var before := Pushes(grid, end, node, n - 1);
    var tail := if At(grid, q) == Some(Empty) then [Node(q, node.costSoFar + 1, node.costSoFar + 1 + Manhattan(q, end))] else [];
    assert Pushes(grid, end, node, n) == before + tail;
    if k < n - 1 {
      j := PushesAt(grid, end, node, n - 1, k);
      assert (before + tail)[j] == before[j];
    } else {
      j := |before|;
      assert (before + tail)[j] == tail[0];
    }
  }

  /** Every empty neighbour among the first n is queued. */
  lemma PushesQueued(grid: seq<seq<Tile>>, end: Point, node: Node, n: nat, k: nat)
    requires k < n <= 4 && At(grid, StepTo(node.position, k)) == Some(Empty)
    ensures Queued(Pushes(grid, end, node, n), StepTo(node.position, k))
  {
    var j := PushesAt(grid, end, node, n, k);
  }

  /** An expanded node: it joins the visited cells, and its empty
      neighbours join the queue. */
  lemma ExpandKeeps(grid: seq<seq<Tile>>, end: Point, queue: seq<Node>, routes: seq<seq<Point>>, seen: set<Point>, i: nat)
    requires FitsTable(grid) && Searching(grid, end, queue, routes, seen)
    requires i < |queue| && queue[i].position !in seen && queue[i].position != end
    ensures Searching(grid, end, Without(queue, i) + Pushes(grid, end, queue[i], 4),
                      Without(routes, i) + PushedRoutes(grid, queue[i], routes[i], 4), seen + {queue[i].position})
  {
    var node := queue[i];
    var pushed := Pushes(grid, end, node, 4);
    assert Entry(grid, end, node, routes[i]);
    EntriesWithout(grid, end, queue, routes, i);
    PushesEntries(grid, end, node, routes[i], 4);
    EntriesAppend(grid, end, Without(queue, i), Without(routes, i), pushed, PushedRoutes(grid, node, routes[i], 4));
    forall k | 0 <= k < 4 && At(grid, StepTo(node.position, k)) == Some(Empty)
      ensures Queued(pushed, StepTo(node.position, k))
    {
      PushesQueued(grid, end, node, 4, k);
    }
    FrontierExpand(grid, end, queue, seen, i, pushed);
  }

  /** A popped entry already visited is dropped. */
  lemma SkipKeeps(grid: seq<seq<Tile>>, end: Point, queue: seq<Node>, routes: seq<seq<Point>>, seen: set<Point>, i: nat)
    requires Searching(grid, end, queue, routes, seen)
    requires i < |queue| && queue[i].position in seen
    ensures Searching(grid, end, Without(queue, i), Without(routes, i), seen)
  {
    EntriesWithout(grid, end, queue, routes, i);
    FrontierSkip(grid, end, queue, seen, i);
  }

  /** Some queue entry at p costs at most c. */
  ghost predicate QueuedWithin(queue: seq<Node>, p: Point, c: nat) {
    exists i :: 0 <= i < |queue| && queue[i].position == p && queue[i].costSoFar <= c
  }

  /** For a route from the start to a visited cell: its k-th neighbour,
      when empty and not visited, is queued at a cost no more than one
      step past the route. */
  ghost predicate SettledAt(grid: seq<seq<Tile>>, queue: seq<Node>, seen: set<Point>, route: seq<Point>, k: nat) {
    IsRoute(grid, route) && route[0] == (0, 0) && route[|route| - 1] in seen && k < 4 &&
    At(grid, StepTo(route[|route| - 1], k)) == Some(Empty) && StepTo(route[|route| - 1], k) !in seen ==>
      QueuedWithin(queue, StepTo(route[|route| - 1], k), |route|)
  }

  /** What makes the first entry popped for a cell one of least cost: the
      start queued at no cost until it is visited, and every visited cell
      settled in the sense of `SettledAt`. */
  ghost predicate Settled(grid: seq<seq<Tile>>, queue: seq<Node>, seen: set<Point>) {
    ((0, 0) in seen || QueuedWithin(queue, (0, 0), 0)) &&
    forall route, k :: SettledAt(grid, queue, seen, route, k)
  }

  lemma QueuedWithinWithout(queue: seq<Node>, i: nat, p: Point, c: nat)
    requires i < |queue| && QueuedWithin(queue, p, c) && p != queue[i].position
    ensures QueuedWithin(Without(queue, i), p, c)
  {
    var j :| 0 <= j < |queue| && queue[j].position == p && queue[j].costSoFar <= c;
    var rest := Without(queue, i);
    if j < i {
      assert rest[j] == queue[j];
    } else {
      assert rest[j - 1] == queue[j];
    }
  }

  lemma QueuedWithinAppend(a: seq<Node>, b: seq<Node>, p: Point, c: nat)
    requires QueuedWithin(a, p, c) || QueuedWithin(b, p, c)
    ensures QueuedWithin(a + b, p, c)
  {
    if QueuedWithin(a, p, c) {
      var j :| 0 <= j < |a| && a[j].position == p && a[j].costSoFar <= c;
      assert (a + b)[j] == a[j];
    } else {
      var j :| 0 <= j < |b| && b[j].position == p && b[j].costSoFar <= c;
      assert (a + b)[|a| + j] == b[j];
    }
  }

  lemma SettledStart(grid: seq<seq<Tile>>, end: Point)
    ensures Settled(grid, [Node((0, 0), 0, Manhattan((0, 0), end))], {})
  {
    var queue := [Node((0, 0), 0, Manhattan((0, 0), end))];
    assert queue[0].position == (0, 0) && queue[0].costSoFar <= 0;
  }

  /** Dropping a popped entry already visited keeps every cell settled. */
  lemma SettledSkip(grid: seq<seq<Tile>>, queue: seq<Node>, seen: set<Point>, i: nat)
    requires Settled(grid, queue, seen)
    requires i < |queue| && queue[i].position in seen
    ensures Settled(grid, Without(queue, i), seen)
  {
    var rest := Without(queue, i);
    if (0, 0) !in seen {
      QueuedWithinWithout(queue, i, (0, 0), 0);
    }
    forall route, k
      ensures SettledAt(grid, rest, seen, route, k)
    {
      assert SettledAt(grid, queue, seen, route, k);
      if IsRoute(grid, route) && route[|route| - 1] in seen && k < 4 && StepTo(route[|route| - 1], k) !in seen {
        if QueuedWithin(queue, StepTo(route[|route| - 1], k), |route|) {
          QueuedWithinWithout(queue, i, StepTo(route[|route| - 1], k), |route|);
        }
      }
    }
  }

  /** A prefix of a route is a route. */
  lemma RoutePrefix(grid: seq<seq<Tile>>, route: seq<Point>, m: nat)
    requires IsRoute(grid, route) && 0 < m <= |route|
    ensures IsRoute(grid, route[..m])
  {
    var prefix := route[..m];
    forall i | 0 < i < m
      ensures StepOk(grid, prefix, i)
    {
      assert StepOk(grid, route, i);
      assert prefix[i - 1] == route[i - 1] && prefix[i] == route[i];
    }
  }

  /** Along a route, two cells are no further apart than the steps
      between them. */
  lemma {:induction false} RouteDistance(grid: seq<seq<Tile>>, route: seq<Point>, i: nat, m: nat)
    requires IsRoute(grid, route) && i <= m < |route|
    ensures Manhattan(route[i], route[m]) <= m - i
    decreases m
  {
    if i < m {
      RouteDistance(grid, route, i, m - 1);
      assert StepOk(grid, route, m);
      ManhattanTriangle(route[i], route[m - 1], route[m]);
    }
  }

  /** Every route from the start to an unvisited cell passes an unvisited
      cell that has a queue entry no dearer than the steps taken to it. */
  lemma {:induction false} Cut(grid: seq<seq<Tile>>, queue: seq<Node>, seen: set<Point>, route: seq<Point>, m: nat)
      returns (i: nat, j: nat)
    requires Settled(grid, queue, seen)
    requires IsRoute(grid, route) && route[0] == (0, 0) && m < |route| && route[m] !in seen
    ensures i <= m && route[i] !in seen
    ensures j < |queue| && queue[j].position == route[i] && queue[j].costSoFar <= i
    decreases m
  {
    if m == 0 {
      i := 0;
      j :| 0 <= j < |queue| && queue[j].position == (0, 0) && queue[j].costSoFar <= 0;
    } else if route[m - 1] in seen {
      var prefix := route[..m];
      RoutePrefix(grid, route, m);
      assert StepOk(grid, route, m);
      var k := UnitStep(route[m - 1], route[m]);
      assert prefix[0] == (0, 0) && prefix[|prefix| - 1] == route[m - 1];
      assert SettledAt(grid, queue, seen, prefix, k);
      i := m;
      j :| 0 <= j < |queue| && queue[j].position == route[m] && queue[j].costSoFar <= m;
    } else {
      i, j := Cut(grid, queue, seen, route, m - 1);
    }
  }

  /** The node the heap pops, at a cell not yet visited, costs no more
      than any route to its cell: every such route passes an entry whose
      estimate, by consistency, is at most the route's length, and the
      popped estimate is the least. */
  lemma PopBound(grid: seq<seq<Tile>>, end: Point, queue: seq<Node>, routes: seq<seq<Point>>, seen: set<Point>, route: seq<Point>, steps: nat)
    requires Entries(grid, end, queue, routes) && Settled(grid, queue, seen) && |queue| > 0
    requires queue[Top(queue)].position !in seen && RouteOf(grid, route, queue[Top(queue)].position, steps)
    ensures queue[Top(queue)].costSoFar <= steps
  {
    var top := Top(queue);
    var i, j := Cut(grid, queue, seen, route, steps);
    TopLeast(queue);
    assert Entry(grid, end, queue[top], routes[top]) && Entry(grid, end, queue[j], routes[j]);
    RouteDistance(grid, route, i, steps);
    ManhattanTriangle(route[i], route[steps], end);
  }

  /** Expanding the popped node keeps every cell settled: the routes to
      its cell are no shorter than its cost. */
  lemma SettledExpand(grid: seq<seq<Tile>>, end: Point, queue: seq<Node>, routes: seq<seq<Point>>, seen: set<Point>)
    requires Entries(grid, end, queue, routes) && Settled(grid, queue, seen) && |queue| > 0
    requires queue[Top(queue)].position !in seen
    ensures var i := Top(queue);
      Settled(grid, Without(queue, i) + Pushes(grid, end, queue[i], 4), seen + {queue[i].position})
  {
    var i := Top(queue);
    var node := queue[i];
    var p := node.position;
    var rest, pushed := Without(queue, i), Pushes(grid, end, node, 4);
    var seen' := seen + {p};
    if (0, 0) !in seen' {
      QueuedWithinWithout(queue, i, (0, 0), 0);
      QueuedWithinAppend(rest, pushed, (0, 0), 0);
    }
    forall route, k
      ensures SettledAt(grid, rest + pushed, seen', route, k)
    {
      if IsRoute(grid, route) && route[0] == (0, 0) && route[|route| - 1] in seen' && k < 4 &&
         At(grid, StepTo(route[|route| - 1], k)) == Some(Empty) && StepTo(route[|route| - 1], k) !in seen' {
        var w := StepTo(route[|route| - 1], k);
        if route[|route| - 1] in seen {
          assert SettledAt(grid, queue, seen, route, k);
          QueuedWithinWithout(queue, i, w, |route|);
        } else {
          PopBound(grid, end, queue, routes, seen, route, |route| - 1);
          var j := PushesAt(grid, end, node, 4, k);
          assert pushed[j].position == w && pushed[j].costSoFar <= |route|;
        }
        QueuedWithinAppend(rest, pushed, w, |route|);
      }
    }
  }

  /** `steps` is no more than the length of any route to `end`. */
  ghost predicate Shortest(grid: seq<seq<Tile>>, end: Point, steps: nat) {
    forall route, s :: RouteOf(grid, route, end, s) ==> steps <= s
  }

  /** The end, popped, costs no more than any route to it. */
  lemma FoundShortest(grid: seq<seq<Tile>>, end: Point, queue: seq<Node>, routes: seq<seq<Point>>, seen: set<Point>)
    requires Searching(grid, end, queue, routes, seen) && Settled(grid, queue, seen) && |queue| > 0
    requires queue[Top(queue)].position == end
    ensures Shortest(grid, end, queue[Top(queue)].costSoFar)
  {
    forall route, s | RouteOf(grid, route, end, s)
      ensures queue[Top(queue)].costSoFar <= s
    {
      PopBound(grid, end, queue, routes, seen, route, s);
    }
  }

  /** Once the queue is empty, every route from the start stays among the
      visited cells, so none reaches the end. */
  lemma {:induction false} RouteVisited(grid: seq<seq<Tile>>, end: Point, seen: set<Point>, route: seq<Point>, n: nat)
    requires Searching(grid, end, [], [], seen)
    requires IsRoute(grid, route) && route[0] == (0, 0) && n < |route|
    ensures route[n] in seen
  {
    if n > 0 {
      RouteVisited(grid, end, seen, route, n - 1);
      assert StepOk(grid, route, n);
      var k := UnitStep(route[n - 1], route[n]);
      assert At(grid, StepTo(route[n - 1], k)) == Some(Empty);
    }
  }

  lemma SearchDone(grid: seq<seq<Tile>>, end: Point, seen: set<Point>)
    requires Searching(grid, end, [], [], seen)
    ensures Unreachable(grid, end)
  {
    forall route | IsRoute(grid, route) && route[0] == (0, 0)
      ensures route[|route| - 1] != end
    {
      RouteVisited(grid, end, seen, route, |route| - 1);
    }
  }

  /** A found route shows the end reachable. */
  lemma Witness(grid: seq<seq<Tile>>, route: seq<Point>, end: Point, steps: nat)
    requires RouteOf(grid, route, end, steps)
    ensures HasRoute(grid, end)
  {
  }

  /** The grid with walls dropped at the given points, or None when one
      is off the grid (`Map::set` panics). */
  function Dropped(grid: seq<seq<Tile>>, bytes: seq<Point>): (r: Option<seq<seq<Tile>>>)
    ensures r.Some? ==> |r.value| == |grid| && forall i :: 0 <= i < |grid| ==> |r.value[i]| == |grid[i]|
  {
    if |bytes| == 0 then Some(grid)
    else match Dropped(grid, bytes[..|bytes| - 1])
      case None => None
      case Some(g) =>
        var b := bytes[|bytes| - 1];
        if InBounds(g, b) then Some(SetAt(g, b, Wall)) else None
  }

  /** After dropping, a cell is a wall exactly when a byte fell on it or it
      was one already. */
  lemma {:induction false} DroppedWalls(grid: seq<seq<Tile>>, bytes: seq<Point>, q: Point)
    requires Dropped(grid, bytes).Some?
    ensures At(Dropped(grid, bytes).value, q) == if q in bytes then Some(Wall) else At(grid, q)
    decreases |bytes|
  {
    if |bytes| > 0 {
      var front := bytes[..|bytes| - 1];
      DroppedWalls(grid, front, q);
      assert bytes == front + [bytes[|bytes| - 1]];
    }
  }

  lemma DroppedAppend(grid: seq<seq<Tile>>, bytes: seq<Point>, b: Point)
    requires Dropped(grid, bytes).Some?
    ensures Dropped(grid, bytes + [b]) ==
      (if InBounds(Dropped(grid, bytes).value, b) then Some(SetAt(Dropped(grid, bytes).value, b, Wall)) else None)
  {
    assert (bytes + [b])[..|bytes|] == bytes;
  }

  /** The empty memory `part1` and `part2` start from. */
  function EmptySpace(): (r: seq<seq<Tile>>)
    ensures |r| == MapSize && forall i :: 0 <= i < MapSize ==> |r[i]| == MapSize
  {
    seq(MapSize, _ => seq(MapSize, _ => Empty))
  }

  /** The numbers of a line's comma-separated pieces that parse, in order
      (`filter_map(|n| n.parse().ok())`). */
  function Numbers(pieces: seq<string>): (r: seq<nat>)
    ensures |r| <= |pieces|
  {
    if |pieces| == 0 then []
    else
      Numbers(pieces[..|pieces| - 1]) +
      match Text.ParseNat(pieces[|pieces| - 1]) case Some(n) => [n] case None => []
  }

  /** A line "a,b" as the point (b, a): the map is indexed (row, column)
      and the puzzle gives (column, row).  A line with fewer than two
      numbers is dropped. */
  function ParseByte(line: string): (r: Option<Point>)
    ensures var nums := Numbers(Text.Split(line, ","));
      (r.Some? <==> |nums| >= 2) && (r.Some? ==> r.value == (nums[1], nums[0]))
  {
    var nums := Numbers(Text.Split(line, ","));
    if |nums| >= 2 then Some((nums[1], nums[0])) else None
  }

  /** `MemorySpace::from`: one point per well-formed line. */
  function ParseBytes(lines: seq<string>): (r: seq<Point>)
    ensures |r| <= |lines|
    ensures forall p :: p in r ==> exists i :: 0 <= i < |lines| && ParseByte(lines[i]) == Some(p)
  {
    if |lines| == 0 then []
    else
      var front := ParseBytes(lines[..|lines| - 1]);
      var last := match ParseByte(lines[|lines| - 1]) case Some(p) => [p] case None => [];
      assert forall p :: p in front ==> exists i :: 0 <= i < |lines| - 1 && ParseByte(lines[i]) == Some(p);
      front + last
  }

  class MemorySpace {
    var incomingBytes: seq<Point>
    var grid: seq<seq<Tile>>

    /** `MemorySpace::from`, with `Map::default()` as the empty map. */
    constructor (input: string)
      ensures incomingBytes == ParseBytes(Text.Lines(input)) && grid == []
    {
      incomingBytes := ParseBytes(Text.Lines(input));
      grid := [];
    }

    /** `Map::set` to a wall on the byte's cell. */
    method Drop(b: Point)
      modifies this
      requires InBounds(grid, b)
      ensures grid == SetAt(old(grid), b, Wall) && incomingBytes == old(incomingBytes)
    {
      grid := SetAt(grid, b, Wall);
    }

    /** The loop of `part1` and `part2` that drops the first n bytes,
        failing (where the source panics) when one falls off the grid. */
    method DropFirst(n: nat) returns (ok: bool)
      modifies this
      requires n <= |incomingBytes| && grid == EmptySpace()
      ensures incomingBytes == old(incomingBytes)
      ensures ok <==> Dropped(EmptySpace(), incomingBytes[..n]).Some?
      ensures ok ==> Dropped(EmptySpace(), incomingBytes[..n]) == Some(grid)
    {
      ghost var bytes := incomingBytes;
      for i := 0 to n
        invariant incomingBytes == bytes
        invariant Dropped(EmptySpace(), bytes[..i]) == Some(grid)
      {
        var b := incomingBytes[i];
        DroppedAppend(EmptySpace(), bytes[..i], b);
        assert bytes[..i + 1] == bytes[..i] + [b];
        if !InBounds(grid, b) {
          DroppedNone(EmptySpace(), bytes[..i + 1], bytes[..n]);
          return false;
        }
        Drop(b);
      }
      assert bytes[..n] == bytes[..n];
      return true;
    }
  }

  /** The inner loop of `shortest_path`: every empty cardinal neighbour
      of the expanded node is pushed, one step dearer, with its cost plus
      its distance to the end as estimate. */
  method PushNeighbours(grid: seq<seq<Tile>>, queue: seq<Node>, node: Node, end: Point) returns (r: seq<Node>)
    ensures r == queue + Pushes(grid, end, node, 4)
  {
    r := queue;
    var neighbours := CardinalNeighbours(grid, node.position);
    for k := 0 to 4
      invariant r == queue + Pushes(grid, end, node, k)
    {
      PushesStep(grid, end, node, k);
      var (neighbour, tile) := neighbours[k];
      if tile == Some(Empty) {
        var newCost := node.costSoFar + 1;
        var estimated := newCost + Manhattan(neighbour, end);
        r := r + [Node(neighbour, newCost, estimated)];
      }
    }
  }

  /** `shortest_path`: A* from the top-left corner to `end`. */
  method ShortestPath(grid: seq<seq<Tile>>, end: Point) returns (r: Option<nat>, ghost route: seq<Point>)
    requires FitsTable(grid)
    ensures r.Some? ==> RouteOf(grid, route, end, r.value) && Shortest(grid, end, r.value)
    ensures r.None? ==> Unreachable(grid, end)
  {
    var queue := [Node((0, 0), 0, Manhattan((0, 0), end))];
    ghost var routes := [[(0, 0)]];
    var visited := seq(MapSize, i => seq(MapSize, j => false));
    ghost var seen: set<Point> := {};
    SearchStart(grid, end);
    SettledStart(grid, end);
    while |queue| > 0
      invariant Searching(grid, end, queue, routes, seen)
      invariant Settled(grid, queue, seen)
      invariant Mirrors(visited, seen)
      decreases Unvisited(seen), |queue|
    {
      var top := Top(queue);
      var node := queue[top];
      assert Entry(grid, end, node, routes[top]);
      if node.position == end {
        FoundShortest(grid, end, queue, routes, seen);
        return Some(node.costSoFar), routes[top];
      }
      var p := node.position;
      if visited[p.0][p.1] {
        SkipKeeps(grid, end, queue, routes, seen, top);
        SettledSkip(grid, queue, seen, top);
        queue, routes := Without(queue, top), Without(routes, top);
        continue;
      }
      MarkMirrors(visited, seen, p);
      visited := visited[p.0 := visited[p.0][p.1 := true]];
      ExpandKeeps(grid, end, queue, routes, seen, top);
      SettledExpand(grid, end, queue, routes, seen);
      UnvisitedShrinks(seen, p);
      ghost var pushedRoutes := PushedRoutes(grid, node, routes[top], 4);
      queue, routes, seen := Without(queue, top), Without(routes, top) + pushedRoutes, seen + {p};
      queue := PushNeighbours(grid, queue, node, end);
    }
    SearchDone(grid, end, seen);
    return None, [];
  }

  /** The condition of `part2`'s loop, `while let Some(_)` of a search to
      the exit: whether the bytes `walls`, which have fallen, leave it
      reachable. */
  method Reachable(grid: seq<seq<Tile>>, ghost walls: seq<Point>) returns (open: bool)
    requires Dropped(EmptySpace(), walls) == Some(grid)
    ensures open ==> Open(walls)
    ensures !open ==> Blocked(walls)
  {
    DroppedFits(walls);
    var steps, route := ShortestPath(grid, Exit);
    Verdict(walls, grid, steps, route);
    open := steps.Some?;
  }

  /** The loop of `part2` as intended, from the state where the bytes up
      to index 1024 have fallen: search, and while the exit is
      reachable drop the next byte.  The byte that closes the exit off
      is reported; None when a byte falls off the grid or the bytes run
      out with the exit still open. */
  method DropUntilBlocked(bytes: seq<Point>, fallen: seq<seq<Tile>>) returns (r: Option<Point>, ghost k: nat)
    requires Bytes < |bytes|
    requires Dropped(EmptySpace(), bytes[..Bytes + 1]) == Some(fallen)
    ensures r.Some? ==> Bytes <= k < |bytes| && r.value == bytes[k] &&
                        Blocked(bytes[..k + 1]) && forall j {:trigger bytes[..j]} :: Bytes < j <= k ==> Open(bytes[..j])
    ensures r.None? ==> Dropped(EmptySpace(), bytes).None? || Open(bytes)
  {
    var grid := fallen;
    var idx := Bytes;
    var open := Reachable(grid, bytes[..idx + 1]);
    while open
      invariant Bytes <= idx < |bytes|
      invariant Dropped(EmptySpace(), bytes[..idx + 1]) == Some(grid)
      invariant OpenFrom(bytes, Bytes, idx)
      invariant open ==> Open(bytes[..idx + 1])
      invariant !open ==> Blocked(bytes[..idx + 1])
      decreases |bytes| - idx
    {
      if idx + 1 >= |bytes| {
        assert bytes[..idx + 1] == bytes;
        OpenSame(bytes[..idx + 1], bytes);
        return None, 0;
      }
      var b := bytes[idx + 1];
      DropNext(bytes, idx + 1, grid);
      if !InBounds(grid, b) {
        DroppedNone(EmptySpace(), bytes[..idx + 2], bytes);
        return None, 0;
      }
      OpenFromStep(bytes, Bytes, idx + 1);
      grid := SetAt(grid, b, Wall);
      idx := idx + 1;
      open := Reachable(grid, bytes[..idx + 1]);
    }
    OpenFromMeans(bytes, Bytes, idx);
    return Some(bytes[idx]), idx;
  }

  /** The loop of `part2` as written: the index starts at 1025 with the
      bytes up to index 1024 fallen, and each round drops the byte after
      the index before moving the index on.  None where the source
      panics: a byte off the grid, or an index past the end. */
  method DropUntilBlockedAsWritten(bytes: seq<Point>, fallen: seq<seq<Tile>>) returns (r: Option<Point>, ghost k: nat)
    requires Bytes + 1 < |bytes|
    requires Dropped(EmptySpace(), AsWrittenWalls(bytes, Bytes + 1)) == Some(fallen)
    ensures r.Some? ==> Bytes + 1 <= k < |bytes| && r.value == bytes[k] &&
                        Blocked(AsWrittenWalls(bytes, k)) &&
                        forall j {:trigger AsWrittenWalls(bytes, j)} :: Bytes + 1 <= j < k ==> Open(AsWrittenWalls(bytes, j))
  {
    var grid := fallen;
    var idx := Bytes + 1;
    var open := Reachable(grid, AsWrittenWalls(bytes, idx));
    while open
      invariant Bytes + 1 <= idx < |bytes|
      invariant Dropped(EmptySpace(), AsWrittenWalls(bytes, idx)) == Some(grid)
      invariant OpenAsWrittenBelow(bytes, idx)
      invariant open ==> Open(AsWrittenWalls(bytes, idx))
      invariant !open ==> Blocked(AsWrittenWalls(bytes, idx))
      decreases |bytes| - idx
    {
      if idx + 1 >= |bytes| {
        return None, 0;
      }
      var b := bytes[idx + 1];
      DropNextAsWritten(bytes, idx, grid);
      if !InBounds(grid, b) {
        return None, 0;
      }
      grid := SetAt(grid, b, Wall);
      idx := idx + 1;
      open := Reachable(grid, AsWrittenWalls(bytes, idx));
    }
    OpenAsWrittenBelowMeans(bytes, idx);
    return Some(bytes[idx]), idx;
  }

  /** `part1`: the steps to the exit once the first 1024 bytes have
      fallen, or None when the input has fewer bytes or one falls off the
      grid (the source panics). */
  method Part1(input: string) returns (r: Option<nat>)
    ensures var bytes := ParseBytes(Text.Lines(Text.Trim(input)));
      if |bytes| < Bytes || Dropped(EmptySpace(), bytes[..Bytes]).None? then r.None?
      else
        var grid := Dropped(EmptySpace(), bytes[..Bytes]).value;
        (r.Some? ==> (exists route :: RouteOf(grid, route, Exit, r.value)) && Shortest(grid, Exit, r.value)) &&
        (r.None? ==> Unreachable(grid, Exit))
  {
    var space := new MemorySpace(Text.Trim(input));
    space.grid := EmptySpace();
    if |space.incomingBytes| < Bytes {
      return None;
    }
    var ok := space.DropFirst(Bytes);
    if !ok {
      return None;
    }
    ghost var route;
    r, route := ShortestPath(space.grid, Exit);
  }

  /** With these bytes fallen the exit can be reached. */
  ghost predicate Open(walls: seq<Point>) {
    Dropped(EmptySpace(), walls).Some? && HasRoute(Dropped(EmptySpace(), walls).value, Exit)
  }

  /** With these bytes fallen the exit cannot be reached. */
  ghost predicate Blocked(walls: seq<Point>) {
    Dropped(EmptySpace(), walls).Some? && Unreachable(Dropped(EmptySpace(), walls).value, Exit)
  }

  /** A search's verdicts on the grid some bytes leave. */
  lemma Verdict(walls: seq<Point>, grid: seq<seq<Tile>>, steps: Option<nat>, route: seq<Point>)
    requires Dropped(EmptySpace(), walls) == Some(grid)
    requires steps.Some? ==> RouteOf(grid, route, Exit, steps.value)
    requires steps.None? ==> Unreachable(grid, Exit)
    ensures steps.Some? ==> Open(walls)
    ensures steps.None? ==> Blocked(walls)
  {
    if steps.Some? {
      Witness(grid, route, Exit, steps.value);
    }
  }

  /** The exit stays open after each prefix of `bytes` longer than `lo`
      and at most `hi` long. */
  ghost predicate OpenFrom(bytes: seq<Point>, lo: nat, hi: nat)
    requires hi <= |bytes|
  {
    hi <= lo || (Open(bytes[..hi]) && OpenFrom(bytes, lo, hi - 1))
  }

  lemma {:induction false} OpenFromMeans(bytes: seq<Point>, lo: nat, hi: nat)
    requires hi <= |bytes| && OpenFrom(bytes, lo, hi)
    ensures forall j {:trigger bytes[..j]} :: lo < j <= hi ==> Open(bytes[..j])
    decreases hi
  {
    if hi > lo {
      OpenFromMeans(bytes, lo, hi - 1);
    }
  }

  lemma OpenFromStep(bytes: seq<Point>, lo: nat, hi: nat)
    requires 0 < hi <= |bytes| && OpenFrom(bytes, lo, hi - 1) && Open(bytes[..hi])
    ensures OpenFrom(bytes, lo, hi)
  {
  }

  /** The exit stays open in every state `part2` as written searches with
      its index from 1025 up to below `hi`. */
  ghost predicate OpenAsWrittenBelow(bytes: seq<Point>, hi: nat)
    requires hi <= |bytes|
  {
    hi <= Bytes + 1 || (Open(AsWrittenWalls(bytes, hi - 1)) && OpenAsWrittenBelow(bytes, hi - 1))
  }

  lemma {:induction false} OpenAsWrittenBelowMeans(bytes: seq<Point>, hi: nat)
    requires hi <= |bytes| && OpenAsWrittenBelow(bytes, hi)
    ensures forall j {:trigger AsWrittenWalls(bytes, j)} :: Bytes + 1 <= j < hi ==> Open(AsWrittenWalls(bytes, j))
    decreases hi
  {
    if hi > Bytes + 1 {
      OpenAsWrittenBelowMeans(bytes, hi - 1);
    }
  }

  /** Dropping the byte at index n onto the grid the first n leave. */
  lemma DropNext(bytes: seq<Point>, n: nat, grid: seq<seq<Tile>>)
    requires n < |bytes| && Dropped(EmptySpace(), bytes[..n]) == Some(grid)
    ensures Dropped(EmptySpace(), bytes[..n + 1]) ==
      if InBounds(grid, bytes[n]) then Some(SetAt(grid, bytes[n], Wall)) else None
  {
    assert bytes[..n + 1][..n] == bytes[..n];
  }

  /** The same for `part2` as written, whose next byte is the one after
      the index. */
  lemma DropNextAsWritten(bytes: seq<Point>, i: nat, grid: seq<seq<Tile>>)
    requires Bytes + 1 <= i && i + 1 < |bytes| && Dropped(EmptySpace(), AsWrittenWalls(bytes, i)) == Some(grid)
    ensures Dropped(EmptySpace(), AsWrittenWalls(bytes, i + 1)) ==
      if InBounds(grid, bytes[i + 1]) then Some(SetAt(grid, bytes[i + 1], Wall)) else None
  {
    var walls := AsWrittenWalls(bytes, i + 1);
    assert walls[..|walls| - 1] == AsWrittenWalls(bytes, i);
  }

  lemma OpenSame(walls: seq<Point>, same: seq<Point>)
    requires walls == same && Open(walls)
    ensures Open(same)
  {
  }

  /** A drop that stays on the grid keeps the dimensions the search needs. */
  lemma DroppedFits(walls: seq<Point>)
    requires Dropped(EmptySpace(), walls).Some?
    ensures FitsTable(Dropped(EmptySpace(), walls).value)
  {
  }

  /** `part2` as intended: after the first 1025 bytes (indices up to
      1024), one more byte at a time until no route is left, then the byte
      dropped last.  It is the first byte from index 1024 on whose fall
      closes the exit off; None when the input has too few bytes, a byte
      falls off the grid, or the exit stays open after every byte (the
      source panics in each). */
  method Part2(input: string) returns (r: Option<Point>, ghost k: nat)
    ensures var bytes := ParseBytes(Text.Lines(Text.Trim(input)));
      r.Some? ==> Bytes <= k < |bytes| && r.value == bytes[k] && Blocked(bytes[..k + 1]) &&
                  forall j {:trigger bytes[..j]} :: Bytes < j <= k ==> Open(bytes[..j])
    ensures var bytes := ParseBytes(Text.Lines(Text.Trim(input)));
      r.None? ==> |bytes| <= Bytes || Dropped(EmptySpace(), bytes).None? || Open(bytes)
  {
    var space := new MemorySpace(Text.Trim(input));
    space.grid := EmptySpace();
    if |space.incomingBytes| < Bytes + 1 {
      return None, 0;
    }
    var ok := space.DropFirst(Bytes + 1);
    var bytes, fallen := space.incomingBytes, space.grid;
    if !ok {
      DroppedNone(EmptySpace(), bytes[..Bytes + 1], bytes);
      return None, 0;
    }
    r, k := DropUntilBlocked(bytes, fallen);
  }

  /** The bytes `part2` as written has dropped when its index is i: the
      first 1025, then those from index 1026 up to i. */
  function AsWrittenWalls(bytes: seq<Point>, i: nat): seq<Point>
    requires Bytes + 1 <= i < |bytes|
  {
    bytes[..Bytes + 1] + bytes[Bytes + 2..i + 1]
  }

  /** `part2` as written: it starts its index at 1025 although only the
      bytes up to index 1024 have fallen, then drops the byte after the
      index before moving it on, so the byte at 1025 never falls, and when
      the first 1025 bytes already close the exit it reports that unfallen
      byte. */
  method Part2AsWritten(input: string) returns (r: Option<Point>, ghost k: nat)
    ensures var bytes := ParseBytes(Text.Lines(Text.Trim(input)));
      r.Some? ==> Bytes + 1 <= k < |bytes| && r.value == bytes[k] && Blocked(AsWrittenWalls(bytes, k)) &&
                  forall j {:trigger AsWrittenWalls(bytes, j)} :: Bytes + 1 <= j < k ==> Open(AsWrittenWalls(bytes, j))
  {
    var space := new MemorySpace(Text.Trim(input));
    space.grid := EmptySpace();
    if |space.incomingBytes| < Bytes + 1 {
      return None, 0;
    }
    var ok := space.DropFirst(Bytes + 1);
    var bytes, fallen := space.incomingBytes, space.grid;
    if !ok {
      return None, 0;
    }
    if Bytes + 1 >= |bytes| {
      // Both ways out of the loop index past the end and panic.
      return None, 0;
    }
    assert AsWrittenWalls(bytes, Bytes + 1) == bytes[..Bytes + 1];
    r, k := DropUntilBlockedAsWritten(bytes, fallen);
  }

  /** The byte at index 1025 never falls in `part2` as written: when it
      occurs nowhere else among the bytes, its cell stays empty in every
      state the loop searches, including the one whose index reports it. */
  lemma AsWrittenSkips(bytes: seq<Point>, k: nat)
    requires Bytes + 1 <= k < |bytes| && InBounds(EmptySpace(), bytes[Bytes + 1])
    requires forall j :: 0 <= j < |bytes| && j != Bytes + 1 ==> bytes[j] != bytes[Bytes + 1]
    requires Dropped(EmptySpace(), AsWrittenWalls(bytes, k)).Some?
    ensures At(Dropped(EmptySpace(), AsWrittenWalls(bytes, k)).value, bytes[Bytes + 1]) == Some(Empty)
  {
    var walls := AsWrittenWalls(bytes, k);
    var q := bytes[Bytes + 1];
    DroppedWalls(EmptySpace(), walls, q);
    forall i | 0 <= i < |walls|
      ensures walls[i] != q
    {
      if i < Bytes + 1 {
        assert walls[i] == bytes[i];
      } else {
        assert walls[i] == bytes[i + 1];
      }
    }
  }

  /** Once a drop falls off the grid, every longer run of drops does. */
  lemma {:induction false} DroppedNone(grid: seq<seq<Tile>>, bytes: seq<Point>, longer: seq<Point>)
    requires |bytes| <= |longer| && longer[..|bytes|] == bytes && Dropped(grid, bytes).None?
    ensures Dropped(grid, longer).None?
    decreases |longer|
  {
    if |longer| > |bytes| {
      var front := longer[..|longer| - 1];
      assert front[..|bytes|] == bytes;
      DroppedNone(grid, bytes, front);
    } else {
      assert longer == bytes;
    }
  }
}
