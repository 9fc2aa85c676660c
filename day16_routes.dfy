/** Day 16, the search of `Maze::cheapest_path`.  The search pops states
    from a LIFO queue and relaxes their splits, keeping for every state its
    best weight with every (source, path) pair that reaches it at that
    weight; a state is pushed again whenever its weight improves, so the
    queue drains only when no split can improve any weight.  The model
    proves that the weights are then the cheapest costs of chains of
    splits, and that the backward walk over the recorded sources collects
    exactly the cells of the cheapest chains to the end state it starts
    from. */
module ReindeerRoutes {
  import opened Wrappers
  import opened Grid
  import opened ReindeerMaze
  import Seqs

  /** A value of the `weights` map: best weight, sources and their paths. */
  datatype Entry = Entry(weight: nat, sources: seq<State>, paths: seq<seq<Point>>)

  type Weights = map<State, Entry>

  /** The fixed inputs of one search: the map, the splits of every state,
      and the start state.  The search is proved for any split function
      whose splits cost at least 1 and end on the map. */
  datatype Problem = Problem(tiles: seq<seq<Tile>>, out: State -> seq<Split>, start: State)

  function Out(P: Problem, s: State): seq<Split> {
    P.out(s)
  }

  /** Every split costs at least 1 and ends on an open tile. */
  ghost predicate WellFormed(P: Problem) {
    forall s, j :: 0 <= j < |P.out(s)| ==>
      P.out(s)[j].weight >= 1 && IsOpen(P.tiles, (P.out(s)[j].x, P.out(s)[j].y))
  }

  /** The search problem of a maze: splits as the corrected walk of
      `reachable_splits` finds them (`Splits`, built on `Follow`), each
      corridor walk taking at most `reach` steps. */
  function MazeProblem(maze: Maze, reach: nat): Problem {
    Problem(maze.tiles, s => Splits(maze.tiles, s, reach), maze.position)
  }

  lemma MazeProblemWellFormed(maze: Maze, reach: nat)
    ensures WellFormed(MazeProblem(maze, reach))
  {
    var P := MazeProblem(maze, reach);
    forall s, j | 0 <= j < |P.out(s)|
      ensures P.out(s)[j].weight >= 1 && IsOpen(P.tiles, (P.out(s)[j].x, P.out(s)[j].y))
    {
      SplitsShape(maze.tiles, s, reach, P.out(s)[j]);
    }
  }

  // ---------------------------------------------------------------------
  // Chains of splits

  /** Following the splits chosen by `walk` (one index into the current
      state's splits per hop) from `from`: the state reached and the total
      cost, or None when an index is out of range. */
  function Walk(P: Problem, from: State, walk: seq<nat>): Option<(State, nat)>
    decreases |walk|
  {
    if walk == [] then Some((from, 0))
    else match Walk(P, from, walk[..|walk| - 1])
      case None => None
      case Some(sc) =>
        var k := walk[|walk| - 1];
        if k < |Out(P, sc.0)| then Some((SplitState(Out(P, sc.0)[k]), sc.1 + Out(P, sc.0)[k].weight)) else None
  }

  function PathCells(path: seq<Point>): set<Point> {
    set q | q in path
  }

  /** The cells the paths of the splits of `walk` pass. */
  function WalkCells(P: Problem, from: State, walk: seq<nat>): set<Point>
    decreases |walk|
  {
    if walk == [] then {}
    else match Walk(P, from, walk[..|walk| - 1])
      case None => {}
      case Some(sc) =>
        var k := walk[|walk| - 1];
        WalkCells(P, from, walk[..|walk| - 1]) + (if k < |Out(P, sc.0)| then PathCells(Out(P, sc.0)[k].path) else {})
  }

  lemma WalkExtend(P: Problem, from: State, walk: seq<nat>, k: nat)
    requires Walk(P, from, walk).Some?
    requires k < |Out(P, Walk(P, from, walk).value.0)|
    ensures var sc := Walk(P, from, walk).value;
      var sp := Out(P, sc.0)[k];
      && Walk(P, from, walk + [k]) == Some((SplitState(sp), sc.1 + sp.weight))
      && WalkCells(P, from, walk + [k]) == WalkCells(P, from, walk) + PathCells(sp.path)
  {
    var longer := walk + [k];
    assert longer[..|longer| - 1] == walk && longer[|longer| - 1] == k;
    WalkSnoc(P, from, walk, k, longer);
    WalkCellsSnoc(P, from, walk, k, longer);
  }

  /** The walk one hop longer ends where that hop leads. */
  lemma WalkSnoc(P: Problem, from: State, walk: seq<nat>, k: nat, longer: seq<nat>)
    requires longer != [] && longer[..|longer| - 1] == walk && longer[|longer| - 1] == k
    requires Walk(P, from, walk).Some? && k < |Out(P, Walk(P, from, walk).value.0)|
    ensures var sc := Walk(P, from, walk).value;
      var sp := Out(P, sc.0)[k];
      Walk(P, from, longer) == Some((SplitState(sp), sc.1 + sp.weight))
  {
  }

  /** The walk one hop longer passes that hop's cells too. */
  lemma WalkCellsSnoc(P: Problem, from: State, walk: seq<nat>, k: nat, longer: seq<nat>)
    requires longer != [] && longer[..|longer| - 1] == walk && longer[|longer| - 1] == k
    requires Walk(P, from, walk).Some? && k < |Out(P, Walk(P, from, walk).value.0)|
    ensures var sc := Walk(P, from, walk).value;
      WalkCells(P, from, longer) == WalkCells(P, from, walk) + PathCells(Out(P, sc.0)[k].path)
  {
  }

  /** Every hop costs at least 1. */
  lemma WalkPositive(P: Problem, from: State, walk: seq<nat>)
    requires WellFormed(P)
    requires walk != [] && Walk(P, from, walk).Some?
    ensures Walk(P, from, walk).value.1 >= 1
  {
  }

  /** Following `a` and then `b` is following `a + b`. */
  lemma {:induction false} WalkAppend(P: Problem, from: State, a: seq<nat>, b: seq<nat>)
    requires Walk(P, from, a).Some?
    requires Walk(P, Walk(P, from, a).value.0, b).Some?
    ensures var (v, c) := Walk(P, from, a).value;
      var (t, d) := Walk(P, v, b).value;
      && Walk(P, from, a + b) == Some((t, c + d))
      && WalkCells(P, from, a + b) == WalkCells(P, from, a) + WalkCells(P, v, b)
    decreases |b|
  {
    var v := Walk(P, from, a).value.0;
    if b == [] {
      assert a + b == a;
    } else {
      var b' := b[..|b| - 1];
      assert (a + b)[..|a + b| - 1] == a + b';
      assert Walk(P, v, b').Some?;
      WalkAppend(P, from, a, b');
    }
  }

  // ---------------------------------------------------------------------
  // The search state

  /** The weight a known state is relaxed with: 0 for the start (the
      weight it is queued with), its recorded weight otherwise. */
  function Cost0(P: Problem, W: Weights, s: State): nat {
    if s == P.start then 0 else if s in W then W[s].weight else 0
  }

  predicate Known(P: Problem, W: Weights, s: State) {
    s == P.start || s in W
  }

  /** `src` with `path` is recorded in the entry. */
  ghost predicate HasRecord(e: Entry, src: State, path: seq<Point>) {
    exists k :: 0 <= k < |e.sources| && k < |e.paths| && e.sources[k] == src && e.paths[k] == path
  }

  /** Split `sp` of `src`, taken at weight w, can change nothing: its
      target is recorded cheaper, or as cheap with this very source and
      path. */
  ghost predicate Settled(W: Weights, src: State, w: nat, sp: Split) {
    var t := SplitState(sp);
    t in W && (W[t].weight < w + sp.weight || (W[t].weight == w + sp.weight && HasRecord(W[t], src, sp.path)))
  }

  ghost predicate SettledUpTo(W: Weights, src: State, w: nat, splits: seq<Split>, j: nat)
    requires j <= |splits|
  {
    forall i :: 0 <= i < j ==> Settled(W, src, w, splits[i])
  }

  /** Every split of q is settled at q's weight. */
  ghost predicate Relaxed(P: Problem, W: Weights, q: State) {
    SettledUpTo(W, q, Cost0(P, W, q), Out(P, q), |Out(P, q)|)
  }

  ghost predicate Pending(P: Problem, W: Weights, queue: seq<(State, nat)>, q: State) {
    (q, Cost0(P, W, q)) in queue
  }

  /** Every known state is relaxed or waits in the queue at its weight,
      except `p`, which is being relaxed at weight w when `busy`. */
  ghost predicate Closed(P: Problem, W: Weights, queue: seq<(State, nat)>, busy: bool, p: State, w: nat) {
    && (Relaxed(P, W, P.start) || Pending(P, W, queue, P.start) || (busy && p == P.start && w == 0))
    && (forall q :: q in W ==>
          Relaxed(P, W, q) || Pending(P, W, queue, q) || (busy && q == p && w == Cost0(P, W, q)))
  }

  /** Split j of src reaches s along path, and src's weight plus the
      split's weight is at most to. */
  ghost predicate IsEdge(P: Problem, src: State, j: nat, s: State, path: seq<Point>, from: nat, to: nat) {
    j < |Out(P, src)| && SplitState(Out(P, src)[j]) == s && Out(P, src)[j].path == path
      && from + Out(P, src)[j].weight <= to
  }

  /** The recorded pair (src, path) of entry s is a split of a known state
      no dearer than s's weight. */
  ghost predicate EdgeTo(P: Problem, W: Weights, s: State, src: State, path: seq<Point>)
    requires s in W
  {
    Known(P, W, src) && exists j :: IsEdge(P, src, j, s, path, Cost0(P, W, src), W[s].weight)
  }

  ghost predicate EntryOk(P: Problem, W: Weights, s: State)
    requires s in W
  {
    && |W[s].sources| == |W[s].paths| && |W[s].sources| >= 1
    && forall k :: 0 <= k < |W[s].sources| ==> EdgeTo(P, W, s, W[s].sources[k], W[s].paths[k])
  }

  ghost predicate EntriesOk(P: Problem, W: Weights) {
    forall s :: s in W ==> EntryOk(P, W, s)
  }

  /** Every recorded weight is the cost of a nonempty chain from the start. */
  ghost predicate WalksOk(P: Problem, W: Weights, walks: map<State, seq<nat>>) {
    && walks.Keys == W.Keys
    && forall s :: s in W ==> walks[s] != [] && Walk(P, P.start, walks[s]) == Some((s, W[s].weight))
  }

  /** Every queued pair is a known state with a chain of that cost, at
      least the state's weight. */
  ghost predicate QueueOk(P: Problem, W: Weights, queue: seq<(State, nat)>, qwalks: seq<seq<nat>>) {
    && |qwalks| == |queue|
    && forall i :: 0 <= i < |queue| ==>
         Known(P, W, queue[i].0) && queue[i].1 >= Cost0(P, W, queue[i].0)
         && Walk(P, P.start, qwalks[i]) == Some(queue[i])
  }

  /** Every recorded state lies on the map. */
  ghost predicate KeysOnMap(P: Problem, W: Weights) {
    forall s :: s in W ==> InBounds(P.tiles, (s.x, s.y))
  }

  /** Every state on the map, in each facing. */
  function AllStates(m: seq<seq<Tile>>): set<State> {
    set x, y, d | 0 <= x < |m| && 0 <= y < |m[x]| && d in Directions :: State(x, y, d)
  }

  ghost predicate SearchInv(P: Problem, W: Weights, queue: seq<(State, nat)>, walks: map<State, seq<nat>>,
                      qwalks: seq<seq<nat>>, busy: bool, p: State, w: nat) {
    && EntriesOk(P, W) && WalksOk(P, W, walks) && QueueOk(P, W, queue, qwalks)
    && Closed(P, W, queue, busy, p, w) && KeysOnMap(P, W)
  }

  /** The state while the splits of p, popped at weight w with chain pw,
      are relaxed: the first j are settled. */
  ghost predicate InnerInv(P: Problem, W: Weights, queue: seq<(State, nat)>, walks: map<State, seq<nat>>,
                     qwalks: seq<seq<nat>>, p: State, w: nat, pw: seq<nat>, j: nat) {
    && SearchInv(P, W, queue, walks, qwalks, true, p, w)
    && Known(P, W, p) && w >= Cost0(P, W, p) && Walk(P, P.start, pw) == Some((p, w))
    && j <= |Out(P, p)| && SettledUpTo(W, p, w, Out(P, p), j)
  }

  // ---------------------------------------------------------------------
  // Weights only go down

  /** e2 keeps the records of e in order and may add more. */
  ghost predicate Extends(e2: Entry, e: Entry) {
    && |e.sources| <= |e2.sources| && |e.paths| <= |e2.paths|
    && (forall k :: 0 <= k < |e.sources| ==> e2.sources[k] == e.sources[k])
    && (forall k :: 0 <= k < |e.paths| ==> e2.paths[k] == e.paths[k])
  }

  ghost predicate Below(W2: Weights, W: Weights) {
    && W.Keys <= W2.Keys
    && forall s :: s in W ==> W2[s].weight <= W[s].weight && (W2[s].weight == W[s].weight ==> Extends(W2[s], W[s]))
  }

  /** Adding records to an entry without changing its weight. */
  lemma BelowTie(W: Weights, t: State, p: State, path: seq<Point>)
    requires t in W
    ensures Below(W[t := Entry(W[t].weight, W[t].sources + [p], W[t].paths + [path])], W)
  {
  }

  /** Setting one entry adds at most its key and changes no other. */
  lemma ImproveFrame(W: Weights, t: State, e: Entry)
    ensures W[t := e].Keys == W.Keys + {t} && W[t := e][t] == e
    ensures forall s :: s in W && s != t ==> W[t := e][s] == W[s]
  {
  }

  /** Replacing an entry by a cheaper one, or adding a new one. */
  lemma BelowImprove(W: Weights, t: State, e: Entry)
    requires t !in W || e.weight < W[t].weight
    ensures Below(W[t := e], W)
  {
  }

  lemma SettledMono(W: Weights, W2: Weights, src: State, w: nat, sp: Split)
    requires Below(W2, W) && Settled(W, src, w, sp)
    ensures Settled(W2, src, w, sp)
  {
    var t := SplitState(sp);
    if W2[t].weight == W[t].weight && W[t].weight == w + sp.weight {
      var k :| 0 <= k < |W[t].sources| && k < |W[t].paths| && W[t].sources[k] == src && W[t].paths[k] == sp.path;
      assert W2[t].sources[k] == src && W2[t].paths[k] == sp.path;
    }
  }

  lemma SettledUpToMono(W: Weights, W2: Weights, src: State, w: nat, splits: seq<Split>, j: nat)
    requires j <= |splits| && Below(W2, W) && SettledUpTo(W, src, w, splits, j)
    ensures SettledUpTo(W2, src, w, splits, j)
  {
    forall i | 0 <= i < j ensures Settled(W2, src, w, splits[i]) {
      SettledMono(W, W2, src, w, splits[i]);
    }
  }

  /** A state in the grid is one of AllStates. */
  lemma InAllStates(m: seq<seq<Tile>>, s: State)
    requires InBounds(m, (s.x, s.y))
    ensures s in AllStates(m)
  {
    assert Directions[DirIndex(s.dir)] == s.dir;
  }

  lemma Cost0Mono(P: Problem, W: Weights, W2: Weights, s: State)
    requires Below(W2, W) && Known(P, W, s)
    ensures Cost0(P, W2, s) <= Cost0(P, W, s)
  {
  }

  /** A recorded edge of s stays recorded when weights go down and s's
      own weight stays. */
  lemma EdgeMono(P: Problem, W: Weights, W2: Weights, s: State, src: State, path: seq<Point>)
    requires s in W && s in W2 && W2[s].weight == W[s].weight && Below(W2, W)
    requires EdgeTo(P, W, s, src, path)
    ensures EdgeTo(P, W2, s, src, path)
  {
    var j :| IsEdge(P, src, j, s, path, Cost0(P, W, src), W[s].weight);
    Cost0Mono(P, W, W2, src);
    assert IsEdge(P, src, j, s, path, Cost0(P, W2, src), W2[s].weight);
  }

  lemma EntryMono(P: Problem, W: Weights, W2: Weights, s: State)
    requires s in W && s in W2 && W2[s] == W[s] && Below(W2, W) && EntryOk(P, W, s)
    ensures EntryOk(P, W2, s)
  {
    forall k | 0 <= k < |W2[s].sources|
      ensures EdgeTo(P, W2, s, W2[s].sources[k], W2[s].paths[k])
    {
      EdgeMono(P, W, W2, s, W[s].sources[k], W[s].paths[k]);
    }
  }

  /** Every split of a well-formed problem ends on the map. */
  lemma OutOnMap(P: Problem, s: State, j: nat)
    requires WellFormed(P) && j < |Out(P, s)|
    ensures InBounds(P.tiles, (Out(P, s)[j].x, Out(P, s)[j].y))
  {
  }

  lemma KeysInAll(P: Problem, W: Weights)
    requires KeysOnMap(P, W)
    ensures W.Keys <= AllStates(P.tiles)
  {
    forall s | s in W ensures s in AllStates(P.tiles) {
      InAllStates(P.tiles, s);
    }
  }

  /** Popping the last queued pair starts its relaxation. */
  lemma PopStarts(P: Problem, W: Weights, queue: seq<(State, nat)>, walks: map<State, seq<nat>>,
                  qwalks: seq<seq<nat>>, p0: State, w0: nat)
    requires SearchInv(P, W, queue, walks, qwalks, false, p0, w0) && queue != []
    ensures var n := |queue|;
      InnerInv(P, W, queue[..n - 1], walks, qwalks[..n - 1], queue[n - 1].0, queue[n - 1].1, qwalks[n - 1], 0)
  {
    var n := |queue|;
    var (p, w) := queue[n - 1];
    var rest := queue[..n - 1];
    assert forall x :: x in queue ==> x == queue[n - 1] || x in rest by {
      forall x | x in queue ensures x == queue[n - 1] || x in rest {
        var i :| 0 <= i < n && queue[i] == x;
        if i < n - 1 { assert rest[i] == x; }
      }
    }
    assert QueueOk(P, W, queue, qwalks);
    assert Walk(P, P.start, qwalks[n - 1]) == Some((p, w));
  }

  /** When every split of p is settled, p is relaxed or waits again. */
  lemma RelaxDone(P: Problem, W: Weights, queue: seq<(State, nat)>, walks: map<State, seq<nat>>,
                  qwalks: seq<seq<nat>>, p: State, w: nat, pw: seq<nat>)
    requires InnerInv(P, W, queue, walks, qwalks, p, w, pw, |Out(P, p)|)
    ensures SearchInv(P, W, queue, walks, qwalks, false, P.start, 0)
  {
  }

  /** A split leading to a dearer weight changes nothing. */
  lemma RelaxSkip(P: Problem, W: Weights, queue: seq<(State, nat)>, walks: map<State, seq<nat>>,
                  qwalks: seq<seq<nat>>, p: State, w: nat, pw: seq<nat>, j: nat, sp: Split, t: State)
    requires InnerInv(P, W, queue, walks, qwalks, p, w, pw, j) && j < |Out(P, p)|
    requires sp == Out(P, p)[j] && t == SplitState(sp) && t in W && w + sp.weight > W[t].weight
    ensures InnerInv(P, W, queue, walks, qwalks, p, w, pw, j + 1)
  {
  }

  /** A split reaching a state at its recorded weight is added to its
      sources. */
  lemma RelaxTie(P: Problem, W: Weights, W2: Weights, queue: seq<(State, nat)>, walks: map<State, seq<nat>>,
                 qwalks: seq<seq<nat>>, p: State, w: nat, pw: seq<nat>, j: nat, sp: Split, t: State)
    requires InnerInv(P, W, queue, walks, qwalks, p, w, pw, j) && j < |Out(P, p)|
    requires sp == Out(P, p)[j] && t == SplitState(sp)
    requires t in W && w + sp.weight == W[t].weight
    requires W2 == W[t := Entry(W[t].weight, W[t].sources + [p], W[t].paths + [sp.path])]
    ensures InnerInv(P, W2, queue, walks, qwalks, p, w, pw, j + 1) && Below(W2, W)
  {
    BelowTie(W, t, p, sp.path);
    TieEntries(P, W, W2, p, w, j);
    TieClosed(P, W, W2, queue, p, w);
    assert EntryOk(P, W, t);
    TieSettled(P, W, W2, p, w, j);
    Cost0Mono(P, W, W2, p);
  }

  lemma TieEntries(P: Problem, W: Weights, W2: Weights, p: State, w: nat, j: nat)
    requires EntriesOk(P, W) && Known(P, W, p) && w >= Cost0(P, W, p) && j < |Out(P, p)|
    requires var sp := Out(P, p)[j]; var t := SplitState(sp);
      t in W && w + sp.weight == W[t].weight
      && W2 == W[t := Entry(W[t].weight, W[t].sources + [p], W[t].paths + [sp.path])]
    ensures EntriesOk(P, W2)
  {
    var sp := Out(P, p)[j];
    var t := SplitState(sp);
    assert Below(W2, W);
    forall s | s in W2 ensures EntryOk(P, W2, s) {
      if s == t {
        assert EntryOk(P, W, t);
        forall k | 0 <= k < |W2[t].sources|
          ensures EdgeTo(P, W2, t, W2[t].sources[k], W2[t].paths[k])
        {
          if k < |W[t].sources| {
            EdgeMono(P, W, W2, t, W[t].sources[k], W[t].paths[k]);
          } else {
            Cost0Mono(P, W, W2, p);
            assert IsEdge(P, p, j, t, sp.path, Cost0(P, W2, p), W2[t].weight);
          }
        }
      } else {
        EntryMono(P, W, W2, s);
      }
    }
  }

  /** Adding records without changing weights keeps the closure. */
  lemma TieClosed(P: Problem, W: Weights, W2: Weights, queue: seq<(State, nat)>, p: State, w: nat)
    requires Closed(P, W, queue, true, p, w) && Below(W2, W) && W2.Keys == W.Keys
    requires forall s :: s in W ==> W2[s].weight == W[s].weight
    ensures Closed(P, W2, queue, true, p, w)
  {
    if Relaxed(P, W, P.start) {
      SettledUpToMono(W, W2, P.start, 0, Out(P, P.start), |Out(P, P.start)|);
    }
    forall q | q in W2
      ensures Relaxed(P, W2, q) || Pending(P, W2, queue, q) || (q == p && w == Cost0(P, W2, q))
    {
      assert Cost0(P, W2, q) == Cost0(P, W, q);
      if Relaxed(P, W, q) {
        SettledUpToMono(W, W2, q, Cost0(P, W, q), Out(P, q), |Out(P, q)|);
      }
    }
  }

  lemma TieSettled(P: Problem, W: Weights, W2: Weights, p: State, w: nat, j: nat)
    requires j < |Out(P, p)| && SettledUpTo(W, p, w, Out(P, p), j)
    requires var sp := Out(P, p)[j]; var t := SplitState(sp);
      t in W && w + sp.weight == W[t].weight && |W[t].sources| == |W[t].paths|
      && W2 == W[t := Entry(W[t].weight, W[t].sources + [p], W[t].paths + [sp.path])]
    ensures SettledUpTo(W2, p, w, Out(P, p), j + 1)
  {
    var sp := Out(P, p)[j];
    var t := SplitState(sp);
    assert Below(W2, W);
    SettledUpToMono(W, W2, p, w, Out(P, p), j);
    assert Settled(W2, p, w, sp) by {
      var n := |W[t].sources|;
      assert W2[t].sources[n] == p && W2[t].paths[n] == sp.path;
    }
  }

  /** A split improving (or first reaching) a state replaces its entry and
      queues it. */
  lemma RelaxImprove(P: Problem, W: Weights, queue: seq<(State, nat)>, walks: map<State, seq<nat>>,
                     qwalks: seq<seq<nat>>, W2: Weights, queue2: seq<(State, nat)>, walks2: map<State, seq<nat>>,
                     qwalks2: seq<seq<nat>>, p: State, w: nat, pw: seq<nat>, j: nat, sp: Split, t: State, nw: nat)
    requires InnerInv(P, W, queue, walks, qwalks, p, w, pw, j) && j < |Out(P, p)|
    requires sp == Out(P, p)[j] && t == SplitState(sp) && nw == w + sp.weight && InBounds(P.tiles, (t.x, t.y))
    requires t !in W || nw < W[t].weight
    requires W2 == W[t := Entry(nw, [p], [sp.path])] && queue2 == queue + [(t, nw)]
    requires walks2 == walks[t := pw + [j]] && qwalks2 == qwalks + [pw + [j]]
    ensures InnerInv(P, W2, queue2, walks2, qwalks2, p, w, pw, j + 1) && Below(W2, W)
  {
    BelowImprove(W, t, Entry(nw, [p], [sp.path]));
    ImproveEntries(P, W, W2, p, w, j);
    ImproveWalks(P, W, W2, walks, walks2, p, w, pw, j);
    ImproveQueue(P, W, W2, queue, qwalks, queue2, qwalks2, p, w, pw, j);
    ImproveFrame(W, t, Entry(nw, [p], [sp.path]));
    ClosedImprove(P, W, W2, queue, queue2, p, w, t, nw);
    ImproveSettled(P, W, W2, p, w, j);
    Cost0Mono(P, W, W2, p);
  }

  lemma ImproveEntries(P: Problem, W: Weights, W2: Weights, p: State, w: nat, j: nat)
    requires EntriesOk(P, W) && Known(P, W, p) && w >= Cost0(P, W, p) && j < |Out(P, p)|
    requires var sp := Out(P, p)[j]; var t := SplitState(sp);
      (t !in W || w + sp.weight < W[t].weight) && W2 == W[t := Entry(w + sp.weight, [p], [sp.path])]
    ensures EntriesOk(P, W2)
  {
    var sp := Out(P, p)[j];
    var t := SplitState(sp);
    assert Below(W2, W);
    forall s | s in W2 ensures EntryOk(P, W2, s) {
      if s == t {
        Cost0Mono(P, W, W2, p);
        assert IsEdge(P, p, j, t, sp.path, Cost0(P, W2, p), W2[t].weight);
      } else {
        EntryMono(P, W, W2, s);
      }
    }
  }

  lemma ImproveWalks(P: Problem, W: Weights, W2: Weights, walks: map<State, seq<nat>>, walks2: map<State, seq<nat>>,
                     p: State, w: nat, pw: seq<nat>, j: nat)
    requires WalksOk(P, W, walks)
    requires Walk(P, P.start, pw) == Some((p, w)) && j < |Out(P, p)|
    requires var sp := Out(P, p)[j]; var t := SplitState(sp);
      W2 == W[t := Entry(w + sp.weight, [p], [sp.path])] && walks2 == walks[t := pw + [j]]
    ensures WalksOk(P, W2, walks2)
  {
    var sp := Out(P, p)[j];
    var t := SplitState(sp);
    WalkExtend(P, P.start, pw, j);
    assert Walk(P, P.start, walks2[t]) == Some((t, W2[t].weight));
    forall s | s in W2 ensures walks2[s] != [] && Walk(P, P.start, walks2[s]) == Some((s, W2[s].weight)) {
      if s != t {
        assert walks2[s] == walks[s] && W2[s] == W[s];
      }
    }
  }

  lemma ImproveQueue(P: Problem, W: Weights, W2: Weights, queue: seq<(State, nat)>, qwalks: seq<seq<nat>>,
                     queue2: seq<(State, nat)>, qwalks2: seq<seq<nat>>, p: State, w: nat, pw: seq<nat>, j: nat)
    requires QueueOk(P, W, queue, qwalks)
    requires Walk(P, P.start, pw) == Some((p, w)) && j < |Out(P, p)|
    requires var sp := Out(P, p)[j]; var t := SplitState(sp);
      && (t !in W || w + sp.weight < W[t].weight) && W2 == W[t := Entry(w + sp.weight, [p], [sp.path])]
      && queue2 == queue + [(t, w + sp.weight)] && qwalks2 == qwalks + [pw + [j]]
    ensures QueueOk(P, W2, queue2, qwalks2)
  {
    var sp := Out(P, p)[j];
    var t := SplitState(sp);
    assert Below(W2, W);
    WalkExtend(P, P.start, pw, j);
    forall i | 0 <= i < |queue2|
      ensures Known(P, W2, queue2[i].0) && queue2[i].1 >= Cost0(P, W2, queue2[i].0)
        && Walk(P, P.start, qwalks2[i]) == Some(queue2[i])
    {
      if i < |queue| {
        assert queue2[i] == queue[i] && qwalks2[i] == qwalks[i];
        Cost0Mono(P, W, W2, queue[i].0);
      } else {
        assert queue2[i] == (t, w + sp.weight) && qwalks2[i] == pw + [j];
      }
    }
  }

  lemma ImproveSettled(P: Problem, W: Weights, W2: Weights, p: State, w: nat, j: nat)
    requires j < |Out(P, p)| && SettledUpTo(W, p, w, Out(P, p), j)
    requires var sp := Out(P, p)[j]; var t := SplitState(sp);
      (t !in W || w + sp.weight < W[t].weight) && W2 == W[t := Entry(w + sp.weight, [p], [sp.path])]
    ensures SettledUpTo(W2, p, w, Out(P, p), j + 1)
  {
    var sp := Out(P, p)[j];
    var t := SplitState(sp);
    assert Below(W2, W);
    SettledUpToMono(W, W2, p, w, Out(P, p), j);
    assert Settled(W2, p, w, sp) by {
      assert W2[t].sources[0] == p && W2[t].paths[0] == sp.path;
    }
  }

  lemma ClosedImprove(P: Problem, W: Weights, W2: Weights, queue: seq<(State, nat)>, queue2: seq<(State, nat)>,
                      p: State, w: nat, t: State, nw: nat)
    requires Closed(P, W, queue, true, p, w) && Below(W2, W)
    requires W2.Keys == W.Keys + {t} && W2[t].weight == nw && queue2 == queue + [(t, nw)]
    requires forall s :: s in W && s != t ==> W2[s] == W[s]
    ensures Closed(P, W2, queue2, true, p, w)
  {
    assert forall x :: x in queue ==> x in queue2;
    assert (t, nw) in queue2;
    if Relaxed(P, W, P.start) {
      SettledUpToMono(W, W2, P.start, 0, Out(P, P.start), |Out(P, P.start)|);
    }
    forall q | q in W2
      ensures Relaxed(P, W2, q) || Pending(P, W2, queue2, q) || (q == p && w == Cost0(P, W2, q))
    {
      if q == P.start {
      } else if q == t {
        assert Pending(P, W2, queue2, q);
      } else {
        assert Cost0(P, W2, q) == Cost0(P, W, q);
        if Relaxed(P, W, q) {
          SettledUpToMono(W, W2, q, Cost0(P, W, q), Out(P, q), |Out(P, q)|);
        }
      }
    }
  }

  /** The state before the first pop: nothing recorded, the start queued
      at weight 0. */
  lemma SearchStarts(P: Problem)
    ensures SearchInv(P, map[], [(P.start, 0)], map[], [[]], false, P.start, 0)
  {
    assert Pending(P, map[], [(P.start, 0)], P.start);
  }

  // ---------------------------------------------------------------------
  // The drained queue

  /** Every known state has all its splits settled. */
  ghost predicate AllRelaxed(P: Problem, W: Weights) {
    Relaxed(P, W, P.start) && forall q :: q in W ==> Relaxed(P, W, q)
  }

  lemma Drained(P: Problem, W: Weights, p: State, w: nat)
    requires Closed(P, W, [], false, p, w)
    ensures AllRelaxed(P, W)
  {
  }

  /** Once every known state is relaxed, every state a nonempty chain of
      splits reaches from the start is recorded, no dearer than the chain. */
  lemma {:induction false} Optimal(P: Problem, W: Weights, walk: seq<nat>)
    requires AllRelaxed(P, W)
    requires walk != [] && Walk(P, P.start, walk).Some?
    ensures var (t, c) := Walk(P, P.start, walk).value; t in W && W[t].weight <= c
    decreases |walk|
  {
    var a := walk[..|walk| - 1];
    var k := walk[|walk| - 1];
    assert a + [k] == walk;
    var (s, c0) := Walk(P, P.start, a).value;
    if a != [] {
      Optimal(P, W, a);
    }
    assert Known(P, W, s) && Cost0(P, W, s) <= c0;
    assert Relaxed(P, W, s);
    assert Settled(W, s, Cost0(P, W, s), Out(P, s)[k]);
  }

  // ---------------------------------------------------------------------
  // Termination: keys only grow and weights only drop

  ghost function Pick(ks: set<State>): State
    requires ks != {}
  {
    var s :| s in ks; s
  }

  /** The sum of the weights recorded for ks. */
  ghost function TotalWeight(W: Weights, ks: set<State>): nat
    requires ks <= W.Keys
    decreases ks
  {
    if ks == {} then 0 else W[Pick(ks)].weight + TotalWeight(W, ks - {Pick(ks)})
  }

  lemma {:induction false} TotalMono(W: Weights, W2: Weights, ks: set<State>)
    requires ks <= W.Keys && ks <= W2.Keys
    requires forall s :: s in ks ==> W2[s].weight <= W[s].weight
    ensures TotalWeight(W2, ks) <= TotalWeight(W, ks)
    ensures (exists s :: s in ks && W2[s].weight < W[s].weight) ==> TotalWeight(W2, ks) < TotalWeight(W, ks)
    decreases ks
  {
    if ks != {} {
      var s := Pick(ks);
      TotalMono(W, W2, ks - {s});
      if exists s' :: s' in ks && W2[s'].weight < W[s'].weight {
        var s' :| s' in ks && W2[s'].weight < W[s'].weight;
        if s' != s {
          assert s' in ks - {s};
        }
      }
    }
  }

  /** Some key was added, or some weight dropped. */
  ghost predicate Progress(W: Weights, W0: Weights) {
    W0.Keys < W.Keys || (W.Keys == W0.Keys && exists s :: s in W0 && s in W && W[s].weight < W0[s].weight)
  }

  /** The same keys with the same weights. */
  ghost predicate Same(W: Weights, W0: Weights) {
    W.Keys == W0.Keys && forall s :: s in W0 ==> W[s].weight == W0[s].weight
  }

  lemma BelowTrans(W2: Weights, W: Weights, W0: Weights)
    requires Below(W2, W) && Below(W, W0)
    ensures Below(W2, W0)
  {
  }

  lemma StepKeep(W: Weights, W2: Weights, W0: Weights)
    requires W2.Keys == W.Keys && forall s :: s in W ==> W2[s].weight == W[s].weight
    ensures Progress(W, W0) ==> Progress(W2, W0)
    ensures Same(W, W0) ==> Same(W2, W0)
  {
  }

  lemma StepImprove(W: Weights, W2: Weights, W0: Weights, t: State)
    requires Below(W, W0) && W2.Keys == W.Keys + {t} && (t in W ==> W2[t].weight < W[t].weight)
    ensures Progress(W2, W0)
  {
    if t in W0 {
      assert W2[t].weight < W0[t].weight;
    } else {
      assert t in W2.Keys - W0.Keys;
    }
  }

  lemma ProperSubset<T>(A: set<T>, B: set<T>)
    requires A < B
    ensures B - A != {}
  {
    assert B == A + (B - A);
  }

  lemma CardSubset<T>(A: set<T>, B: set<T>)
    requires A <= B
    ensures |A| <= |B|
  {
    assert B == A + (B - A);
  }

  /** The loop measure drops when some key was added or some weight dropped. */
  lemma MeasureDrops(W: Weights, W0: Weights, U: set<State>)
    requires Below(W, W0) && W.Keys <= U && Progress(W, W0)
    ensures || |U - W.Keys| < |U - W0.Keys|
            || (|U - W.Keys| == |U - W0.Keys| && TotalWeight(W, W.Keys) < TotalWeight(W0, W0.Keys))
  {
    if W0.Keys < W.Keys {
      ProperSubset(W0.Keys, W.Keys);
      var s :| s in W.Keys - W0.Keys;
      assert (U - W.Keys) + {s} <= U - W0.Keys;
      CardSubset((U - W.Keys) + {s}, U - W0.Keys);
    } else {
      TotalMono(W0, W, W0.Keys);
    }
  }

  lemma MeasureKeeps(W: Weights, W0: Weights)
    requires Same(W, W0)
    ensures TotalWeight(W, W.Keys) == TotalWeight(W0, W0.Keys)
  {
    TotalMono(W0, W, W0.Keys);
    TotalMono(W, W0, W0.Keys);
  }

  // ---------------------------------------------------------------------
  // The search loop

  /** The first loop of `cheapest_path`, over the splits of the corrected
      walk: pop the last queued state and relax its splits, until the
      queue drains.  Then every known state
      is relaxed, so by `Optimal` the recorded weights are the cheapest
      chain costs from the start. */
  method Relax(maze: Maze, reach: nat) returns (W: Weights, ghost walks: map<State, seq<nat>>)
    ensures var P := MazeProblem(maze, reach);
      EntriesOk(P, W) && WalksOk(P, W, walks) && AllRelaxed(P, W) && KeysOnMap(P, W)
  {
    ghost var P := MazeProblem(maze, reach);
    MazeProblemWellFormed(maze, reach);
    W := map[];
    var queue: seq<(State, nat)> := [(maze.position, 0)];
    walks := map[];
    ghost var qwalks: seq<seq<nat>> := [[]];
    SearchStarts(P);
    while queue != []
      invariant SearchInv(P, W, queue, walks, qwalks, false, P.start, 0)
      decreases |AllStates(P.tiles) - W.Keys|, TotalWeight(W, W.Keys), |queue|
    {
      ghost var W0 := W;
      PopStarts(P, W, queue, walks, qwalks, P.start, 0);
      var (p, w) := queue[|queue| - 1];
      ghost var pw := qwalks[|qwalks| - 1];
      var splits := ReachableSplits(maze.tiles, p.x, p.y, p.dir, reach);
      assert splits == Out(P, p);
      W, queue, walks, qwalks := RelaxSplits(P, W, queue[..|queue| - 1], walks, qwalks[..|qwalks| - 1], p, w, pw, splits);
      if Progress(W, W0) {
        KeysInAll(P, W);
        MeasureDrops(W, W0, AllStates(P.tiles));
      } else {
        MeasureKeeps(W, W0);
      }
    }
    Drained(P, W, P.start, 0);
  }

  /** The `for` loop over the splits of p, popped at weight w.
      Afterwards p is relaxed; some key was added or some weight dropped,
      or nothing changed and nothing was queued. */
  method RelaxSplits(ghost P: Problem, W0: Weights, queue0: seq<(State, nat)>, ghost walks0: map<State, seq<nat>>,
                     ghost qwalks0: seq<seq<nat>>, p: State, w: nat, ghost pw: seq<nat>, splits: seq<Split>)
    returns (W: Weights, queue: seq<(State, nat)>, ghost walks: map<State, seq<nat>>, ghost qwalks: seq<seq<nat>>)
    requires WellFormed(P) && splits == Out(P, p)
    requires InnerInv(P, W0, queue0, walks0, qwalks0, p, w, pw, 0)
    ensures SearchInv(P, W, queue, walks, qwalks, false, P.start, 0)
    ensures Below(W, W0)
    ensures Progress(W, W0) || (Same(W, W0) && queue == queue0)
  {
    W, queue, walks, qwalks := W0, queue0, walks0, qwalks0;
    for j := 0 to |splits|
      invariant InnerInv(P, W, queue, walks, qwalks, p, w, pw, j)
      invariant Below(W, W0)
      invariant Progress(W, W0) || (Same(W, W0) && queue == queue0)
    {
      ghost var W1 := W;
      W, queue, walks, qwalks := RelaxSplit(P, W, queue, walks, qwalks, p, w, pw, j, splits[j]);
      BelowTrans(W, W1, W0);
      if W == W1 {
      } else if W.Keys == W1.Keys && forall s :: s in W1 ==> W[s].weight == W1[s].weight {
        StepKeep(W1, W, W0);
      } else {
        StepImprove(W1, W, W0, State(splits[j].x, splits[j].y, splits[j].dir));
      }
    }
    RelaxDone(P, W, queue, walks, qwalks, p, w, pw);
  }

  /** One pass of the loop body on split j of p: skip a dearer weight,
      add a source on a tie, record and queue an improvement. */
  method RelaxSplit(ghost P: Problem, W0: Weights, queue0: seq<(State, nat)>, ghost walks0: map<State, seq<nat>>,
                    ghost qwalks0: seq<seq<nat>>, p: State, w: nat, ghost pw: seq<nat>, j: nat, sp: Split)
    returns (W: Weights, queue: seq<(State, nat)>, ghost walks: map<State, seq<nat>>, ghost qwalks: seq<seq<nat>>)
    requires WellFormed(P) && InnerInv(P, W0, queue0, walks0, qwalks0, p, w, pw, j)
    requires j < |Out(P, p)| && sp == Out(P, p)[j]
    ensures InnerInv(P, W, queue, walks, qwalks, p, w, pw, j + 1) && Below(W, W0)
    ensures var t := SplitState(sp);
      || (W == W0 && queue == queue0)
      || (W.Keys == W0.Keys && (forall s :: s in W0 ==> W[s].weight == W0[s].weight) && queue == queue0)
      || (W.Keys == W0.Keys + {t} && (t in W0 ==> W[t].weight < W0[t].weight))
  {
    W, queue, walks, qwalks := W0, queue0, walks0, qwalks0;
    var t := State(sp.x, sp.y, sp.dir);
    var nw: nat := w + sp.weight;
    if t in W && nw > W[t].weight {
      RelaxSkip(P, W, queue, walks, qwalks, p, w, pw, j, sp, t);
    } else if t in W && nw == W[t].weight {
      W := W[t := Entry(W[t].weight, W[t].sources + [p], W[t].paths + [sp.path])];
      RelaxTie(P, W0, W, queue, walks, qwalks, p, w, pw, j, sp, t);
    } else {
      OutOnMap(P, p, j);
      ghost var hop: seq<nat> := pw + [j];
      W := W[t := Entry(nw, [p], [sp.path])];
      queue := queue + [(t, nw)];
      walks := walks[t := hop];
      qwalks := qwalks + [hop];
      RelaxImprove(P, W0, queue0, walks0, qwalks0, W, queue, walks, qwalks, p, w, pw, j, sp, t, nw);
    }
  }

  // ---------------------------------------------------------------------
  // Choosing the end state

  /** The end route `end_routes.first()` picks after sorting by weight: a
      recorded state on the end cell of least weight, the first such in
      the (unspecified) order the map is walked; None where the source
      would panic on `unwrap`. */
  method CheapestEnd(W: Weights, end: Point) returns (found: Option<State>)
    ensures found.None? <==> forall s :: s in W ==> (s.x, s.y) != end
    ensures found.Some? ==> found.value in W && (found.value.x, found.value.y) == end
    ensures found.Some? ==> forall s :: s in W && (s.x, s.y) == end ==> W[found.value].weight <= W[s].weight
  {
    var ends := set s | s in W.Keys && (s.x, s.y) == end;
    var rest := ends;
    found := None;
    while rest != {}
      invariant rest <= ends
      invariant found.None? ==> rest == ends
      invariant found.Some? ==> found.value in ends && forall s :: s in ends - rest ==> W[found.value].weight <= W[s].weight
      decreases |rest|
    {
      var s :| s in rest;
      if found.None? || W[s].weight < W[found.value].weight {
        found := Some(s);
      }
      rest := rest - {s};
    }
    if found.None? {
      assert forall s :: s in W ==> (s.x, s.y) != end by {
        forall s | s in W ensures (s.x, s.y) != end {
          assert s in ends <==> (s.x, s.y) == end;
        }
      }
    }
  }

  // ---------------------------------------------------------------------
  // Collecting the tiles

  /** The cells of every path of `paths`. */
  function PathsCells(paths: seq<seq<Point>>): (r: set<Point>)
    ensures forall q :: q in r <==> exists k :: 0 <= k < |paths| && q in paths[k]
  {
    if |paths| == 0 then {}
    else
      var r := PathsCells(paths[..|paths| - 1]) + PathCells(paths[|paths| - 1]);
      assert forall q :: q in r <==> exists k :: 0 <= k < |paths| && q in paths[k] by {
        forall q ensures q in r <==> exists k :: 0 <= k < |paths| && q in paths[k] {
          if q in r {
            if q !in PathCells(paths[|paths| - 1]) {
              var k :| 0 <= k < |paths| - 1 && q in paths[..|paths| - 1][k];
              assert q in paths[k];
            }
          }
          if exists k :: 0 <= k < |paths| && q in paths[k] {
            var k :| 0 <= k < |paths| && q in paths[k];
            if k < |paths| - 1 {
              assert q in paths[..|paths| - 1][k];
            }
          }
        }
      }
      r
  }

  /** The nested `for_each` adding every point of every path to
      `visited_points`. */
  method CollectCells(cells: set<Point>, paths: seq<seq<Point>>) returns (r: set<Point>)
    ensures r == cells + PathsCells(paths)
  {
    r := cells;
    for i := 0 to |paths|
      invariant r == cells + PathsCells(paths[..i])
    {
      for k := 0 to |paths[i]|
        invariant r == cells + PathsCells(paths[..i]) + PathCells(paths[i][..k])
      {
        assert PathCells(paths[i][..k + 1]) == PathCells(paths[i][..k]) + {paths[i][k]} by {
          assert paths[i][..k + 1] == paths[i][..k] + [paths[i][k]];
        }
        r := r + {paths[i][k]};
      }
      assert paths[..i + 1][..i] == paths[..i];
      assert paths[i][..|paths[i]|] == paths[i];
    }
    assert paths[..|paths|] == paths;
  }

  /** u's recorded paths are collected: u is the end state, or a
      followed source that has an entry. */
  ghost predicate Followed(e: State, seen: set<State>, u: State) {
    u == e || u in seen
  }

  /** `tiles` is exactly the union of the recorded paths of the followed
      entries. */
  ghost predicate TilesOk(W: Weights, e: State, seen: set<State>, tiles: set<Point>) {
    && (forall u :: u in W && Followed(e, seen, u) ==> PathsCells(W[u].paths) <= tiles)
    && (forall q :: q in tiles ==> exists u :: u in W && Followed(e, seen, u) && q in PathsCells(W[u].paths))
  }

  /** Every source of a followed entry was followed or waits on the stack. */
  ghost predicate SourcesOk(W: Weights, e: State, seen: set<State>, follow: seq<State>) {
    forall u, k :: u in W && Followed(e, seen, u) && 0 <= k < |W[u].sources| ==>
      W[u].sources[k] in seen || W[u].sources[k] in follow
  }

  /** Some chain of splits leads from x to e at the cost still missing
      from x's relaxation weight to e's weight. */
  ghost predicate Leads(P: Problem, W: Weights, x: State, e: State) {
    e in W && exists ch :: (Walk(P, x, ch).Some? && Walk(P, x, ch).value.0 == e
                            && Cost0(P, W, x) + Walk(P, x, ch).value.1 == W[e].weight)
  }

  ghost predicate LeadsOk(P: Problem, W: Weights, e: State, seen: set<State>, follow: seq<State>) {
    P.start !in W ==>
      && (forall x :: x in seen ==> Leads(P, W, x, e))
      && (forall i :: 0 <= i < |follow| ==> Leads(P, W, follow[i], e))
  }

  /** A cheapest chain of splits from the start to t, of cost c, passes q. */
  ghost predicate OnCheapest(P: Problem, t: State, c: nat, q: Point) {
    exists walk :: walk != [] && Walk(P, P.start, walk) == Some((t, c)) && q in WalkCells(P, P.start, walk)
  }

  /** The second loop of `cheapest_path`: pop a source; the first time it
      is seen, push its sources and collect its paths' cells. */
  method CollectTiles(ghost P: Problem, W: Weights, ghost walks: map<State, seq<nat>>, e: State)
    returns (tiles: set<Point>, ghost seen: set<State>)
    requires WellFormed(P) && EntriesOk(P, W) && WalksOk(P, W, walks) && AllRelaxed(P, W) && e in W
    ensures TilesOk(W, e, seen, tiles) && SourcesOk(W, e, seen, [])
    ensures LeadsOk(P, W, e, seen, [])
  {
    tiles := CollectCells({}, W[e].paths);
    var visited: set<State> := {};
    var follow := W[e].sources;
    CollectStarts(P, W, walks, e, tiles);
    while follow != []
      invariant BackInv(P, W, e, visited, follow, tiles)
      decreases |(W.Keys + {P.start}) - visited|, |follow|
    {
      ghost var stack := follow;
      var x := follow[|follow| - 1];
      follow := follow[..|follow| - 1];
      if x !in visited {
        ghost var visited0, tiles0 := visited, tiles;
        visited := visited + {x};
        if x in W {
          follow := follow + W[x].sources;
          tiles := CollectCells(tiles, W[x].paths);
        }
        FollowStep(P, W, walks, e, visited0, stack, tiles0, x, visited, follow, tiles);
      } else {
        PopSeen(P, W, e, visited, stack, tiles, x, follow);
      }
    }
    seen := visited;
  }

  /** The invariant of the backward walk. */
  ghost predicate BackInv(P: Problem, W: Weights, e: State, seen: set<State>, follow: seq<State>, tiles: set<Point>) {
    && TilesOk(W, e, seen, tiles) && SourcesOk(W, e, seen, follow)
    && LeadsOk(P, W, e, seen, follow)
    && (forall i :: 0 <= i < |follow| ==> Known(P, W, follow[i]))
    && seen <= W.Keys + {P.start}
  }

  lemma CollectStarts(P: Problem, W: Weights, walks: map<State, seq<nat>>, e: State, tiles: set<Point>)
    requires EntriesOk(P, W) && WalksOk(P, W, walks) && AllRelaxed(P, W) && e in W
    requires tiles == {} + PathsCells(W[e].paths)
    ensures BackInv(P, W, e, {}, W[e].sources, tiles)
  {
    var follow := W[e].sources;
    assert EntryOk(P, W, e);
    forall u, k | u in W && Followed(e, {}, u) && 0 <= k < |W[u].sources|
      ensures W[u].sources[k] in {} || W[u].sources[k] in follow
    {
      assert follow[k] == W[u].sources[k];
    }
    if P.start !in W {
      LeadsSelf(P, W, e);
      forall i | 0 <= i < |follow| ensures Leads(P, W, follow[i], e) {
        LeadsSource(P, W, walks, e, e, i);
      }
    }
  }

  /** Popping a source already followed keeps the invariant. */
  lemma PopSeen(P: Problem, W: Weights, e: State, seen: set<State>, stack: seq<State>, tiles: set<Point>,
                x: State, follow: seq<State>)
    requires BackInv(P, W, e, seen, stack, tiles)
    requires stack != [] && x == stack[|stack| - 1] && follow == stack[..|stack| - 1] && x in seen
    ensures BackInv(P, W, e, seen, follow, tiles)
    ensures |(W.Keys + {P.start}) - seen| <= |(W.Keys + {P.start}) - seen| && |follow| < |stack|
  {
    forall u, k | u in W && Followed(e, seen, u) && 0 <= k < |W[u].sources|
      ensures W[u].sources[k] in seen || W[u].sources[k] in follow
    {
      var y := W[u].sources[k];
      if y !in seen {
        var i :| 0 <= i < |stack| && stack[i] == y;
        assert i < |follow| && follow[i] == y;
      }
    }
    forall i | 0 <= i < |follow| ensures Known(P, W, follow[i]) && (P.start !in W ==> Leads(P, W, follow[i], e)) {
      assert stack[i] == follow[i];
    }
  }

  /** Following a source the first time keeps the invariant and shrinks
      the set of states not yet followed. */
  lemma FollowStep(P: Problem, W: Weights, walks: map<State, seq<nat>>, e: State,
                   seen: set<State>, stack: seq<State>, tiles: set<Point>, x: State,
                   seen2: set<State>, follow2: seq<State>, tiles2: set<Point>)
    requires EntriesOk(P, W) && WalksOk(P, W, walks) && AllRelaxed(P, W) && e in W
    requires BackInv(P, W, e, seen, stack, tiles)
    requires stack != [] && x == stack[|stack| - 1] && x !in seen && seen2 == seen + {x}
    requires x in W ==> follow2 == stack[..|stack| - 1] + W[x].sources && tiles2 == tiles + PathsCells(W[x].paths)
    requires x !in W ==> follow2 == stack[..|stack| - 1] && tiles2 == tiles
    ensures BackInv(P, W, e, seen2, follow2, tiles2)
    ensures |(W.Keys + {P.start}) - seen2| < |(W.Keys + {P.start}) - seen|
  {
    var follow := stack[..|stack| - 1];
    Seqs.SplitLast(stack);
    assert Known(P, W, x) by { assert stack[|stack| - 1] == x; }
    FollowTiles(W, e, seen, tiles, x, seen2, tiles2);
    FollowSources(W, e, seen, follow, x, seen2, follow2);
    FollowKnown(P, W, e, follow, x, follow2);
    if P.start !in W {
      FollowLeads(P, W, walks, e, seen, follow, x, seen2, follow2);
    }
    CardStep(W.Keys + {P.start}, seen, x);
  }

  /** Following one more state of U leaves fewer to follow. */
  lemma CardStep(U: set<State>, seen: set<State>, x: State)
    requires x in U && x !in seen
    ensures |U - (seen + {x})| < |U - seen|
  {
    assert (U - (seen + {x})) + {x} == U - seen;
  }

  lemma FollowKnown(P: Problem, W: Weights, e: State, follow: seq<State>, x: State, follow2: seq<State>)
    requires EntriesOk(P, W)
    requires forall i :: 0 <= i < |follow + [x]| ==> Known(P, W, (follow + [x])[i])
    requires x in W ==> follow2 == follow + W[x].sources
    requires x !in W ==> follow2 == follow
    ensures forall i :: 0 <= i < |follow2| ==> Known(P, W, follow2[i])
  {
    if x in W {
      assert EntryOk(P, W, x);
    }
    forall i | 0 <= i < |follow2| ensures Known(P, W, follow2[i]) {
      if i < |follow| {
        assert follow2[i] == (follow + [x])[i];
      } else {
        assert follow2[i] == W[x].sources[i - |follow|];
      }
    }
  }

  lemma FollowLeads(P: Problem, W: Weights, walks: map<State, seq<nat>>, e: State,
                    seen: set<State>, follow: seq<State>, x: State, seen2: set<State>, follow2: seq<State>)
    requires EntriesOk(P, W) && WalksOk(P, W, walks) && AllRelaxed(P, W) && e in W && P.start !in W
    requires LeadsOk(P, W, e, seen, follow + [x]) && seen2 == seen + {x}
    requires x in W ==> follow2 == follow + W[x].sources
    requires x !in W ==> follow2 == follow
    ensures LeadsOk(P, W, e, seen2, follow2)
  {
    assert Leads(P, W, x, e) by {
      assert (follow + [x])[|follow|] == x;
    }
    forall i | 0 <= i < |follow2| ensures Leads(P, W, follow2[i], e) {
      if i < |follow| {
        assert follow2[i] == (follow + [x])[i];
      } else {
        assert follow2[i] == W[x].sources[i - |follow|];
        LeadsSource(P, W, walks, e, x, i - |follow|);
      }
    }
  }

  lemma FollowTiles(W: Weights, e: State, seen: set<State>, tiles: set<Point>, x: State,
                    seen2: set<State>, tiles2: set<Point>)
    requires TilesOk(W, e, seen, tiles) && seen2 == seen + {x}
    requires x in W ==> tiles2 == tiles + PathsCells(W[x].paths)
    requires x !in W ==> tiles2 == tiles
    ensures TilesOk(W, e, seen2, tiles2)
  {
    forall q | q in tiles2 ensures exists u :: u in W && Followed(e, seen2, u) && q in PathsCells(W[u].paths) {
      if q !in tiles {
        assert x in W && Followed(e, seen2, x) && q in PathsCells(W[x].paths);
      }
    }
  }

  lemma FollowSources(W: Weights, e: State, seen: set<State>, follow: seq<State>, x: State,
                      seen2: set<State>, follow2: seq<State>)
    requires SourcesOk(W, e, seen, follow + [x]) && seen2 == seen + {x}
    requires x in W ==> follow2 == follow + W[x].sources
    requires x !in W ==> follow2 == follow
    ensures SourcesOk(W, e, seen2, follow2)
  {
    forall u, k | u in W && Followed(e, seen2, u) && 0 <= k < |W[u].sources|
      ensures W[u].sources[k] in seen2 || W[u].sources[k] in follow2
    {
      var y := W[u].sources[k];
      if u == x {
        assert follow2[|follow| + k] == y;
      } else if y !in seen2 {
        assert y in follow + [x];
        var i :| 0 <= i < |follow + [x]| && (follow + [x])[i] == y;
        assert i < |follow|;
        assert follow2[i] == y;
      }
    }
  }

  /** The end state leads to itself by the empty chain. */
  lemma LeadsSelf(P: Problem, W: Weights, e: State)
    requires e in W && P.start !in W
    ensures Leads(P, W, e, e)
  {
    assert Walk(P, e, []) == Some((e, 0));
  }

  /** The k-th recorded source of a state u that leads to e leads to e
      too, through the recorded split. */
  lemma LeadsSource(P: Problem, W: Weights, walks: map<State, seq<nat>>, e: State, u: State, k: nat)
    requires EntriesOk(P, W) && WalksOk(P, W, walks) && AllRelaxed(P, W)
    requires P.start !in W && u in W && Leads(P, W, u, e) && k < |W[u].sources|
    ensures Leads(P, W, W[u].sources[k], e)
  {
    var j := RecordedCheapest(P, W, walks, u, k);
    LeadsBack(P, W, W[u].sources[k], u, e, j);
  }

  /** Every recorded (source, path) pair of u is a split of the source
      reaching u along that path, and the source's weight plus the
      split's is u's weight: a cheapest way into u. */
  lemma RecordedCheapest(P: Problem, W: Weights, walks: map<State, seq<nat>>, u: State, k: nat) returns (j: nat)
    requires EntriesOk(P, W) && WalksOk(P, W, walks) && AllRelaxed(P, W)
    requires u in W && k < |W[u].sources|
    ensures var x := W[u].sources[k];
      && Known(P, W, x) && j < |Out(P, x)| && SplitState(Out(P, x)[j]) == u
      && k < |W[u].paths| && Out(P, x)[j].path == W[u].paths[k]
      && Cost0(P, W, x) + Out(P, x)[j].weight == W[u].weight
  {
    var x := W[u].sources[k];
    assert EntryOk(P, W, u);
    assert EdgeTo(P, W, u, x, W[u].paths[k]);
    j :| IsEdge(P, x, j, u, W[u].paths[k], Cost0(P, W, x), W[u].weight);
    var w0: seq<nat> := if x == P.start then [] else walks[x];
    assert Walk(P, P.start, w0) == Some((x, Cost0(P, W, x)));
    WalkExtend(P, P.start, w0, j);
    Optimal(P, W, w0 + [j]);
  }

  lemma LeadsBack(P: Problem, W: Weights, x: State, u: State, e: State, j: nat)
    requires Leads(P, W, u, e) && P.start !in W && u in W
    requires j < |Out(P, x)| && SplitState(Out(P, x)[j]) == u
    requires Cost0(P, W, x) + Out(P, x)[j].weight == W[u].weight
    ensures Leads(P, W, x, e)
  {
    var ch :| Walk(P, u, ch).Some? && Walk(P, u, ch).value.0 == e
      && Cost0(P, W, u) + Walk(P, u, ch).value.1 == W[e].weight;
    assert Walk(P, x, [j]) == Some((u, Out(P, x)[j].weight)) by {
      assert [j][..0] == [];
    }
    WalkAppend(P, x, [j], ch);
    var r := Walk(P, x, [j] + ch);
    assert r.Some? && r.value.0 == e && Cost0(P, W, x) + r.value.1 == W[e].weight;
  }

  // ---------------------------------------------------------------------
  // What the collected tiles are

  /** Every cheapest chain of splits to a followed state passes only
      collected tiles. */
  lemma {:induction false} Complete(P: Problem, W: Weights, e: State, seen: set<State>, tiles: set<Point>, walk: seq<nat>)
    requires WellFormed(P) && AllRelaxed(P, W) && TilesOk(W, e, seen, tiles) && SourcesOk(W, e, seen, [])
    requires walk != [] && Walk(P, P.start, walk).Some?
    requires var u := Walk(P, P.start, walk).value.0;
      u in W && Followed(e, seen, u) && Walk(P, P.start, walk).value.1 == W[u].weight
    ensures WalkCells(P, P.start, walk) <= tiles
    decreases |walk|
  {
    var a := walk[..|walk| - 1];
    var k := walk[|walk| - 1];
    assert a + [k] == walk;
    var (s, c0) := Walk(P, P.start, a).value;
    var sp := Out(P, s)[k];
    var u := SplitState(sp);
    WalkExtend(P, P.start, a, k);
    if a != [] {
      Optimal(P, W, a);
      WalkPositive(P, P.start, a);
    }
    assert Known(P, W, s) && Cost0(P, W, s) <= c0;
    assert Relaxed(P, W, s);
    assert Settled(W, s, Cost0(P, W, s), sp);
    var r :| 0 <= r < |W[u].sources| && r < |W[u].paths| && W[u].sources[r] == s && W[u].paths[r] == sp.path;
    assert PathCells(sp.path) <= PathsCells(W[u].paths);
    assert s in seen;
    if a != [] {
      assert s != P.start;
      Complete(P, W, e, seen, tiles, a);
    }
  }

  /** Every collected tile lies on a cheapest chain of splits to e, when
      the start state is never recorded. */
  lemma Sound(P: Problem, W: Weights, walks: map<State, seq<nat>>, e: State, seen: set<State>,
              tiles: set<Point>, q: Point)
    requires EntriesOk(P, W) && WalksOk(P, W, walks) && AllRelaxed(P, W) && e in W && P.start !in W
    requires TilesOk(W, e, seen, tiles) && LeadsOk(P, W, e, seen, []) && q in tiles
    ensures OnCheapest(P, e, W[e].weight, q)
  {
    var u :| u in W && Followed(e, seen, u) && q in PathsCells(W[u].paths);
    var k :| 0 <= k < |W[u].paths| && q in W[u].paths[k];
    var w1 := CheapestInto(P, W, walks, u, k);
    if u == e {
      LeadsSelf(P, W, e);
    }
    ThenLeads(P, W, u, e, w1, q);
  }

  /** A cheapest chain into u ending with u's k-th recorded split. */
  lemma CheapestInto(P: Problem, W: Weights, walks: map<State, seq<nat>>, u: State, k: nat) returns (w1: seq<nat>)
    requires EntriesOk(P, W) && WalksOk(P, W, walks) && AllRelaxed(P, W)
    requires u in W && k < |W[u].paths|
    ensures w1 != [] && Walk(P, P.start, w1) == Some((u, W[u].weight))
    ensures PathCells(W[u].paths[k]) <= WalkCells(P, P.start, w1)
  {
    assert EntryOk(P, W, u);
    var j := RecordedCheapest(P, W, walks, u, k);
    var x := W[u].sources[k];
    var w0: seq<nat> := if x == P.start then [] else walks[x];
    assert Walk(P, P.start, w0) == Some((x, Cost0(P, W, x)));
    WalkExtend(P, P.start, w0, j);
    w1 := w0 + [j];
  }

  /** A cheapest chain into a state that leads to e, continued to e, is a
      cheapest chain to e. */
  lemma ThenLeads(P: Problem, W: Weights, u: State, e: State, w1: seq<nat>, q: Point)
    requires Leads(P, W, u, e) && u in W && P.start !in W
    requires w1 != [] && Walk(P, P.start, w1) == Some((u, W[u].weight)) && q in WalkCells(P, P.start, w1)
    ensures OnCheapest(P, e, W[e].weight, q)
  {
    var ch :| Walk(P, u, ch).Some? && Walk(P, u, ch).value.0 == e
      && Cost0(P, W, u) + Walk(P, u, ch).value.1 == W[e].weight;
    WalkAppend(P, P.start, w1, ch);
    var walk := w1 + ch;
    assert walk != [] && Walk(P, P.start, walk) == Some((e, W[e].weight)) && q in WalkCells(P, P.start, walk);
  }

  /** Every recorded state is on an open tile, being where a split ends;
      so a start on a closed tile is never recorded. */
  lemma RecordedOpen(P: Problem, W: Weights)
    requires WellFormed(P) && EntriesOk(P, W)
    ensures forall s :: s in W ==> IsOpen(P.tiles, (s.x, s.y))
  {
    forall s | s in W ensures IsOpen(P.tiles, (s.x, s.y)) {
      assert EntryOk(P, W, s);
      var src := W[s].sources[0];
      assert EdgeTo(P, W, s, src, W[s].paths[0]);
      var j: nat :| IsEdge(P, src, j, s, W[s].paths[0], Cost0(P, W, src), W[s].weight);
      assert IsOpen(P.tiles, (Out(P, src)[j].x, Out(P, src)[j].y));
    }
  }

  // ---------------------------------------------------------------------
  // `cheapest_path`

  /** The part 1 answer (the returned weight), the tiles of `visited_points`
      and the part 2 answer (`visited_points.len() + 1`); NoRoute where no
      recorded state is on the end cell and the source panics. */
  datatype Outcome = NoRoute | Cheapest(cost: nat, tiles: set<Point>, seats: nat)

  /** No nonempty chain of splits from the start reaches the end cell. */
  ghost predicate NoEndRoute(P: Problem, end: Point) {
    forall walk :: walk != [] && Walk(P, P.start, walk).Some? ==>
      (Walk(P, P.start, walk).value.0.x, Walk(P, P.start, walk).value.0.y) != end
  }

  /** Every nonempty chain of splits from the start to the end cell costs
      at least c. */
  ghost predicate NoneCheaper(P: Problem, end: Point, c: nat) {
    forall walk ::
      (walk != [] && Walk(P, P.start, walk).Some?
       && (Walk(P, P.start, walk).value.0.x, Walk(P, P.start, walk).value.0.y) == end) ==>
      c <= Walk(P, P.start, walk).value.1
  }

  /** Every chain to t of cost c passes only cells of `tiles`. */
  ghost predicate Covers(P: Problem, t: State, c: nat, tiles: set<Point>) {
    forall walk :: walk != [] && Walk(P, P.start, walk) == Some((t, c)) ==> WalkCells(P, P.start, walk) <= tiles
  }

  ghost predicate RouteTo(P: Problem, t: State, c: nat) {
    exists walk :: walk != [] && Walk(P, P.start, walk) == Some((t, c))
  }

  /** `Maze::cheapest_path` over the splits of the corrected walk (on a
      maze whose end is entered only from a fork the source finds no route
      and panics, see `EndFirstStepMissed`).  The cost is the least cost of a chain of
      splits from the start to the end cell, reached in some facing
      `endState`; the tiles are exactly the cells of the cheapest chains to
      `endState` (every cell when the start tile is the closed `S` tile, as
      `Maze::from` places it). */
  method CheapestPath(maze: Maze, reach: nat) returns (outcome: Outcome, ghost endState: State)
    ensures var P := MazeProblem(maze, reach);
      outcome.NoRoute? <==> NoEndRoute(P, maze.end)
    ensures var P := MazeProblem(maze, reach);
      outcome.Cheapest? ==>
        && (endState.x, endState.y) == maze.end && RouteTo(P, endState, outcome.cost)
        && NoneCheaper(P, maze.end, outcome.cost)
        && Covers(P, endState, outcome.cost, outcome.tiles)
        && outcome.seats == |outcome.tiles| + 1
    ensures var P := MazeProblem(maze, reach);
      outcome.Cheapest? && !IsOpen(maze.tiles, (maze.position.x, maze.position.y)) ==>
        forall q :: q in outcome.tiles ==> OnCheapest(P, endState, outcome.cost, q)
  {
    ghost var P := MazeProblem(maze, reach);
    MazeProblemWellFormed(maze, reach);
    var W: Weights;
    ghost var walks: map<State, seq<nat>>;
    W, walks := Relax(maze, reach);
    var found := CheapestEnd(W, maze.end);
    if found.None? {
      outcome, endState := NoRoute, maze.position;
      NoRouteFound(P, W, walks, maze.end);
    } else {
      var e := found.value;
      var tiles: set<Point>;
      ghost var seen: set<State>;
      tiles, seen := CollectTiles(P, W, walks, e);
      outcome, endState := Cheapest(W[e].weight, tiles, |tiles| + 1), e;
      RouteFound(P, W, walks, maze.end, e, seen, tiles);
      if !IsOpen(maze.tiles, (maze.position.x, maze.position.y)) {
        RecordedOpen(P, W);
        forall q | q in tiles ensures OnCheapest(P, e, W[e].weight, q) {
          Sound(P, W, walks, e, seen, tiles, q);
        }
      }
    }
  }

  /** No recorded end state means no chain to the end cell, and back. */
  lemma NoRouteFound(P: Problem, W: Weights, walks: map<State, seq<nat>>, end: Point)
    requires WalksOk(P, W, walks) && AllRelaxed(P, W)
    ensures (forall s :: s in W ==> (s.x, s.y) != end) <==> NoEndRoute(P, end)
  {
    if forall s :: s in W ==> (s.x, s.y) != end {
      forall walk | walk != [] && Walk(P, P.start, walk).Some?
        ensures (Walk(P, P.start, walk).value.0.x, Walk(P, P.start, walk).value.0.y) != end
      {
        Optimal(P, W, walk);
      }
    } else {
      var s :| s in W && (s.x, s.y) == end;
      assert walks[s] != [] && Walk(P, P.start, walks[s]).Some?;
    }
  }

  lemma RouteFound(P: Problem, W: Weights, walks: map<State, seq<nat>>, end: Point, e: State,
                   seen: set<State>, tiles: set<Point>)
    requires WellFormed(P) && WalksOk(P, W, walks) && AllRelaxed(P, W)
    requires e in W && (e.x, e.y) == end
    requires forall s :: s in W && (s.x, s.y) == end ==> W[e].weight <= W[s].weight
    requires TilesOk(W, e, seen, tiles) && SourcesOk(W, e, seen, [])
    ensures RouteTo(P, e, W[e].weight) && NoneCheaper(P, end, W[e].weight)
    ensures Covers(P, e, W[e].weight, tiles)
    ensures (forall s :: s in W ==> (s.x, s.y) != end) == false
  {
    assert walks[e] != [] && Walk(P, P.start, walks[e]) == Some((e, W[e].weight));
    forall walk | walk != [] && Walk(P, P.start, walk).Some?
      && (Walk(P, P.start, walk).value.0.x, Walk(P, P.start, walk).value.0.y) == end
      ensures W[e].weight <= Walk(P, P.start, walk).value.1
    {
      Optimal(P, W, walk);
    }
    forall walk | walk != [] && Walk(P, P.start, walk) == Some((e, W[e].weight))
      ensures WalkCells(P, P.start, walk) <= tiles
    {
      Complete(P, W, e, seen, tiles, walk);
    }
  }
}
