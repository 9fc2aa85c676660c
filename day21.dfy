/** Day 21: a door code typed through a numeric keypad and two directional
    keypads, each worked by a robot arm driven from the keypad after it. */
module Keypads {
  import opened Wrappers
  import opened Grid
  import Text

  /** A key: a digit of the numeric keypad, Enter (A), or a direction that
      moves the arm by (dx, dy). */
  datatype Button = Number(c: char) | Enter | Movement(dx: int, dy: int)

  const Left: Button := Movement(-1, 0)
  const Right: Button := Movement(1, 0)
  const Up: Button := Movement(0, -1)
  const Down: Button := Movement(0, 1)

  /** The four direction keys. */
  predicate Direction(b: Button) {
    b == Left || b == Right || b == Up || b == Down
  }

  // ---------------------------------------------------------------------
  // Display

  /** `Display for Button`: a digit prints itself, Enter prints A, a
      direction its arrow; any other movement is `unreachable!()`. */
  function Show(b: Button): (r: Option<char>)
    ensures r.None? <==> b.Movement? && !Direction(b)
  {
    match b
    case Number(c) => Some(c)
    case Enter => Some('A')
    case Movement(dx, dy) =>
      if (dx, dy) == (-1, 0) then Some('<')
      else if (dx, dy) == (1, 0) then Some('>')
      else if (dx, dy) == (0, -1) then Some('^')
      else if (dx, dy) == (0, 1) then Some('v')
      else None
  }

  /** The keys the two keypads carry: the ten digits, Enter and the four
      directions. */
  predicate KeyButton(b: Button) {
    Direction(b) || b == Enter || (b.Number? && '0' <= b.c <= '9')
  }

  /** Reading a printed key back. */
  function ReadKey(c: char): Option<Button> {
    if c == '<' then Some(Left)
    else if c == '>' then Some(Right)
    else if c == '^' then Some(Up)
    else if c == 'v' then Some(Down)
    else if c == 'A' then Some(Enter)
    else if '0' <= c <= '9' then Some(Number(c))
    else None
  }

  /** Every key of the keypads prints as one character that reads back as
      that key. */
  lemma ShowRead(b: Button)
    requires KeyButton(b)
    ensures Show(b).Some? && ReadKey(Show(b).value) == Some(b)
  {
  }

  /** `display_buttons`: the buttons printed one after another. */
  function Render(bs: seq<Button>): (r: Option<string>)
    ensures r.Some? <==> forall i :: 0 <= i < |bs| ==> Show(bs[i]).Some?
    ensures r.Some? ==> |r.value| == |bs| && forall i :: 0 <= i < |bs| ==> r.value[i] == Show(bs[i]).value
  {
    if |bs| == 0 then Some([])
    else match (Render(bs[..|bs| - 1]), Show(bs[|bs| - 1]))
      case (Some(s), Some(c)) => Some(s + [c])
      case _ => None
  }

  /** Two key sequences that print alike are the same sequence. */
  lemma RenderInjective(a: seq<Button>, b: seq<Button>)
    requires forall i :: 0 <= i < |a| ==> KeyButton(a[i])
    requires forall i :: 0 <= i < |b| ==> KeyButton(b[i])
    requires Render(a) == Render(b)
    ensures a == b
  {
    assert Render(a).Some? by {
      forall i | 0 <= i < |a| ensures Show(a[i]).Some? { ShowRead(a[i]); }
    }
    forall i | 0 <= i < |a| ensures a[i] == b[i] {
      ShowRead(a[i]);
      ShowRead(b[i]);
    }
  }

  // ---------------------------------------------------------------------
  // Keypads and their paths

  /** `is_position_available`: some key sits at p. */
  function IsPositionAvailable(keys: map<Button, Point>, p: Point): (r: bool)
    ensures r <==> exists b :: b in keys && keys[b] == p
  {
    p in keys.Values
  }

  /** Where a movement takes the arm from p (other keys leave it there). */
  function Step(p: Point, b: Button): Point {
    match b
    case Movement(dx, dy) => (p.0 + dx, p.1 + dy)
    case _ => p
  }

  /** The moves both searches allow from p: a direction that brings the arm
      nearer `target` along its own axis, onto a key. */
  predicate Toward(keys: map<Button, Point>, target: Point, p: Point, b: Button) {
    ((b == Right && target.0 > p.0) || (b == Up && target.1 < p.1) ||
     (b == Down && target.1 > p.1) || (b == Left && target.0 < p.0)) &&
    IsPositionAvailable(keys, Step(p, b))
  }

  /** A move toward the target brings the arm one step nearer. */
  lemma TowardCloser(keys: map<Button, Point>, target: Point, p: Point, b: Button)
    requires Toward(keys, target, p, b)
    ensures Manhattan(Step(p, b), target) + 1 == Manhattan(p, target)
  {
  }

  /** `m` takes the arm from p to `target` by moves toward it only, over
      keys only. */
  predicate Leads(keys: map<Button, Point>, target: Point, p: Point, m: seq<Button>)
    decreases |m|
  {
    if |m| == 0 then p == target
    else Toward(keys, target, p, m[0]) && Leads(keys, target, Step(p, m[0]), m[1..])
  }

  /** Such a path is as long as the Manhattan distance it covers. */
  lemma {:induction false} LeadsLength(keys: map<Button, Point>, target: Point, p: Point, m: seq<Button>)
    requires Leads(keys, target, p, m)
    ensures |m| == Manhattan(p, target)
    decreases |m|
  {
    if |m| > 0 {
      TowardCloser(keys, target, p, m[0]);
      LeadsLength(keys, target, Step(p, m[0]), m[1..]);
    }
  }

  /** The paths the stack of `fastest_move_and_enter` completes from the
      entry (path, p), in the order it completes them: the move pushed
      last, LEFT, is popped first. */
  function Explore(keys: map<Button, Point>, target: Point, path: seq<Button>, p: Point): seq<seq<Button>>
    decreases Manhattan(p, target), 1
  {
    if p == target then [path]
    else (Branch(keys, target, path, p, Left) + Branch(keys, target, path, p, Down) +
          Branch(keys, target, path, p, Up) + Branch(keys, target, path, p, Right))
  }

  /** The paths completed below the entry pushed for move b, if it is. */
  function Branch(keys: map<Button, Point>, target: Point, path: seq<Button>, p: Point, b: Button): seq<seq<Button>>
    decreases Manhattan(p, target), 0
  {
    if Toward(keys, target, p, b) then
      TowardCloser(keys, target, p, b);
      Explore(keys, target, path + [b], Step(p, b))
    else []
  }

  /** How many entries pass through the stack below (and with) one for p. */
  function Size(keys: map<Button, Point>, target: Point, p: Point): nat
    decreases Manhattan(p, target), 1
  {
    if p == target then 1
    else (1 + BranchSize(keys, target, p, Left) + BranchSize(keys, target, p, Down) +
          BranchSize(keys, target, p, Up) + BranchSize(keys, target, p, Right))
  }

  function BranchSize(keys: map<Button, Point>, target: Point, p: Point, b: Button): nat
    decreases Manhattan(p, target), 0
  {
    if Toward(keys, target, p, b) then
      TowardCloser(keys, target, p, b);
      Size(keys, target, Step(p, b))
    else 0
  }

  lemma {:induction false} ExploreSound(keys: map<Button, Point>, target: Point, path: seq<Button>, p: Point, q: seq<Button>)
    requires q in Explore(keys, target, path, p)
    ensures |path| <= |q| && q[..|path|] == path && Leads(keys, target, p, q[|path|..])
    decreases Manhattan(p, target), 1
  {
    if p == target {
      assert q == path;
    } else if q in Branch(keys, target, path, p, Left) {
      BranchSound(keys, target, path, p, Left, q);
    } else if q in Branch(keys, target, path, p, Down) {
      BranchSound(keys, target, path, p, Down, q);
    } else if q in Branch(keys, target, path, p, Up) {
      BranchSound(keys, target, path, p, Up, q);
    } else {
      BranchSound(keys, target, path, p, Right, q);
    }
  }

  lemma {:induction false} BranchSound(keys: map<Button, Point>, target: Point, path: seq<Button>, p: Point, b: Button, q: seq<Button>)
    requires q in Branch(keys, target, path, p, b)
    ensures |path| <= |q| && q[..|path|] == path && Leads(keys, target, p, q[|path|..])
    decreases Manhattan(p, target), 0
  {
    TowardCloser(keys, target, p, b);
    var next := path + [b];
    ExploreSound(keys, target, next, Step(p, b), q);
    assert q[..|path|] == next[..|path|] == path;
    var m := q[|path|..];
    assert m[0] == b && m[1..] == q[|next|..];
  }

  lemma {:induction false} ExploreComplete(keys: map<Button, Point>, target: Point, path: seq<Button>, p: Point, m: seq<Button>)
    requires Leads(keys, target, p, m)
    ensures path + m in Explore(keys, target, path, p)
    decreases Manhattan(p, target)
  {
    if |m| == 0 {
      assert path + m == path;
    } else {
      var b := m[0];
      TowardCloser(keys, target, p, b);
      ExploreComplete(keys, target, path + [b], Step(p, b), m[1..]);
      assert path + [b] + m[1..] == path + m;
      assert path + m in Branch(keys, target, path, p, b);
    }
  }

  /** The paths `fastest_move_and_enter` enumerates from p are exactly the
      paths to the target that move toward it along each axis over keys
      only; each is as long as the Manhattan distance. */
  lemma EnumeratedPaths(keys: map<Button, Point>, from: Point, target: Point, m: seq<Button>)
    ensures m in Explore(keys, target, [], from) <==> Leads(keys, target, from, m)
    ensures m in Explore(keys, target, [], from) ==> |m| == Manhattan(from, target)
  {
    if m in Explore(keys, target, [], from) {
      ExploreSound(keys, target, [], from, m);
      assert m[0..] == m;
      LeadsLength(keys, target, from, m);
    }
    if Leads(keys, target, from, m) {
      ExploreComplete(keys, target, [], from, m);
      assert [] + m == m;
    }
  }

  // ---------------------------------------------------------------------
  // The score of `max_by_key`

  /** The points for the move at `idx`: 1000 when it repeats the move before
      it (Enter before the first), less twice its index for LEFT and its
      index for DOWN. */
  function Points(path: seq<Button>, idx: nat): int
    requires idx < |path|
  {
    var last := if idx == 0 then Enter else path[idx - 1];
    (if path[idx] == last then 1000 else 0) -
    (if path[idx] == Left then idx * 2 else 0) -
    (if path[idx] == Down then idx else 0)
  }

  /** The key `max_by_key` ranks a path by. */
  function Score(path: seq<Button>): int {
    if |path| == 0 then 0 else Score(path[..|path| - 1]) + Points(path, |path| - 1)
  }

  /** The scoring closure's loop over `path.iter().enumerate()`. */
  method PathScore(path: seq<Button>) returns (score: int)
    ensures score == Score(path)
  {
    score := 0;
    var lastMove := Enter;
    for idx := 0 to |path|
      invariant score == Score(path[..idx])
      invariant lastMove == if idx == 0 then Enter else path[idx - 1]
    {
      var mv := path[idx];
      if mv == lastMove {
        score := score + 1000;
      }
      if mv == Left {
        score := score - idx * 2;
      }
      if mv == Down {
        score := score - idx;
      }
      lastMove := mv;
      assert path[..idx + 1][..idx] == path[..idx];
    }
    assert path[..|path|] == path;
  }

  /** Where `max_by_key(score)` stops: the last path of greatest score. */
  function BestIndex(paths: seq<seq<Button>>): (k: nat)
    requires |paths| > 0
    ensures k < |paths|
    ensures forall j :: 0 <= j < k ==> Score(paths[j]) <= Score(paths[k])
    ensures forall j :: k < j < |paths| ==> Score(paths[j]) < Score(paths[k])
  {
    var n := |paths|;
    if n == 1 then 0
    else
      var k := BestIndex(paths[..n - 1]);
      assert paths[..n - 1][k] == paths[k];
      if Score(paths[n - 1]) >= Score(paths[k]) then n - 1 else k
  }

  /** `max_by_key(score)`: the last path of greatest score, None for none. */
  function BestOf(paths: seq<seq<Button>>): Option<seq<Button>> {
    if |paths| == 0 then None else Some(paths[BestIndex(paths)])
  }

  /** The fold of `max_by_key`, each path scored once. */
  method MaxByScore(paths: seq<seq<Button>>) returns (r: Option<seq<Button>>)
    ensures r == BestOf(paths)
  {
    r := None;
    var bestScore := 0;
    for i := 0 to |paths|
      invariant r == BestOf(paths[..i])
      invariant r.Some? ==> bestScore == Score(r.value)
    {
      assert paths[..i + 1][..i] == paths[..i];
      var score := PathScore(paths[i]);
      if r.None? || score >= bestScore {
        r := Some(paths[i]);
        bestScore := score;
      }
    }
    assert paths[..|paths|] == paths;
  }

  /** What `fastest_move_and_enter` types to go from `from` to the key at
      `target`: the best enumerated path, then Enter; None where there is no
      path (the `unwrap` panics). */
  function Fastest(keys: map<Button, Point>, from: Point, target: Point): Option<seq<Button>> {
    match BestOf(Explore(keys, target, [], from))
    case None => None
    case Some(path) => Some(path + [Enter])
  }

  /** The typed moves go the shortest way, toward the target, over keys,
      and end with Enter; no such path scores more; and there is a result
      exactly when such a path exists. */
  lemma FastestMeans(keys: map<Button, Point>, from: Point, target: Point)
    ensures Fastest(keys, from, target).Some? <==> exists m :: Leads(keys, target, from, m)
    ensures Fastest(keys, from, target).Some? ==>
      var typed := Fastest(keys, from, target).value;
      var path := typed[..|typed| - 1];
      |typed| == Manhattan(from, target) + 1 && typed[|typed| - 1] == Enter &&
      Leads(keys, target, from, path) &&
      forall m :: Leads(keys, target, from, m) ==> Score(m) <= Score(path)
  {
    var paths := Explore(keys, target, [], from);
    if exists m :: Leads(keys, target, from, m) {
      var m :| Leads(keys, target, from, m);
      EnumeratedPaths(keys, from, target, m);
    }
    match BestOf(paths)
    case None =>
    case Some(path) =>
      var typed := path + [Enter];
      assert typed[..|typed| - 1] == path;
      EnumeratedPaths(keys, from, target, path);
      forall m | Leads(keys, target, from, m) ensures Score(m) <= Score(path) {
        EnumeratedPaths(keys, from, target, m);
      }
  }

  /** What `move_and_enter` types: RIGHT, UP, DOWN or LEFT, the first that
      applies, until the target, then Enter; None where none applies short
      of the target (the source loops forever there). */
  function Greedy(keys: map<Button, Point>, target: Point, p: Point): Option<seq<Button>>
    decreases Manhattan(p, target)
  {
    if p == target then Some([Enter])
    else
      var b := if Toward(keys, target, p, Right) then Right
        else if Toward(keys, target, p, Up) then Up
        else if Toward(keys, target, p, Down) then Down
        else Left;
      if !Toward(keys, target, p, b) then None
      else
        TowardCloser(keys, target, p, b);
        match Greedy(keys, target, Step(p, b))
        case None => None
        case Some(rest) => Some([b] + rest)
  }

  /** The greedy moves end with Enter and are one of the paths
      `fastest_move_and_enter` enumerates. */
  lemma {:induction false} GreedyMeans(keys: map<Button, Point>, target: Point, p: Point)
    requires Greedy(keys, target, p).Some?
    ensures var typed := Greedy(keys, target, p).value;
      |typed| > 0 && typed[|typed| - 1] == Enter && Leads(keys, target, p, typed[..|typed| - 1])
    decreases Manhattan(p, target)
  {
    var typed := Greedy(keys, target, p).value;
    if p != target {
      var b := typed[0];
      TowardCloser(keys, target, p, b);
      GreedyMeans(keys, target, Step(p, b));
      var rest := Greedy(keys, target, Step(p, b)).value;
      assert typed == [b] + rest;
      assert typed[..|typed| - 1][1..] == rest[..|rest| - 1];
    }
  }

  /** Coordinates small enough that no distance between two of them
      reaches `usize::MAX`, the initial `shortest_path`. */
  predicate Fits(p: Point) {
    -0x4000_0000_0000_0000 < p.0 < 0x4000_0000_0000_0000 &&
    -0x4000_0000_0000_0000 < p.1 < 0x4000_0000_0000_0000
  }

  const UsizeMax: nat := 0xFFFF_FFFF_FFFF_FFFF

  /** The paths completed below the stack entries, top first. */
  function Pending(keys: map<Button, Point>, target: Point, queue: seq<(seq<Button>, Point)>): seq<seq<Button>> {
    if |queue| == 0 then []
    else Explore(keys, target, queue[|queue| - 1].0, queue[|queue| - 1].1) + Pending(keys, target, queue[..|queue| - 1])
  }

  /** The entries still to pass through the stack. */
  function Work(keys: map<Button, Point>, target: Point, queue: seq<(seq<Button>, Point)>): nat {
    if |queue| == 0 then 0
    else Size(keys, target, queue[|queue| - 1].1) + Work(keys, target, queue[..|queue| - 1])
  }

  /** Every entry of the stack lies on a path of length `total`. */
  predicate Balanced(target: Point, total: nat, queue: seq<(seq<Button>, Point)>) {
    forall i :: 0 <= i < |queue| ==> |queue[i].0| + Manhattan(queue[i].1, target) == total
  }

  /** The stack after the push for move b from the entry (path, p). */
  function Pushed(keys: map<Button, Point>, target: Point, queue: seq<(seq<Button>, Point)>, path: seq<Button>, p: Point, b: Button): seq<(seq<Button>, Point)> {
    if Toward(keys, target, p, b) then queue + [(path + [b], Step(p, b))] else queue
  }

  lemma PushPending(keys: map<Button, Point>, target: Point, queue: seq<(seq<Button>, Point)>, path: seq<Button>, p: Point, b: Button)
    ensures Pending(keys, target, Pushed(keys, target, queue, path, p, b)) ==
      Branch(keys, target, path, p, b) + Pending(keys, target, queue)
  {
    if Toward(keys, target, p, b) {
      var entry := (path + [b], Step(p, b));
      assert (queue + [entry])[..|queue|] == queue;
    }
  }

  lemma PushWork(keys: map<Button, Point>, target: Point, queue: seq<(seq<Button>, Point)>, path: seq<Button>, p: Point, b: Button)
    ensures Work(keys, target, Pushed(keys, target, queue, path, p, b)) ==
      BranchSize(keys, target, p, b) + Work(keys, target, queue)
  {
    if Toward(keys, target, p, b) {
      var entry := (path + [b], Step(p, b));
      assert (queue + [entry])[..|queue|] == queue;
    }
  }

  lemma PushBalanced(keys: map<Button, Point>, target: Point, total: nat, queue: seq<(seq<Button>, Point)>, path: seq<Button>, p: Point, b: Button)
    requires Balanced(target, total, queue) && |path| + Manhattan(p, target) == total
    ensures Balanced(target, total, Pushed(keys, target, queue, path, p, b))
  {
    if Toward(keys, target, p, b) {
      TowardCloser(keys, target, p, b);
    }
  }

  lemma Regroup<T>(a: seq<T>, b: seq<T>, c: seq<T>, d: seq<T>, e: seq<T>)
    ensures a + (b + (c + (d + e))) == (a + b + c + d) + e
  {
  }

  /** The four pushes together stand for the entry they replace. */
  lemma PushAll(keys: map<Button, Point>, target: Point, total: nat, queue: seq<(seq<Button>, Point)>, path: seq<Button>, p: Point,
                q1: seq<(seq<Button>, Point)>, q2: seq<(seq<Button>, Point)>, q3: seq<(seq<Button>, Point)>, q4: seq<(seq<Button>, Point)>)
    requires p != target && Balanced(target, total, queue) && |path| + Manhattan(p, target) == total
    requires q1 == Pushed(keys, target, queue, path, p, Right) && q2 == Pushed(keys, target, q1, path, p, Up)
    requires q3 == Pushed(keys, target, q2, path, p, Down) && q4 == Pushed(keys, target, q3, path, p, Left)
    ensures Pending(keys, target, q4) == Explore(keys, target, path, p) + Pending(keys, target, queue)
    ensures Work(keys, target, q4) + 1 == Size(keys, target, p) + Work(keys, target, queue)
    ensures Balanced(target, total, q4)
  {
    PushPending(keys, target, queue, path, p, Right);
    PushPending(keys, target, q1, path, p, Up);
    PushPending(keys, target, q2, path, p, Down);
    PushPending(keys, target, q3, path, p, Left);
    Regroup(Branch(keys, target, path, p, Left), Branch(keys, target, path, p, Down),
      Branch(keys, target, path, p, Up), Branch(keys, target, path, p, Right), Pending(keys, target, queue));
    PushWork(keys, target, queue, path, p, Right);
    PushWork(keys, target, q1, path, p, Up);
    PushWork(keys, target, q2, path, p, Down);
    PushWork(keys, target, q3, path, p, Left);
    PushBalanced(keys, target, total, queue, path, p, Right);
    PushBalanced(keys, target, total, q1, path, p, Up);
    PushBalanced(keys, target, total, q2, path, p, Down);
    PushBalanced(keys, target, total, q3, path, p, Left);
  }

  /** Popping the top entry leaves a balanced stack. */
  lemma Pop(target: Point, total: nat, queue: seq<(seq<Button>, Point)>)
    requires Balanced(target, total, queue) && |queue| > 0
    ensures Balanced(target, total, queue[..|queue| - 1])
    ensures |queue[|queue| - 1].0| + Manhattan(queue[|queue| - 1].1, target) == total
  {
  }

  /** A robot arm over a keypad: where its keys are and where it is. */
  class Keypad {
    const keys: map<Button, Point>
    var position: Point

    /** Every coordinate fits (see Fits). */
    ghost predicate Valid()
      reads this
    {
      Fits(position) && forall b :: b in keys ==> Fits(keys[b])
    }

    /** `Puzzle::numeric_keypad`: digits 7 8 9 / 4 5 6 / 1 2 3 / gap 0 A,
        starting on A. */
    constructor Numeric()
      ensures keys == NumericKeys && Enter in keys && position == keys[Enter] && Valid()
    {
      keys := NumericKeys;
      position := (2, 3);
    }

    /** `Puzzle::directional_keypad`: gap ^ A / < v >, starting on A. */
    constructor Directional()
      ensures keys == DirectionalKeys && Enter in keys && position == keys[Enter] && Valid()
    {
      keys := DirectionalKeys;
      position := (2, 0);
    }

    /** The stack loop of `fastest_move_and_enter`: the paths it completes,
        in order. No entry is ever longer than the first path completed, so
        the abandoning test never fires. */
    method Enumerate(target: Point) returns (paths: seq<seq<Button>>)
      requires Manhattan(position, target) < UsizeMax
      ensures paths == Explore(keys, target, [], position)
    {
      var start := position;
      ghost var total := Manhattan(start, target);
      var shortestPath: nat := UsizeMax;
      var queue: seq<(seq<Button>, Point)> := [([], start)];
      paths := [];
      while |queue| > 0
        invariant paths + Pending(keys, target, queue) == Explore(keys, target, [], start)
        invariant Balanced(target, total, queue)
        invariant shortestPath == UsizeMax || shortestPath == total
        decreases Work(keys, target, queue)
      {
        Pop(target, total, queue);
        var entry := queue[|queue| - 1];
        queue := queue[..|queue| - 1];
        var path := entry.0;
        var p := entry.1;
        if |path| > shortestPath {
          assert false;
        } else if p == target {
          shortestPath := |path|;
          paths := paths + [path];
        } else {
          queue := PushMoves(target, total, queue, path, p);
        }
      }
    }

    /** One push of `fastest_move_and_enter`: the entry for move b from
        (path, p), when b brings the arm nearer onto a key. */
    method PushMove(target: Point, queue: seq<(seq<Button>, Point)>, path: seq<Button>, p: Point, b: Button)
      returns (q: seq<(seq<Button>, Point)>)
      ensures q == Pushed(keys, target, queue, path, p, b)
    {
      q := queue;
      if Toward(keys, target, p, b) {
        q := q + [(path + [b], Step(p, b))];
      }
    }

    /** The four pushes `fastest_move_and_enter` makes from the entry
        (path, p) short of the target, in its order: RIGHT, UP, DOWN, LEFT. */
    method PushMoves(target: Point, ghost total: nat, queue: seq<(seq<Button>, Point)>, path: seq<Button>, p: Point)
      returns (q: seq<(seq<Button>, Point)>)
      requires p != target && Balanced(target, total, queue) && |path| + Manhattan(p, target) == total
      ensures Pending(keys, target, q) == Explore(keys, target, path, p) + Pending(keys, target, queue)
      ensures Work(keys, target, q) + 1 == Size(keys, target, p) + Work(keys, target, queue)
      ensures Balanced(target, total, q)
    {
      var q1 := PushMove(target, queue, path, p, Right);
      var q2 := PushMove(target, q1, path, p, Up);
      var q3 := PushMove(target, q2, path, p, Down);
      q := PushMove(target, q3, path, p, Left);
      PushAll(keys, target, total, queue, path, p, q1, q2, q3, q);
    }

    /** `fastest_move_and_enter`: every shortest path toward the key over
        keys is enumerated, the arm moves to the key, and the best path is
        typed followed by Enter. None where the button is not a key or no
        path reaches it (the `unwrap`s panic). */
    method FastestMoveAndEnter(button: Button) returns (r: Option<seq<Button>>)
      requires Valid()
      modifies this
      ensures Valid()
      ensures button !in keys ==> r.None? && position == old(position)
      ensures button in keys ==> position == keys[button] && r == Fastest(keys, old(position), keys[button])
    {
      if button !in keys {
        return None;
      }
      var target := keys[button];
      FitsDistance(position, target);
      var paths := Enumerate(target);
      position := target;
      var fastest := MaxByScore(paths);
      if fastest.None? {
        return None;
      }
      r := Some(fastest.value + [Enter]);
    }

    /** `move_and_enter`: step greedily toward the key, then Enter. None
        where the button is not a key, or where no step applies short of
        the key (the source's loop never ends there). */
    method MoveAndEnter(button: Button) returns (r: Option<seq<Button>>)
      modifies this
      ensures button !in keys ==> r.None? && position == old(position)
      ensures button in keys ==> r == Greedy(keys, keys[button], old(position))
      ensures button in keys && r.Some? ==> position == keys[button]
    {
      if button !in keys {
        return None;
      }
      var target := keys[button];
      ghost var start := position;
      var movesNeeded: seq<Button> := [];
      var x, y := position.0, position.1;
      PrefixedNothing(Greedy(keys, target, start));
      while (x, y) != target
        invariant Greedy(keys, target, start) == Prefixed(movesNeeded, Greedy(keys, target, (x, y)))
        decreases Manhattan((x, y), target)
      {
        ghost var here := (x, y);
        if target.0 > x && IsPositionAvailable(keys, (x + 1, y)) {
          x := x + 1;
          movesNeeded := movesNeeded + [Right];
        } else if target.1 < y && IsPositionAvailable(keys, (x, y - 1)) {
          y := y - 1;
          movesNeeded := movesNeeded + [Up];
        } else if target.1 > y && IsPositionAvailable(keys, (x, y + 1)) {
          y := y + 1;
          movesNeeded := movesNeeded + [Down];
        } else if target.0 < x && IsPositionAvailable(keys, (x - 1, y)) {
          x := x - 1;
          movesNeeded := movesNeeded + [Left];
        } else {
          return None;
        }
        GreedyStep(keys, target, here, movesNeeded);
      }
      movesNeeded := movesNeeded + [Enter];
      position := target;
      r := Some(movesNeeded);
    }

    /** The `for button in buttons_needed` loop of `moves_to_solve` on this
        keypad: the moves for every button in turn.  Where it gives None the
        source has panicked, so the arm's position is not stated then. */
    method Press(buttons: seq<Button>) returns (r: Option<seq<Button>>)
      requires Valid()
      modifies this
      ensures Valid()
      ensures r.None? <==> PressAll(keys, old(position), buttons).None?
      ensures r.Some? ==> r.value == PressAll(keys, old(position), buttons).value.0 &&
                          position == PressAll(keys, old(position), buttons).value.1
    {
      ghost var start := position;
      var movesNeeded: seq<Button> := [];
      for i := 0 to |buttons|
        invariant Valid()
        invariant PressAll(keys, start, buttons[..i]) == Some((movesNeeded, position))
      {
        assert buttons[..i + 1][..i] == buttons[..i];
        var typed := FastestMoveAndEnter(buttons[i]);
        if typed.None? {
          PressAllNone(keys, start, buttons, i + 1);
          return None;
        }
        movesNeeded := movesNeeded + typed.value;
      }
      assert buttons[..|buttons|] == buttons;
      r := Some(movesNeeded);
    }
  }

  /** `Puzzle::numeric_keypad`'s keys. */
  const NumericKeys: map<Button, Point> := map[
    Number('7') := (0, 0), Number('8') := (1, 0), Number('9') := (2, 0),
    Number('4') := (0, 1), Number('5') := (1, 1), Number('6') := (2, 1),
    Number('1') := (0, 2), Number('2') := (1, 2), Number('3') := (2, 2),
    Number('0') := (1, 3), Enter := (2, 3)]

  /** `Puzzle::directional_keypad`'s keys. */
  const DirectionalKeys: map<Button, Point> := map[
    Left := (0, 1), Right := (2, 1), Up := (1, 0), Down := (1, 1), Enter := (2, 0)]

  /** Distances between fitting coordinates stay below `usize::MAX`. */
  lemma FitsDistance(a: Point, b: Point)
    requires Fits(a) && Fits(b)
    ensures Manhattan(a, b) < UsizeMax
  {
  }

  /** `moves` put before what follows, if anything does. */
  function Prefixed(moves: seq<Button>, rest: Option<seq<Button>>): Option<seq<Button>> {
    match rest
    case None => None
    case Some(r) => Some(moves + r)
  }

  lemma PrefixedNothing(rest: Option<seq<Button>>)
    ensures Prefixed([], rest) == rest
  {
    if rest.Some? {
      assert [] + rest.value == rest.value;
    }
  }

  /** One greedy step: the moves so far end with the step from `here`. */
  lemma GreedyStep(keys: map<Button, Point>, target: Point, here: Point, moves: seq<Button>)
    requires here != target && |moves| > 0
    requires var b := moves[|moves| - 1];
      Toward(keys, target, here, b) &&
      (b == Right || !Toward(keys, target, here, Right)) &&
      (b == Right || b == Up || !Toward(keys, target, here, Up)) &&
      (b == Right || b == Up || b == Down || !Toward(keys, target, here, Down))
    ensures Prefixed(moves[..|moves| - 1], Greedy(keys, target, here)) ==
      Prefixed(moves, Greedy(keys, target, Step(here, moves[|moves| - 1])))
    ensures Manhattan(Step(here, moves[|moves| - 1]), target) < Manhattan(here, target)
  {
    var b := moves[|moves| - 1];
    TowardCloser(keys, target, here, b);
    assert moves == moves[..|moves| - 1] + [b];
    match Greedy(keys, target, Step(here, b))
    case None =>
    case Some(rest) =>
      assert moves[..|moves| - 1] + ([b] + rest) == moves + rest;
  }

  // ---------------------------------------------------------------------
  // moves_to_solve

  /** The moves one keypad types for `buttons` from `from`, and where it
      ends; None where a button panics. */
  function PressAll(keys: map<Button, Point>, from: Point, buttons: seq<Button>): Option<(seq<Button>, Point)> {
    if |buttons| == 0 then Some(([], from))
    else match PressAll(keys, from, buttons[..|buttons| - 1])
      case None => None
      case Some((moves, at)) =>
        var b := buttons[|buttons| - 1];
        if b !in keys then None
        else match Fastest(keys, at, keys[b])
          case None => None
          case Some(typed) => Some((moves + typed, keys[b]))
  }

  /** A panic on a prefix of the buttons is a panic on all of them. */
  lemma {:induction false} PressAllNone(keys: map<Button, Point>, from: Point, buttons: seq<Button>, i: nat)
    requires i <= |buttons| && PressAll(keys, from, buttons[..i]).None?
    ensures PressAll(keys, from, buttons).None?
    decreases |buttons| - i
  {
    if i < |buttons| {
      assert buttons[..i + 1][..i] == buttons[..i];
      PressAllNone(keys, from, buttons, i + 1);
    } else {
      assert buttons[..i] == buttons;
    }
  }

  /** The moves of a path found by either search are all directions. */
  lemma {:induction false} LeadsDirections(keys: map<Button, Point>, target: Point, p: Point, m: seq<Button>)
    requires Leads(keys, target, p, m)
    ensures multiset(m)[Enter] == 0
    decreases |m|
  {
    if |m| > 0 {
      LeadsDirections(keys, target, Step(p, m[0]), m[1..]);
      assert m == [m[0]] + m[1..];
    }
  }

  /** The moves a keypad types hold one Enter per button it was given, the
      last of them at the end, and leave the arm on the last button. */
  lemma {:induction false} PressAllMeans(keys: map<Button, Point>, from: Point, buttons: seq<Button>)
    requires PressAll(keys, from, buttons).Some?
    ensures var (moves, at) := PressAll(keys, from, buttons).value;
      multiset(moves)[Enter] == |buttons| &&
      (|buttons| > 0 ==> buttons[|buttons| - 1] in keys && at == keys[buttons[|buttons| - 1]] &&
                         |moves| > 0 && moves[|moves| - 1] == Enter)
  {
    if |buttons| > 0 {
      var prefix := buttons[..|buttons| - 1];
      PressAllMeans(keys, from, prefix);
      var (moves, at) := PressAll(keys, from, prefix).value;
      var b := buttons[|buttons| - 1];
      FastestMeans(keys, at, keys[b]);
      var typed := Fastest(keys, at, keys[b]).value;
      LeadsDirections(keys, keys[b], at, typed[..|typed| - 1]);
      assert typed == typed[..|typed| - 1] + [Enter];
      assert multiset(moves + typed)[Enter] == multiset(moves)[Enter] + multiset(typed)[Enter];
    }
  }

  /** A keypad's layout and where its arm starts. */
  datatype Layer = Layer(keys: map<Button, Point>, position: Point)

  /** The loop over `self.keypads` in `moves_to_solve`: each keypad types
      the buttons the one before it needs pressed; the moves of the last
      are returned, `moves` (empty at first) when there are none. */
  function Solve(layers: seq<Layer>, buttons: seq<Button>, moves: seq<Button>): Option<seq<Button>>
    decreases |layers|
  {
    if |layers| == 0 then Some(moves)
    else match PressAll(layers[0].keys, layers[0].position, buttons)
      case None => None
      case Some((typed, _)) => Solve(layers[1..], typed, typed)
  }

  /** Each layer presses Enter once per button of the layer before it: the
      moves of the last keypad hold one Enter per move of the keypad before
      it, or per button of the code when there is one keypad. */
  lemma {:induction false} SolveEnters(layers: seq<Layer>, buttons: seq<Button>, moves: seq<Button>)
    requires |layers| > 0 && Solve(layers, buttons, moves).Some?
    ensures |layers| == 1 ==> multiset(Solve(layers, buttons, moves).value)[Enter] == |buttons|
    ensures |layers| > 1 ==> (Solve(layers[..|layers| - 1], buttons, moves).Some? &&
                              multiset(Solve(layers, buttons, moves).value)[Enter] ==
                              |Solve(layers[..|layers| - 1], buttons, moves).value|)
    decreases |layers|
  {
    var typed := PressAll(layers[0].keys, layers[0].position, buttons).value.0;
    PressAllMeans(layers[0].keys, layers[0].position, buttons);
    var rest := layers[1..];
    if |layers| > 1 {
      SolveEnters(rest, typed, typed);
      var front := layers[..|layers| - 1];
      assert front[0] == layers[0] && front[1..] == rest[..|rest| - 1];
      if |rest| == 1 {
        assert Solve(front[1..], typed, typed) == Some(typed);
      }
    }
  }

  /** `code.chars().map(Button::Number)`. */
  function Codes(number: string): (r: seq<Button>)
    ensures |r| == |number| && forall i :: 0 <= i < |number| ==> r[i] == Number(number[i])
  {
    if |number| == 0 then [] else Codes(number[..|number| - 1]) + [Number(number[|number| - 1])]
  }

  /** `Puzzle::part1`'s three keypads, as they start. */
  const InitialLayers: seq<Layer> := [Layer(NumericKeys, (2, 3)), Layer(DirectionalKeys, (2, 0)), Layer(DirectionalKeys, (2, 0))]

  /** A puzzle: the keypads from the door outward and the code. */
  class Puzzle {
    const keypads: seq<Keypad>
    const code: seq<Button>

    /** Distinct keypads (the puzzle owns each), each valid. */
    ghost predicate Valid()
      reads this, keypads
    {
      (forall i, j :: 0 <= i < j < |keypads| ==> keypads[i] != keypads[j]) &&
      forall i :: 0 <= i < |keypads| ==> keypads[i].Valid()
    }

    /** The keypads' states. */
    ghost function Layers(): seq<Layer>
      reads this, keypads
    {
      seq(|keypads|, i reads keypads requires 0 <= i < |keypads| => Layer(keypads[i].keys, keypads[i].position))
    }

    /** `Puzzle::part1(number)`: the numeric keypad and two directional
        ones, each on its Enter key, and the code's digits. */
    constructor Part1(number: string)
      ensures Valid() && Layers() == InitialLayers && code == Codes(number)
      ensures forall i :: 0 <= i < |keypads| ==> fresh(keypads[i])
    {
      var numeric := new Keypad.Numeric();
      var first := new Keypad.Directional();
      var second := new Keypad.Directional();
      keypads := [numeric, first, second];
      code := Codes(number);
    }

    /** `moves_to_solve`: the code and Enter through every keypad in turn;
        None where a keypad panics.  Where the arms end up is not stated:
        `main` builds a fresh puzzle for every line and reads nothing of
        it after this call. */
    method MovesToSolve() returns (r: Option<seq<Button>>)
      requires Valid()
      modifies keypads
      ensures Valid()
      ensures r == Solve(old(Layers()), code + [Enter], [])
    {
      ghost var layers := Layers();
      var movesNeeded: seq<Button> := [];
      var buttonsNeeded := code + [Enter];
      for i := 0 to |keypads|
        invariant Valid()
        invariant forall j :: i <= j < |keypads| ==> keypads[j].position == layers[j].position
        invariant Solve(layers, code + [Enter], []) == Solve(layers[i..], buttonsNeeded, movesNeeded)
      {
        assert layers[i..][1..] == layers[i + 1..];
        var moves := keypads[i].Press(buttonsNeeded);
        if moves.None? {
          return None;
        }
        movesNeeded := moves.value;
        buttonsNeeded := movesNeeded;
      }
      r := Some(movesNeeded);
    }
  }

  // ---------------------------------------------------------------------
  // main

  /** One line's complexity on keypads starting as `layers`: the code is
      the line without its last character, and the complexity is its
      number times the length of the moves typed for it. None where the
      line is empty, the code panics a keypad, or it is not a number. */
  function Complexity(layers: seq<Layer>, line: string): Option<nat> {
    if |line| == 0 then None
    else
      var number := line[..|line| - 1];
      match Solve(layers, Codes(number) + [Enter], [])
      case None => None
      case Some(moves) =>
        match Text.ParseNat(number)
        case None => None
        case Some(n) => Some(n * |moves|)
  }

  /** `Puzzle::part1(number).moves_to_solve()`. */
  method SolveCode(number: string) returns (moves: Option<seq<Button>>)
    ensures moves == Solve(InitialLayers, Codes(number) + [Enter], [])
  {
    var puzzle := new Puzzle.Part1(number);
    moves := puzzle.MovesToSolve();
  }

  /** The body of `main`'s `map` for one line, `layers` being the keypads
      `Puzzle::part1` makes. */
  method LineComplexity(ghost layers: seq<Layer>, line: string) returns (c: Option<nat>)
    requires layers == InitialLayers
    ensures c == Complexity(layers, line)
  {
    if |line| == 0 {
      return None;
    }
    var number := line[..|line| - 1];
    var moves := SolveCode(number);
    if moves.None? {
      return None;
    }
    var value := Text.ParseNat(number);
    if value.None? {
      return None;
    }
    c := Some(value.value * |moves.value|);
  }

  /** The sum of the complexities; None where one is None. */
  function Sum(cs: seq<Option<nat>>): Option<nat> {
    if |cs| == 0 then Some(0)
    else
      var total := Sum(cs[..|cs| - 1]);
      if total.Some? && cs[|cs| - 1].Some? then Some(total.value + cs[|cs| - 1].value) else None
  }

  /** The complexity of every line, in order. */
  function Complexities(layers: seq<Layer>, lines: seq<string>): (r: seq<Option<nat>>)
    ensures |r| == |lines| && forall i :: 0 <= i < |lines| ==> r[i] == Complexity(layers, lines[i])
  {
    if |lines| == 0 then [] else Complexities(layers, lines[..|lines| - 1]) + [Complexity(layers, lines[|lines| - 1])]
  }

  /** The sum of the lines' complexities; None where one panics. */
  function TotalComplexity(layers: seq<Layer>, lines: seq<string>): Option<nat> {
    Sum(Complexities(layers, lines))
  }

  lemma SumStep(cs: seq<Option<nat>>, k: nat, total: nat)
    requires k < |cs| && Sum(cs[..k]) == Some(total)
    ensures Sum(cs[..k + 1]) == if cs[k].Some? then Some(total + cs[k].value) else None
  {
    assert cs[..k + 1][..k] == cs[..k];
  }

  lemma {:induction false} SumNone(cs: seq<Option<nat>>, i: nat)
    requires i <= |cs| && Sum(cs[..i]).None?
    ensures Sum(cs).None?
    decreases |cs| - i
  {
    if i < |cs| {
      assert cs[..i + 1][..i] == cs[..i];
      SumNone(cs, i + 1);
    } else {
      assert cs[..i] == cs;
    }
  }

  /** `main` after reading the input: the complexities of the trimmed
      input's lines, summed. */
  method Run(input: string) returns (r: Option<nat>)
    ensures r == TotalComplexity(InitialLayers, Text.Lines(Text.Trim(input)))
  {
    r := SumLines(InitialLayers, Text.Lines(Text.Trim(input)));
  }

  /** The `sum` over the lines. */
  method SumLines(ghost layers: seq<Layer>, lines: seq<string>) returns (r: Option<nat>)
    requires layers == InitialLayers
    ensures r == TotalComplexity(layers, lines)
  {
    ghost var cs := Complexities(layers, lines);
    var total := 0;
    for k := 0 to |lines|
      invariant Sum(cs[..k]) == Some(total)
    {
      var next := AddLine(layers, cs, lines, k, total);
      if next.None? {
        SumNone(cs, k + 1);
        return None;
      }
      total := next.value;
    }
    assert cs[..|lines|] == cs;
    r := Some(total);
  }

  /** The running sum, one line further. */
  method AddLine(ghost layers: seq<Layer>, ghost cs: seq<Option<nat>>, lines: seq<string>, k: nat, total: nat)
    returns (next: Option<nat>)
    requires layers == InitialLayers && k < |lines| == |cs| && cs[k] == Complexity(layers, lines[k])
    requires Sum(cs[..k]) == Some(total)
    ensures next == Sum(cs[..k + 1])
  {
    var c := LineComplexity(layers, lines[k]);
    SumStep(cs, k, total);
    if c.None? {
      return None;
    }
    next := Some(total + c.value);
  }
}
