/** Day 24, "Crossed Wires": wires that start with a value, and AND, OR and
    XOR gates each setting an output wire from two input wires once both
    have a value.  The solver keeps a queue of the gate operations, puts
    an operation whose inputs are not yet set at the back, and finally
    reads the wires whose names start with `z`, in name order, as the bits
    of a number (the first name the lowest bit). */
module Wires {
  import opened Wrappers
  import Text
  import Seqs
  import Arith
  import Names

  datatype Op = Xor | Or | And

  /** The name of an operation in the input. */
  function OpName(op: Op): (s: string)
    ensures ParseOp(s) == Some(op)
    ensures forall t :: ParseOp(t) == Some(op) ==> t == s
  {
    match op
    case And => "AND"
    case Or => "OR"
    case Xor => "XOR"
  }

  /** `Op::from`: exactly the three names are accepted; None where the
      source panics. */
  function ParseOp(s: string): (r: Option<Op>)
    ensures r.Some? <==> s == "AND" || s == "OR" || s == "XOR"
  {
    if s == "AND" then Some(And)
    else if s == "OR" then Some(Or)
    else if s == "XOR" then Some(Xor)
    else None
  }

  /** The value a gate gives its output. */
  function Apply(op: Op, a: bool, b: bool): bool {
    match op
    case And => a && b
    case Or => a || b
    case Xor => a != b
  }

  /** `Operation`: the two input wires, the gate and the output wire. */
  datatype Operation = Operation(input1: string, op: Op, input2: string, output: string)

  /** `gates`: the wires that have a value so far. */
  type Gates = map<string, bool>

  // ---------------------------------------------------------------------
  // Parsing

  /** One line `name: value` of the first block; the wire is on exactly
      when the text after `": "` is `1`.  None where there is no `": "`. */
  function ParseWire(line: string): (r: Option<(string, bool)>)
    ensures r.None? <==> Text.SplitOnce(line, ": ").None?
    ensures r.Some? ==> |r.value.0| + 2 <= |line| && line == r.value.0 + ": " + line[|r.value.0| + 2..]
    ensures r.Some? ==> (r.value.1 <==> line[|r.value.0| + 2..] == "1")
  {
    match Text.SplitOnce(line, ": ")
    case None => None
    case Some((name, value)) =>
      assert line[|name| + 2..] == value;
      Some((name, value == "1"))
  }

  /** One line `a OP b -> c` of the second block: its first, second, third
      and fifth words; the fourth is skipped unread and words after the
      fifth are ignored.  None where a word is missing or the gate is not
      one of the three. */
  function ParseOperation(line: string): (r: Option<Operation>)
    ensures r.Some? <==> |Text.Words(line)| >= 5 && ParseOp(Text.Words(line)[1]).Some?
    ensures r.Some? ==> var w := Text.Words(line);
      r.value == Operation(w[0], ParseOp(w[1]).value, w[2], w[4])
  {
    var words := Text.Words(line);
    if |words| < 5 then None
    else match ParseOp(words[1])
      case None => None
      case Some(op) => Some(Operation(words[0], op, words[2], words[4]))
  }

  /** `collect` into a HashMap: a later line for the same wire replaces an
      earlier one. */
  function Collect(wires: seq<(string, bool)>): (r: Gates)
    ensures forall name :: name in r <==> exists i :: 0 <= i < |wires| && wires[i].0 == name
  {
    if |wires| == 0 then map[]
    else
      var last := wires[|wires| - 1];
      var rest := Collect(wires[..|wires| - 1]);
      assert forall i :: 0 <= i < |wires| - 1 ==> wires[..|wires| - 1][i] == wires[i];
      rest[last.0 := last.1]
  }

  /** A wire keeps the value of its last line. */
  lemma {:induction false} CollectLast(wires: seq<(string, bool)>, i: nat)
    requires i < |wires| && forall j :: i < j < |wires| ==> wires[j].0 != wires[i].0
    ensures wires[i].0 in Collect(wires) && Collect(wires)[wires[i].0] == wires[i].1
    decreases |wires|
  {
    if i < |wires| - 1 {
      var front := wires[..|wires| - 1];
      assert front[i] == wires[i];
      CollectLast(front, i);
    }
  }

  /** `Puzzle::from`: the first block's wires and the second block's
      operations, split at the first blank line.  None where there is no
      blank line or a line does not parse. */
  function ParsePuzzle(input: string): (r: Option<(Gates, seq<Operation>)>)
    ensures Text.SplitOnce(input, "\n\n").None? ==> r.None?
  {
    match Text.SplitOnce(input, "\n\n")
    case None => None
    case Some((wireData, operationData)) =>
      match Text.ParseEach(Text.Lines(wireData), ParseWire)
      case None => None
      case Some(wires) =>
        match Text.ParseEach(Text.Lines(operationData), ParseOperation)
        case None => None
        case Some(operations) => Some((Collect(wires), operations))
  }

  // ---------------------------------------------------------------------
  // Solving one operation

  /** What `solve` returns: None when an input has no value yet, otherwise
      the gate applied to the two inputs. */
  function Fire(gates: Gates, o: Operation): (r: Option<bool>)
    ensures r.None? <==> o.input1 !in gates || o.input2 !in gates
    ensures r.Some? ==> r.value == Apply(o.op, gates[o.input1], gates[o.input2])
  {
    if o.input1 in gates && o.input2 in gates then Some(Apply(o.op, gates[o.input1], gates[o.input2]))
    else None
  }

  /** The wires after `solve`: untouched when an input is missing,
      otherwise with the output set to what the gate gives; no other wire
      changes. */
  function Fired(gates: Gates, o: Operation): (r: Gates)
    ensures Fire(gates, o).None? ==> r == gates
    ensures Fire(gates, o).Some? ==> o.output in r && r[o.output] == Fire(gates, o).value
    ensures forall w :: w != o.output ==> (w in r <==> w in gates)
    ensures forall w :: w != o.output && w in gates ==> r[w] == gates[w]
    ensures r.Keys == gates.Keys || r.Keys == gates.Keys + {o.output}
  {
    match Fire(gates, o)
    case None => gates
    case Some(v) => gates[o.output := v]
  }

  // ---------------------------------------------------------------------
  // Solving all operations

  /** `solve_all`'s loop for at most `fuel` turns: the next operation is
      taken from the front of the queue and put at the back when it cannot
      fire yet.  Gives the wires and what is left of the queue. */
  function Drain(gates: Gates, queue: seq<Operation>, fuel: nat): (Gates, seq<Operation>)
    decreases fuel
  {
    if |queue| == 0 || fuel == 0 then (gates, queue)
    else
      var o := queue[0];
      if Fire(gates, o).None? then Drain(gates, queue[1..] + [o], fuel - 1)
      else Drain(Fired(gates, o), queue[1..], fuel - 1)
  }

  /** More fuel does not change a drain that emptied the queue. */
  lemma {:induction false} DrainMoreFuel(gates: Gates, queue: seq<Operation>, fuel: nat, more: nat)
    requires fuel <= more && Drain(gates, queue, fuel).1 == []
    ensures Drain(gates, queue, more) == Drain(gates, queue, fuel)
    decreases fuel
  {
    if |queue| > 0 {
      var o := queue[0];
      if Fire(gates, o).None? {
        DrainMoreFuel(gates, queue[1..] + [o], fuel - 1, more - 1);
      } else {
        DrainMoreFuel(Fired(gates, o), queue[1..], fuel - 1, more - 1);
      }
    }
  }

  /** A wire with a value keeps one. */
  lemma {:induction false} DrainKeeps(gates: Gates, queue: seq<Operation>, fuel: nat, w: string)
    requires w in gates
    ensures w in Drain(gates, queue, fuel).0
    decreases fuel
  {
    if |queue| > 0 && fuel > 0 {
      var o := queue[0];
      if Fire(gates, o).None? {
        DrainKeeps(gates, queue[1..] + [o], fuel - 1, w);
      } else {
        DrainKeeps(Fired(gates, o), queue[1..], fuel - 1, w);
      }
    }
  }

  /** Every operation of the queue is still queued or has set its output. */
  lemma {:induction false} DrainSets(gates: Gates, queue: seq<Operation>, fuel: nat, o: Operation)
    requires o in queue
    ensures o in Drain(gates, queue, fuel).1 || o.output in Drain(gates, queue, fuel).0
    decreases fuel
  {
    if |queue| > 0 && fuel > 0 {
      var head := queue[0];
      assert queue == [head] + queue[1..];
      if Fire(gates, head).None? {
        DrainSets(gates, queue[1..] + [head], fuel - 1, o);
      } else if o == head {
        DrainKeeps(Fired(gates, head), queue[1..], fuel - 1, o.output);
      } else {
        DrainSets(Fired(gates, head), queue[1..], fuel - 1, o);
      }
    }
  }

  /** When the queue runs empty, every operation's output has a value. */
  lemma DrainFinished(gates: Gates, queue: seq<Operation>, fuel: nat)
    requires Drain(gates, queue, fuel).1 == []
    ensures forall i :: 0 <= i < |queue| ==> queue[i].output in Drain(gates, queue, fuel).0
  {
    forall i | 0 <= i < |queue| ensures queue[i].output in Drain(gates, queue, fuel).0 {
      DrainSets(gates, queue, fuel, queue[i]);
    }
  }

  /** Only the queued outputs get a value. */
  lemma {:induction false} DrainOutputs(gates: Gates, queue: seq<Operation>, fuel: nat, w: string)
    requires w in Drain(gates, queue, fuel).0 && w !in gates
    ensures exists i :: 0 <= i < |queue| && queue[i].output == w
    decreases fuel
  {
    if |queue| > 0 && fuel > 0 {
      var o := queue[0];
      if Fire(gates, o).None? {
        var next := queue[1..] + [o];
        DrainOutputs(gates, next, fuel - 1, w);
        var i :| 0 <= i < |next| && next[i].output == w;
        if i < |queue| - 1 {
          assert queue[i + 1] == next[i];
        } else {
          assert queue[0] == next[i];
        }
      } else if w != o.output {
        DrainOutputs(Fired(gates, o), queue[1..], fuel - 1, w);
        var i :| 0 <= i < |queue| - 1 && queue[1..][i].output == w;
        assert queue[i + 1].output == w;
      } else {
        assert queue[0].output == w;
      }
    }
  }

  /** A wire no queued operation writes keeps its value. */
  lemma {:induction false} DrainUnwritten(gates: Gates, queue: seq<Operation>, fuel: nat, w: string)
    requires w in gates && forall i :: 0 <= i < |queue| ==> queue[i].output != w
    ensures w in Drain(gates, queue, fuel).0 && Drain(gates, queue, fuel).0[w] == gates[w]
    decreases fuel
  {
    if |queue| > 0 && fuel > 0 {
      var o := queue[0];
      if Fire(gates, o).None? {
        var next := queue[1..] + [o];
        forall i | 0 <= i < |next| ensures next[i].output != w {
          if i < |queue| - 1 {
            assert next[i] == queue[i + 1];
          }
        }
        DrainUnwritten(gates, next, fuel - 1, w);
      } else {
        forall i | 0 <= i < |queue| - 1 ensures queue[1..][i].output != w {
          assert queue[1..][i] == queue[i + 1];
        }
        DrainUnwritten(Fired(gates, o), queue[1..], fuel - 1, w);
      }
    }
  }

  /** The operations left are among those queued. */
  lemma {:induction false} DrainLeaves(gates: Gates, queue: seq<Operation>, fuel: nat)
    ensures multiset(Drain(gates, queue, fuel).1) <= multiset(queue)
    decreases fuel
  {
    if |queue| > 0 && fuel > 0 {
      var o := queue[0];
      assert queue == [o] + queue[1..];
      if Fire(gates, o).None? {
        DrainLeaves(gates, queue[1..] + [o], fuel - 1);
        assert multiset(queue[1..] + [o]) == multiset(queue);
      } else {
        DrainLeaves(Fired(gates, o), queue[1..], fuel - 1);
      }
    }
  }

  /** When no queued operation can fire, nothing ever changes: the wires
      keep their values and the same operations go round the queue, so
      `solve_all` never returns on a nonempty queue. */
  lemma {:induction false} DrainStuck(gates: Gates, queue: seq<Operation>, fuel: nat)
    requires forall i :: 0 <= i < |queue| ==> Fire(gates, queue[i]).None?
    ensures Drain(gates, queue, fuel).0 == gates
    ensures multiset(Drain(gates, queue, fuel).1) == multiset(queue)
    decreases fuel
  {
    if |queue| > 0 && fuel > 0 {
      var o := queue[0];
      var next := queue[1..] + [o];
      assert queue == [o] + queue[1..];
      assert multiset(next) == multiset(queue);
      forall i | 0 <= i < |next| ensures Fire(gates, next[i]).None? {
        if i < |queue| - 1 {
          assert next[i] == queue[i + 1];
        }
      }
      DrainStuck(gates, next, fuel - 1);
    }
  }

  // ---------------------------------------------------------------------
  // The score

  /** `gate.starts_with("z")`. */
  predicate IsZ(name: string) {
    |name| > 0 && name[0] == 'z'
  }

  /** `filter`: the names starting with `z`, in the order given. */
  function ZFilter(names: seq<string>): (r: seq<string>)
    ensures forall n :: n in r <==> n in names && IsZ(n)
    ensures Seqs.Distinct(names) ==> Seqs.Distinct(r)
  {
    if |names| == 0 then []
    else
      var front := names[..|names| - 1];
      var last := names[|names| - 1];
      assert names == front + [last];
      assert Seqs.Distinct(names) ==> last !in front;
      if IsZ(last) then ZFilter(front) + [last] else ZFilter(front)
  }

  /** `gates.iter()`: the names of the wires, each once, in whichever
      order the map yields them. */
  ghost predicate Enumerates(gates: Gates, names: seq<string>) {
    Seqs.Distinct(names) && forall n :: n in names <==> n in gates
  }

  /** The `z` wires sorted by name. */
  function ZNames(names: seq<string>): seq<string> {
    Names.SortNames(ZFilter(names))
  }

  /** The values of the named wires, a wire without one read as off. */
  function Values(gates: Gates, names: seq<string>): (r: seq<bool>)
    ensures |r| == |names|
    ensures forall i :: 0 <= i < |names| && names[i] in gates ==> r[i] == gates[names[i]]
  {
    if |names| == 0 then []
    else
      var front := Values(gates, names[..|names| - 1]);
      var last := names[|names| - 1];
      front + [if last in gates then gates[last] else false]
  }

  /** `|` on unsigned integers, bit by bit from the lowest. */
  function BitOr(a: nat, b: nat): nat
    decreases a + b
  {
    if a == 0 then b
    else if b == 0 then a
    else 2 * BitOr(a / 2, b / 2) + (if a % 2 == 1 || b % 2 == 1 then 1 else 0)
  }

  /** A bit above every bit of `a` is or-ed in by adding it. */
  lemma {:induction false} BitOrHigh(a: nat, i: nat)
    requires a < Arith.Pow2(i)
    ensures BitOr(a, Arith.Pow2(i)) == a + Arith.Pow2(i)
    decreases i
  {
    if a > 0 {
      var half := Arith.Pow2(i - 1);
      assert Arith.Pow2(i) == 2 * half;
      BitOrHigh(a / 2, i - 1);
    }
  }

  /** The `fold`: bit `i` of the result set from the `i`-th value. */
  function Fold(values: seq<bool>): nat {
    if |values| == 0 then 0
    else
      var i := |values| - 1;
      BitOr(Fold(values[..i]), if values[i] then Arith.Pow2(i) else 0)
  }

  /** The number whose binary digits, lowest first, are the values. */
  function Binary(values: seq<bool>): nat {
    if |values| == 0 then 0
    else
      var i := |values| - 1;
      Binary(values[..i]) + if values[i] then Arith.Pow2(i) else 0
  }

  /** The fold of distinct bits is the binary number, which is below
      `2^n` for `n` values. */
  lemma {:induction false} FoldIsBinary(values: seq<bool>)
    ensures Fold(values) == Binary(values) && Binary(values) < Arith.Pow2(|values|)
    decreases |values|
  {
    if |values| > 0 {
      var i := |values| - 1;
      FoldIsBinary(values[..i]);
      if values[i] {
        BitOrHigh(Fold(values[..i]), i);
      }
    }
  }

  /** Bit `i` of the binary number is the `i`-th value. */
  lemma {:induction false} BinaryBit(values: seq<bool>, i: nat)
    requires i < |values|
    ensures (Binary(values) / Arith.Pow2(i)) % 2 == (if values[i] then 1 else 0)
    decreases |values|
  {
    var n := |values| - 1;
    var front := values[..n];
    var top := if values[n] then Arith.Pow2(n) else 0;
    FoldIsBinary(front);
    if i < n {
      BinaryBit(front, i);
      assert front[i] == values[i];
      HighBitsAbove(Binary(front), top, i, n);
    } else {
      LowBitsBelow(Binary(front), values[n], n);
    }
  }

  /** Adding a multiple of `2^n` leaves the bits below `n` alone. */
  lemma HighBitsAbove(low: nat, top: nat, i: nat, n: nat)
    requires i < n && (top == 0 || top == Arith.Pow2(n))
    ensures ((low + top) / Arith.Pow2(i)) % 2 == (low / Arith.Pow2(i)) % 2
  {
    if top > 0 {
      var p := Arith.Pow2(i);
      var k := Pow2Split(i, n);
      var q, m := low / p, 2 * k;
      DivAddMultiple(low, p, m);
      assert (low + top) / p == q + m;
      Arith.ModAdd(q, m, 2);
      Arith.ModUnique(q % 2 + m, 2, k, q % 2);
    }
  }

  /** `2^n` is `2^i` times an even number when `i < n`. */
  lemma {:induction false} Pow2Split(i: nat, n: nat) returns (k: nat)
    requires i < n
    ensures Arith.Pow2(n) == Arith.Pow2(i) * (2 * k)
    decreases n
  {
    if i == n - 1 {
      k := 1;
    } else {
      var k1 := Pow2Split(i, n - 1);
      k := 2 * k1;
      assert Arith.Pow2(n) == 2 * (Arith.Pow2(i) * (2 * k1));
    }
  }

  /** `(a + p * k) / p == a / p + k`. */
  lemma DivAddMultiple(a: nat, p: nat, k: nat)
    requires p > 0
    ensures (a + p * k) / p == a / p + k
  {
    var q, r := a / p, a % p;
    assert a + p * k == p * (q + k) + r;
    Arith.ModUnique(a + p * k, p, q + k, r);
  }

  /** Bit `n` of a number below `2^n` plus the top bit is the top bit. */
  lemma LowBitsBelow(low: nat, bit: bool, n: nat)
    requires low < Arith.Pow2(n)
    ensures ((low + if bit then Arith.Pow2(n) else 0) / Arith.Pow2(n)) % 2 == (if bit then 1 else 0)
  {
    var p := Arith.Pow2(n);
    if bit {
      Arith.ModUnique(low + p, p, 1, low);
    } else {
      Arith.ModUnique(low, p, 0, low);
    }
  }

  lemma {:induction false} Pow2Grows(a: nat, b: nat)
    requires a <= b
    ensures Arith.Pow2(a) <= Arith.Pow2(b)
    decreases b
  {
    if a < b {
      Pow2Grows(a, b - 1);
    }
  }

  /** `score`: the `z` wires' values in name order folded into a `usize`;
      None where there are more than 64 of them, as the shift past the
      width of `usize` panics. */
  function ScoreOf(gates: Gates, names: seq<string>): (r: Option<nat>)
    ensures r.Some? <==> |ZNames(names)| <= 64
    ensures r.Some? ==> r.value == Binary(Values(gates, ZNames(names))) && r.value < Arith.Pow2(64)
  {
    var values := Values(gates, ZNames(names));
    FoldIsBinary(values);
    if |values| > 64 then None
    else
      Pow2Grows(|values|, 64);
      Some(Fold(values))
  }

  /** The sorted `z` names are exactly the `z` wires, once each, in order. */
  lemma ZNamesMeans(gates: Gates, names: seq<string>)
    requires Enumerates(gates, names)
    ensures Names.SortedNames(ZNames(names)) && Seqs.Distinct(ZNames(names))
    ensures forall n :: n in ZNames(names) <==> n in gates && IsZ(n)
  {
    var zs := ZFilter(names);
    Names.SortNamesSorted(zs);
    var sorted := ZNames(names);
    forall n ensures n in sorted <==> n in zs {
      assert n in sorted <==> n in multiset(sorted);
      assert n in zs <==> n in multiset(zs);
    }
    forall i, j | 0 <= i < j < |sorted| ensures sorted[i] != sorted[j] {
      Seqs.DistinctOnce(zs, sorted[i]);
      LaterDiffers(sorted, i, j);
    }
  }

  /** An element occurring once differs from every later one. */
  lemma LaterDiffers<T>(s: seq<T>, i: nat, j: nat)
    requires i < j < |s| && multiset(s)[s[i]] <= 1
    ensures s[i] != s[j]
  {
    var after := s[i + 1..];
    assert s == s[..i] + [s[i]] + after;
    assert multiset(after)[s[i]] == 0;
    assert s[j] == after[j - i - 1];
  }

  /** The score does not depend on the order the map yields its wires. */
  lemma ScoreOrderFree(gates: Gates, a: seq<string>, b: seq<string>)
    requires Enumerates(gates, a) && Enumerates(gates, b)
    ensures ZNames(a) == ZNames(b) && ScoreOf(gates, a) == ScoreOf(gates, b)
  {
    var za, zb := ZFilter(a), ZFilter(b);
    forall n ensures multiset(za)[n] == multiset(zb)[n] {
      Seqs.DistinctOnce(za, n);
      Seqs.DistinctOnce(zb, n);
    }
    assert multiset(za) == multiset(zb);
    Names.SortNamesSorted(za);
    Names.SortNamesSorted(zb);
    Names.SortedUnique(ZNames(a), ZNames(b));
  }

  /** The names of a set of wires, in some order. */
  ghost function Listed(names: set<string>): (r: seq<string>)
    ensures Seqs.Distinct(r) && forall n :: n in r <==> n in names
    decreases names
  {
    if names == {} then []
    else
      var n :| n in names;
      var rest := Listed(names - {n});
      [n] + rest
  }

  /** The answer the wires give, whatever order the map yields them in. */
  ghost function Reading(gates: Gates): Option<nat> {
    ScoreOf(gates, Listed(gates.Keys))
  }

  /** Bit `i` of the answer is the value of the `i`-th `z` wire by name. */
  lemma ReadingBits(gates: Gates, i: nat)
    requires Reading(gates).Some? && i < |ZNames(Listed(gates.Keys))|
    ensures var z := ZNames(Listed(gates.Keys))[i];
      z in gates && IsZ(z) && ((Reading(gates).value / Arith.Pow2(i)) % 2 == 1 <==> gates[z])
  {
    var names := Listed(gates.Keys);
    var zs := ZNames(names);
    ZNamesMeans(gates, names);
    assert zs[i] in zs;
    BinaryBit(Values(gates, zs), i);
  }

  // ---------------------------------------------------------------------
  // The puzzle

  class Puzzle {
    var gates: Gates
    const operations: seq<Operation>

    constructor (gates0: Gates, operations0: seq<Operation>)
      ensures gates == gates0 && operations == operations0
    {
      gates := gates0;
      operations := operations0;
    }

    /** `solve`: fires one operation, storing its output. */
    method Solve(o: Operation) returns (r: Option<bool>)
      modifies this
      ensures r == Fire(old(gates), o) && gates == Fired(old(gates), o)
    {
      if o.input1 !in gates || o.input2 !in gates {
        return None;
      }
      var result := Apply(o.op, gates[o.input1], gates[o.input2]);
      gates := gates[o.output := result];
      r := Some(result);
    }

    /** `solve_all` for at most `fuel` turns of its loop; `done` when the
        queue ran empty, in which case every output has a value. */
    method SolveAll(fuel: nat) returns (done: bool)
      modifies this
      ensures gates == Drain(old(gates), operations, fuel).0
      ensures done <==> Drain(old(gates), operations, fuel).1 == []
      ensures done ==> forall i :: 0 <= i < |operations| ==> operations[i].output in gates
    {
      var queue := operations;
      var left := fuel;
      while |queue| > 0 && left > 0
        invariant Drain(gates, queue, left) == Drain(old(gates), operations, fuel)
        decreases left
      {
        var o := queue[0];
        queue := queue[1..];
        var r := Solve(o);
        if r.None? {
          queue := queue + [o];
        }
        left := left - 1;
      }
      done := |queue| == 0;
      if done {
        DrainFinished(old(gates), operations, fuel);
      }
    }

    /** `score`. */
    method Score() returns (r: Option<nat>)
      ensures r == Reading(gates)
    {
      var names := Seqs.KeysOf(gates);
      ScoreOrderFree(gates, names, Listed(gates.Keys));
      r := ScoreOf(gates, names);
    }
  }

  /** `main` after reading the input, with `solve_all` given `fuel` turns:
      None where the input does not parse, the queue is not empty after
      them, or the score panics. */
  method Run(input: string, fuel: nat) returns (r: Option<nat>)
    ensures ParsePuzzle(input).None? ==> r.None?
    ensures ParsePuzzle(input).Some? ==>
      var start := ParsePuzzle(input).value;
      var end := Drain(start.0, start.1, fuel);
      r == if end.1 == [] then Reading(end.0) else None
  {
    var parsed := ParsePuzzle(input);
    if parsed.None? {
      return None;
    }
    var puzzle := new Puzzle(parsed.value.0, parsed.value.1);
    var done := puzzle.SolveAll(fuel);
    if !done {
      return None;
    }
    r := puzzle.Score();
  }
}
