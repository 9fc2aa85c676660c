/** Day 7, "Bridge Repair": a calibration line gives a test value and
    some numbers; it can be made true when some choice of `+` and `*`
    between the numbers, evaluated left to right, gives the test value. */
module BridgeCalibration {
  import opened Wrappers
  import Text
  import Arith

  /** The two operators that may stand between numbers. */
  datatype Op = Add | Mul

  /** `Calibration`: the test value and the numbers. */
  datatype Calibration = Calibration(result: nat, numbers: seq<nat>)

  /** The reference evaluation: `total`, then each number combined with the
      running value by the operator before it, strictly left to right. */
  function Evaluate(total: nat, numbers: seq<nat>, ops: seq<Op>): nat
    requires |ops| == |numbers|
    decreases |numbers|
  {
    if |numbers| == 0 then total
    else
      var next := if ops[0] == Add then total + numbers[0] else total * numbers[0];
      Evaluate(next, numbers[1..], ops[1..])
  }

  /** `try_all_operations`: every result, those that add the next number
      listed before those that multiply by it. */
  function TryAll(total: nat, numbers: seq<nat>): (r: seq<nat>)
    ensures |r| == Arith.Pow2(|numbers|)
    decreases |numbers|
  {
    if |numbers| == 0 then [total]
    else TryAll(total + numbers[0], numbers[1..]) + TryAll(total * numbers[0], numbers[1..])
  }

  /** The operators that the result at index `i` of `TryAll` uses: the
      binary digits of `i`, most significant first, 0 for `+` and 1 for `*`. */
  function OpsAt(i: nat, n: nat): (r: seq<Op>)
    requires i < Arith.Pow2(n)
    ensures |r| == n
  {
    if n == 0 then []
    else if i < Arith.Pow2(n - 1) then [Add] + OpsAt(i, n - 1)
    else [Mul] + OpsAt(i - Arith.Pow2(n - 1), n - 1)
  }

  /** Evaluation applies the first operator, then goes on with the rest. */
  lemma EvaluateFirst(total: nat, numbers: seq<nat>, op: Op, rest: seq<Op>)
    requires |numbers| > 0 && |rest| == |numbers| - 1
    ensures Evaluate(total, numbers, [op] + rest) ==
      Evaluate(if op == Add then total + numbers[0] else total * numbers[0], numbers[1..], rest)
  {
    assert ([op] + rest)[0] == op && ([op] + rest)[1..] == rest;
  }

  /** The layout of the results: the one at index `i` evaluates the
      operators spelt by `i` in binary. */
  lemma {:induction false} TryAllAt(total: nat, numbers: seq<nat>, i: nat)
    requires i < Arith.Pow2(|numbers|)
    ensures TryAll(total, numbers)[i] == Evaluate(total, numbers, OpsAt(i, |numbers|))
    decreases |numbers|
  {
    if |numbers| > 0 {
      var n := |numbers|;
      var half := Arith.Pow2(n - 1);
      assert Arith.Pow2(n) == 2 * half;
      var added, multiplied := TryAll(total + numbers[0], numbers[1..]), TryAll(total * numbers[0], numbers[1..]);
      assert TryAll(total, numbers) == added + multiplied;
      assert |added| == half;
      if i < half {
        var rest := OpsAt(i, n - 1);
        assert OpsAt(i, n) == [Add] + rest;
        assert TryAll(total, numbers)[i] == added[i];
        EvaluateFirst(total, numbers, Add, rest);
        TryAllAt(total + numbers[0], numbers[1..], i);
      } else {
        var rest := OpsAt(i - half, n - 1);
        assert OpsAt(i, n) == [Mul] + rest;
        assert TryAll(total, numbers)[i] == multiplied[i - half];
        EvaluateFirst(total, numbers, Mul, rest);
        TryAllAt(total * numbers[0], numbers[1..], i - half);
      }
    }
  }

  /** Every operator choice is evaluated somewhere in the results. */
  lemma {:induction false} TryAllHas(total: nat, numbers: seq<nat>, ops: seq<Op>)
    requires |ops| == |numbers|
    ensures Evaluate(total, numbers, ops) in TryAll(total, numbers)
    decreases |numbers|
  {
    if |numbers| > 0 {
      if ops[0] == Add {
        TryAllHas(total + numbers[0], numbers[1..], ops[1..]);
      } else {
        TryAllHas(total * numbers[0], numbers[1..], ops[1..]);
      }
    }
  }

  /** A value is among the results exactly when some operator choice
      evaluates to it. */
  lemma TryAllMeans(total: nat, numbers: seq<nat>, v: nat)
    ensures v in TryAll(total, numbers) <==>
      exists ops: seq<Op> :: |ops| == |numbers| && Evaluate(total, numbers, ops) == v
  {
    var r := TryAll(total, numbers);
    if v in r {
      var i :| 0 <= i < |r| && r[i] == v;
      TryAllAt(total, numbers, i);
      var ops := OpsAt(i, |numbers|);
      assert |ops| == |numbers| && Evaluate(total, numbers, ops) == v;
    }
    if exists ops: seq<Op> :: |ops| == |numbers| && Evaluate(total, numbers, ops) == v {
      var ops: seq<Op> :| |ops| == |numbers| && Evaluate(total, numbers, ops) == v;
      TryAllHas(total, numbers, ops);
    }
  }

  /** `is_solvable`: some result of the operators between the numbers is
      the test value.  The source indexes `numbers[0]`, so it needs one. */
  predicate IsSolvable(c: Calibration)
    requires |c.numbers| > 0
  {
    c.result in TryAll(c.numbers[0], c.numbers[1..])
  }

  /** A calibration is solvable exactly when some operators make it true. */
  lemma IsSolvableMeans(c: Calibration)
    requires |c.numbers| > 0
    ensures IsSolvable(c) <==> exists ops: seq<Op> ::
      |ops| == |c.numbers| - 1 && Evaluate(c.numbers[0], c.numbers[1..], ops) == c.result
  {
    TryAllMeans(c.numbers[0], c.numbers[1..], c.result);
  }

  /** `Calibration::from`: `result: n1 n2 ...`, single spaces between the
      numbers; None where the source panics. */
  function ParseCalibration(line: string): (r: Option<Calibration>)
    ensures r.Some? ==> |r.value.numbers| > 0
    ensures r.Some? ==> Text.SplitOnce(line, ": ").Some?
  {
    match Text.SplitOnce(line, ": ")
    case None => None
    case Some((head, tail)) =>
      match (Text.ParseNat(head), Text.ParseEach(Text.Split(tail, " "), Text.ParseNat))
      case (Some(result), Some(numbers)) => Some(Calibration(result, numbers))
      case (None, _) => None
      case (_, None) => None
  }

  /** The test values of the solvable calibrations, added up. */
  function SolvableTotal(cs: seq<Calibration>): nat
    requires forall k :: 0 <= k < |cs| ==> |cs[k].numbers| > 0
  {
    if |cs| == 0 then 0
    else (if IsSolvable(cs[0]) then cs[0].result else 0) + SolvableTotal(cs[1..])
  }

  /** The total counts each calibration once, and only a solvable one. */
  lemma {:induction false} SolvableTotalBounds(cs: seq<Calibration>, k: nat)
    requires forall j :: 0 <= j < |cs| ==> |cs[j].numbers| > 0
    requires k < |cs| && IsSolvable(cs[k])
    ensures cs[k].result <= SolvableTotal(cs)
  {
    if k > 0 {
      assert cs[1..][k - 1] == cs[k];
      SolvableTotalBounds(cs[1..], k - 1);
    }
  }

  /** `main`'s sum over the lines of the input; None where parsing panics. */
  function Total(input: string): (r: Option<nat>)
    ensures r.Some? <==> forall k :: 0 <= k < |Text.Lines(input)| ==>
      ParseCalibration(Text.Lines(input)[k]).Some?
  {
    match Text.ParseEach(Text.Lines(input), ParseCalibration)
    case None => None
    case Some(cs) => Some(SolvableTotal(cs))
  }

  /** `190: 10 19`: 10 * 19 makes it. */
  lemma Example190()
    ensures IsSolvable(Calibration(190, [10, 19]))
  {
    var s: seq<nat> := [10, 19];
    assert s[1..] == [19] && s[1..][1..] == [];
    assert TryAll(10, [19]) == [29, 190];
  }

  /** `3267: 81 40 27`: both 81 + 40 * 27 and 81 * 40 + 27 make it. */
  lemma Example3267()
    ensures IsSolvable(Calibration(3267, [81, 40, 27]))
  {
    var s: seq<nat> := [81, 40, 27];
    assert s[1..] == [40, 27] && s[1..][1..] == [27] && s[1..][1..][1..] == [];
    assert TryAll(121, [27]) == [148, 3267];
  }

  /** `161011: 16 10 13`: the four results are 39, 338, 173 and 2080. */
  lemma Example161011()
    ensures !IsSolvable(Calibration(161011, [16, 10, 13]))
  {
    var s: seq<nat> := [16, 10, 13];
    assert s[1..] == [10, 13] && s[1..][1..] == [13] && s[1..][1..][1..] == [];
    assert TryAll(16, [10, 13]) == [39, 338, 173, 2080];
  }

  /** The first test line splits at its colon ... */
  lemma SplitExample()
    ensures Text.SplitOnce("190: 10 19", ": ") == Some(("190", "10 19"))
  {
    var line := "190: 10 19";
    assert line[0..2] == "19" && line[1..3] == "90" && line[2..4] == "0:" && line[3..5] == ": ";
    assert Text.FindFrom(line, ": ", 0) == Some(3);
    assert line[..3] == "190" && line[5..] == "10 19";
  }

  /** ... its numbers split at the space ... */
  lemma SplitNumbersExample()
    ensures Text.Split("10 19", " ") == ["10", "19"]
  {
    var t := "10 19";
    assert t[0] == '1' && t[1] == '0' && t[2] == ' ' && t[3] == '1' && t[4] == '9';
    assert t[0..1] != " " && t[1..2] != " " && t[2..3] == " " && t[3..4] != " " && t[4..5] != " ";
    assert Text.SplitFrom(t, " ", 3, 3) == ["19"];
    assert t[0..2] == "10";
  }

  /** ... its numbers parse ... */
  lemma ParseNumbersExample()
    ensures Text.ParseNat("190") == Some(190)
    ensures Text.ParseEach(["10", "19"], Text.ParseNat) == Some([10, 19])
  {
    assert Text.DigitsFrom("190", 0, 0) == Some(190);
    assert Text.DigitsFrom("10", 0, 0) == Some(10) && Text.DigitsFrom("19", 0, 0) == Some(19);
    var pieces := ["10", "19"];
    assert Text.ParseNat(pieces[0]) == Some(10) && Text.ParseNat(pieces[1]) == Some(19);
    var r := Text.ParseEach(pieces, Text.ParseNat);
    assert r.Some?;
    assert r.value == [10, 19];
  }

  /** ... and it parses to its calibration. */
  lemma ParseExample()
    ensures ParseCalibration("190: 10 19") == Some(Calibration(190, [10, 19]))
  {
    SplitExample();
    SplitNumbersExample();
    ParseNumbersExample();
  }
}
