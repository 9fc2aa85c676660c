/** Day 17, the three-bit computer: three unbounded registers A, B and C,
    a program of numbers read as (opcode, operand) pairs, an instruction
    index and an output list.  `step` executes one instruction and names
    the next index; `run` steps while the index is inside the program. */
module ThreeBitComputer {
  import opened Wrappers
  import Text
  import Arith
  import Grid

  /** Register indexes. */
  const A: nat := 0
  const B: nat := 1
  const C: nat := 2

  /** Opcodes. */
  const ADV: nat := 0
  const BXL: nat := 1
  const BST: nat := 2
  const JNZ: nat := 3
  const BXC: nat := 4
  const OUT: nat := 5
  const BDV: nat := 6
  const CDV: nat := 7

  /** Bitwise exclusive or, built from the lowest bit up. */
  function Xor(a: nat, b: nat): nat
    decreases a + b
  {
    if a == 0 && b == 0 then 0
    else 2 * Xor(a / 2, b / 2) + (if a % 2 == b % 2 then 0 else 1)
  }

  /** Bit i of a. */
  predicate Bit(a: nat, i: nat) {
    (a / Arith.Pow2(i)) % 2 == 1
  }

  lemma HalfShift(a: nat, i: nat)
    ensures a / Arith.Pow2(i + 1) == (a / 2) / Arith.Pow2(i)
  {
    var p := Arith.Pow2(i);
    var q, r := (a / 2) / p, (a / 2) % p;
    assert a / 2 == q * p + r;
    assert a == 2 * q * p + 2 * r + a % 2;
    assert a == q * (2 * p) + (2 * r + a % 2);
    assert 2 * r + a % 2 < 2 * p;
    Grid.DivModUnique(a, 2 * p, q, 2 * r + a % 2);
  }

  /** `Xor` is exclusive or bit by bit: bit i of the result is set exactly
      when bit i is set in one operand and not the other. */
  lemma {:induction false} XorBits(a: nat, b: nat, i: nat)
    ensures Bit(Xor(a, b), i) <==> Bit(a, i) != Bit(b, i)
    decreases i
  {
    var x := Xor(a, b);
    if a == 0 && b == 0 {
      assert x == 0;
    } else {
      assert x == 2 * Xor(a / 2, b / 2) + (if a % 2 == b % 2 then 0 else 1);
      if i == 0 {
        assert Arith.Pow2(0) == 1;
      } else {
        XorBits(a / 2, b / 2, i - 1);
        HalfShift(a, i - 1);
        HalfShift(b, i - 1);
        HalfShift(x, i - 1);
        assert x / 2 == Xor(a / 2, b / 2);
      }
    }
  }

  /** Exclusive or with the same value twice is the identity. */
  lemma {:induction false} XorInvolution(a: nat, b: nat)
    ensures Xor(Xor(a, b), b) == a
    decreases a + b
  {
    if a == 0 && b == 0 {
    } else {
      var x := Xor(a, b);
      assert x == 2 * Xor(a / 2, b / 2) + (if a % 2 == b % 2 then 0 else 1);
      assert x / 2 == Xor(a / 2, b / 2) && x % 2 == (if a % 2 == b % 2 then 0 else 1);
      XorInvolution(a / 2, b / 2);
      assert Xor(x, b) == 2 * Xor(x / 2, b / 2) + (if x % 2 == b % 2 then 0 else 1);
    }
  }

  /** `Computer::combo_value`: operands 0 to 3 stand for themselves, 4, 5
      and 6 for registers A, B and C; any other operand is invalid (the
      source panics). */
  function Combo(regs: seq<nat>, code: nat): (r: Option<nat>)
    requires |regs| == 3
    ensures r.None? <==> code >= 7
    ensures code <= 3 ==> r == Some(code)
    ensures 4 <= code <= 6 ==> r == Some(regs[code - 4])
  {
    if code <= 3 then Some(code)
    else if code == 4 then Some(regs[A])
    else if code == 5 then Some(regs[B])
    else if code == 6 then Some(regs[C])
    else None
  }

  /** What one instruction does: the registers and output after it, and
      the index it names as the next one. */
  datatype Effect = Effect(regs: seq<nat>, output: seq<nat>, next: nat)

  /** A divided by two to the power of the combo operand, stored into
      register `target` (ADV, BDV and CDV). */
  function Divide(regs: seq<nat>, output: seq<nat>, index: nat, target: nat, operand: nat): Option<Effect>
    requires |regs| == 3 && target < 3
  {
    match Combo(regs, operand)
    case None => None
    case Some(c) => Some(Effect(regs[target := regs[A] / Arith.Pow2(c)], output, index + 2))
  }

  /** `Computer::step` as a function of the state: None where the source
      panics (an opcode above 7, or a combo operand of 7 where the
      instruction reads one).  The combo operand is only read by the
      instructions that use it. */
  function StepEffect(regs: seq<nat>, output: seq<nat>, index: nat, opcode: nat, operand: nat): Option<Effect>
    requires |regs| == 3
  {
    var next := index + 2;
    if opcode == ADV then Divide(regs, output, index, A, operand)
    else if opcode == BXL then Some(Effect(regs[B := Xor(regs[B], operand)], output, next))
    else if opcode == BST then
      (match Combo(regs, operand)
       case None => None
       case Some(c) => Some(Effect(regs[B := c % 8], output, next)))
    else if opcode == JNZ then Some(Effect(regs, output, if regs[A] != 0 then operand else next))
    else if opcode == BXC then Some(Effect(regs[B := Xor(regs[B], regs[C])], output, next))
    else if opcode == OUT then
      (match Combo(regs, operand)
       case None => None
       case Some(c) => Some(Effect(regs, output + [c % 8], next)))
    else if opcode == BDV then Divide(regs, output, index, B, operand)
    else if opcode == CDV then Divide(regs, output, index, C, operand)
    else None
  }

  /** Every instruction names index + 2 as the next one, except JNZ with a
      nonzero A, which jumps to its literal operand; and an instruction
      fails exactly on an unknown opcode or a combo operand of 7 or more read by
      ADV, BST, OUT, BDV or CDV. */
  lemma StepNext(regs: seq<nat>, output: seq<nat>, index: nat, opcode: nat, operand: nat)
    requires |regs| == 3
    ensures var r := StepEffect(regs, output, index, opcode, operand);
      && (r.None? <==> opcode > 7 || (operand >= 7 && opcode in {ADV, BST, OUT, BDV, CDV}))
      && (r.Some? ==> r.value.next == if opcode == JNZ && regs[A] != 0 then operand else index + 2)
  {
  }

  /** Which register an instruction writes: ADV, BDV and CDV write A, B
      and C with A divided by two to the power of the combo operand; BXL,
      BST and BXC write only B, with B xor the literal, the combo operand
      mod 8 and B xor C; OUT and JNZ write none. */
  lemma StepRegisters(regs: seq<nat>, output: seq<nat>, index: nat, opcode: nat, operand: nat)
    requires |regs| == 3
    requires StepEffect(regs, output, index, opcode, operand).Some?
    ensures var e := StepEffect(regs, output, index, opcode, operand).value;
      && |e.regs| == 3
      && (forall k :: 0 <= k < 3 && k != Written(opcode) ==> e.regs[k] == regs[k])
      && (opcode in {ADV, BDV, CDV} ==> e.regs[Written(opcode)] == regs[A] / Arith.Pow2(Combo(regs, operand).value))
      && (opcode == BXL ==> e.regs[B] == Xor(regs[B], operand))
      && (opcode == BST ==> e.regs[B] == Combo(regs, operand).value % 8)
      && (opcode == BXC ==> e.regs[B] == Xor(regs[B], regs[C]))
  {
  }

  /** The register an opcode writes, or 3 for none. */
  function Written(opcode: nat): nat {
    if opcode == ADV then A
    else if opcode in {BXL, BST, BXC, BDV} then B
    else if opcode == CDV then C
    else 3
  }

  /** Only OUT adds to the output, and what it adds is a single value
      below 8: the combo operand mod 8. */
  lemma StepOutput(regs: seq<nat>, output: seq<nat>, index: nat, opcode: nat, operand: nat)
    requires |regs| == 3
    requires StepEffect(regs, output, index, opcode, operand).Some?
    ensures var e := StepEffect(regs, output, index, opcode, operand).value;
      && (opcode != OUT ==> e.output == output)
      && (opcode == OUT ==> e.output == output + [Combo(regs, operand).value % 8] && e.output[|output|] < 8)
  {
  }

  /** The whole machine: registers, program, instruction index, output. */
  datatype Machine = Machine(regs: seq<nat>, program: seq<nat>, index: nat, output: seq<nat>)

  /** Halted: the index left the program; Faulted: the source panics (an
      opcode without an operand, an invalid opcode or combo operand);
      Running: the fuel ran out first. */
  datatype Status = Halted | Faulted | Running

  /** `Computer::run` given at most `fuel` instructions: the final machine
      and why it stopped. */
  function RunFor(m: Machine, fuel: nat): (Machine, Status)
    requires |m.regs| == 3
    decreases fuel
  {
    if m.index >= |m.program| then (m, Halted)
    else if fuel == 0 then (m, Running)
    else if m.index + 1 >= |m.program| then (m, Faulted)
    else match StepEffect(m.regs, m.output, m.index, m.program[m.index], m.program[m.index + 1])
      case None => (m, Faulted)
      case Some(e) => RunFor(Machine(e.regs, m.program, e.next, e.output), fuel - 1)
  }

  predicate Digits(s: seq<nat>) {
    forall k :: 0 <= k < |s| ==> s[k] < 8
  }

  /** A run keeps three registers and the program, only ever appends to
      the output and appends only values below 8; it halts only with the
      index outside the program and leaves the machine unchanged when it
      faults. */
  lemma {:induction false} RunInvariant(m: Machine, fuel: nat)
    requires |m.regs| == 3
    ensures var (f, st) := RunFor(m, fuel);
      && |f.regs| == 3 && f.program == m.program
      && |f.output| >= |m.output| && f.output[..|m.output|] == m.output
      && (Digits(m.output) ==> Digits(f.output))
      && (st == Halted <==> f.index >= |f.program|)
    decreases fuel
  {
    if m.index >= |m.program| || fuel == 0 || m.index + 1 >= |m.program| {
    } else {
      var opcode, operand := m.program[m.index], m.program[m.index + 1];
      match StepEffect(m.regs, m.output, m.index, opcode, operand)
      case None =>
      case Some(e) =>
        StepRegisters(m.regs, m.output, m.index, opcode, operand);
        StepOutput(m.regs, m.output, m.index, opcode, operand);
        var m' := Machine(e.regs, m.program, e.next, e.output);
        RunInvariant(m', fuel - 1);
        var f := RunFor(m', fuel - 1).0;
        assert f.output[..|m.output|] == f.output[..|m'.output|][..|m.output|];
    }
  }

  /** A run that stops before its fuel runs out stops the same way with
      any more fuel. */
  lemma {:induction false} RunMoreFuel(m: Machine, fuel: nat, more: nat)
    requires |m.regs| == 3 && more >= fuel
    requires RunFor(m, fuel).1 != Running
    ensures RunFor(m, more) == RunFor(m, fuel)
    decreases fuel
  {
    if m.index >= |m.program| || fuel == 0 || m.index + 1 >= |m.program| {
    } else {
      match StepEffect(m.regs, m.output, m.index, m.program[m.index], m.program[m.index + 1])
      case None =>
      case Some(e) =>
        RunMoreFuel(Machine(e.regs, m.program, e.next, e.output), fuel - 1, more - 1);
    }
  }

  /** `Computer::from`: "Register A: n", "Register B: n", "Register C: n",
      one line skipped, then "Program: " and comma-separated numbers below
      256.  None where the source panics on a missing line, a missing
      ": " or a number that does not parse. */
  function ParseComputer(input: string): (r: Option<Machine>)
    ensures r.Some? ==> |r.value.regs| == 3 && r.value.index == 0 && r.value.output == []
    ensures r.Some? ==> forall k :: 0 <= k < |r.value.program| ==> r.value.program[k] < 256
  {
    var lines := Text.Lines(input);
    if |lines| < 5 then None
    else
      match (RegisterValue(lines[0]), RegisterValue(lines[1]), RegisterValue(lines[2]))
      case (Some(a), Some(b), Some(c)) =>
        (match Text.SplitOnce(lines[4], ": ")
         case None => None
         case Some((_, list)) =>
           match ParseBytes(Text.Split(list, ","))
           case None => None
           case Some(program) => Some(Machine([a, b, c], program, 0, [])))
      case _ => None
  }

  function RegisterValue(line: string): Option<nat> {
    match Text.SplitOnce(line, ": ")
    case None => None
    case Some((_, v)) => Text.ParseNat(v)
  }

  /** Each piece parsed as a `u8`. */
  function ParseBytes(pieces: seq<string>): (r: Option<seq<nat>>)
    ensures r.Some? ==> |r.value| == |pieces|
    ensures r.Some? ==> forall k :: 0 <= k < |r.value| ==> r.value[k] < 256 && Text.ParseNat(pieces[k]) == Some(r.value[k])
  {
    if |pieces| == 0 then Some([])
    else match (Text.ParseNat(pieces[|pieces| - 1]), ParseBytes(pieces[..|pieces| - 1]))
      case (Some(v), Some(front)) => if v < 256 then Some(front + [v]) else None
      case _ => None
  }

  /** The `Computer` struct: its registers are a fixed array of three. */
  class Computer {
    var registers: array<nat>
    var opcodes: seq<nat>
    var instructionIndex: nat
    var output: seq<nat>

    ghost predicate Valid()
      reads this
    {
      registers.Length == 3
    }

    /** The machine this computer holds. */
    function Snapshot(): Machine
      reads this, registers
    {
      Machine(registers[..], opcodes, instructionIndex, output)
    }

    /** `Computer { registers, opcodes, ..Default }`. */
    constructor (regs: seq<nat>, program: seq<nat>)
      requires |regs| == 3
      ensures Valid() && fresh(registers)
      ensures Snapshot() == Machine(regs, program, 0, [])
    {
      var r := new nat[3];
      r[0], r[1], r[2] := regs[0], regs[1], regs[2];
      registers := r;
      opcodes := program;
      instructionIndex := 0;
      output := [];
      assert r[..] == regs;
    }

    /** `Computer::step`: executes one instruction and returns the index
        of the next, or None where the source panics (nothing changes
        then).  The instruction index itself is left for `run` to set. */
    method Step(opcode: nat, operand: nat) returns (next: Option<nat>)
      requires Valid()
      modifies this, registers
      ensures Valid() && registers == old(registers)
      ensures opcodes == old(opcodes) && instructionIndex == old(instructionIndex)
      ensures match StepEffect(old(registers[..]), old(output), instructionIndex, opcode, operand)
        case None => next.None? && registers[..] == old(registers[..]) && output == old(output)
        case Some(e) => next == Some(e.next) && registers[..] == e.regs && output == e.output
    {
      var regs := registers[..];
      var combo := Combo(regs, operand);
      next := Some(instructionIndex + 2);
      if opcode == ADV || opcode == BDV || opcode == CDV {
        if combo.None? {
          return None;
        }
        var target := if opcode == ADV then A else if opcode == BDV then B else C;
        registers[target] := registers[A] / Arith.Pow2(combo.value);
      } else if opcode == BXL {
        registers[B] := Xor(registers[B], operand);
      } else if opcode == BST {
        if combo.None? {
          return None;
        }
        registers[B] := combo.value % 8;
      } else if opcode == JNZ {
        if registers[A] != 0 {
          next := Some(operand);
        }
      } else if opcode == BXC {
        registers[B] := Xor(registers[B], registers[C]);
      } else if opcode == OUT {
        if combo.None? {
          return None;
        }
        output := output + [combo.value % 8];
      } else {
        return None;
      }
    }

    /** `Computer::run`, executing at most `fuel` instructions: the final
        state is the one `RunFor` describes. */
    method Run(fuel: nat) returns (status: Status)
      requires Valid()
      modifies this, registers
      ensures Valid() && registers == old(registers)
      ensures (Snapshot(), status) == RunFor(old(Snapshot()), fuel)
    {
      var steps: nat := 0;
      while true
        invariant Valid() && registers == old(registers) && steps <= fuel
        invariant RunFor(Snapshot(), fuel - steps) == RunFor(old(Snapshot()), fuel)
        decreases fuel - steps
      {
        if instructionIndex >= |opcodes| {
          return Halted;
        }
        if steps == fuel {
          return Running;
        }
        if instructionIndex + 1 >= |opcodes| {
          return Faulted;
        }
        var stop := Advance(fuel - steps);
        if stop {
          return Faulted;
        }
        steps := steps + 1;
      }
    }

    /** One iteration of `run` with fuel left: execute the instruction at
        the index and move the index on, or stop at a fault. */
    method Advance(ghost left: nat) returns (stop: bool)
      requires Valid() && left > 0 && instructionIndex + 1 < |opcodes|
      modifies this, registers
      ensures Valid() && registers == old(registers)
      ensures stop ==> (Snapshot(), Faulted) == RunFor(old(Snapshot()), left)
      ensures !stop ==> RunFor(Snapshot(), left - 1) == RunFor(old(Snapshot()), left)
    {
      ghost var before := Snapshot();
      var next := Step(opcodes[instructionIndex], opcodes[instructionIndex + 1]);
      RunForStep(before, left);
      if next.None? {
        assert Snapshot() == before;
        return true;
      }
      instructionIndex := next.value;
      return false;
    }
  }

  /** One instruction of a run with fuel left: a fault ends the run where
      it stands, any other instruction continues from its effect. */
  lemma RunForStep(m: Machine, fuel: nat)
    requires |m.regs| == 3 && fuel > 0 && m.index + 1 < |m.program|
    ensures match StepEffect(m.regs, m.output, m.index, m.program[m.index], m.program[m.index + 1])
      case None => RunFor(m, fuel) == (m, Faulted)
      case Some(e) => RunFor(m, fuel) == RunFor(Machine(e.regs, m.program, e.next, e.output), fuel - 1)
  {
  }

  /** Tests pinned by the source: step(2, 6) on registers (0, 0, 9) sets B
      to 1; 29 xor 7 is 26; 2024 xor 43690 is 44354. */
  lemma StepExamples()
    ensures StepEffect([0, 0, 9], [], 0, 2, 6) == Some(Effect([0, 1, 9], [], 2))
    ensures RunFor(Machine([0, 29, 0], [1, 7], 0, []), 1) == (Machine([0, 26, 0], [1, 7], 2, []), Halted)
    ensures RunFor(Machine([0, 2024, 43690], [4, 0], 0, []), 1) == (Machine([0, 44354, 43690], [4, 0], 2, []), Halted)
  {
    assert [0, 0, 9][B := 9 % 8] == [0, 1, 9];
    assert [0, 29, 0][B := 26] == [0, 26, 0];
    assert [0, 2024, 43690][B := 44354] == [0, 44354, 43690];
    assert Xor(29, 7) == 26 by {
      assert Xor(1, 0) == 1;
      assert Xor(3, 0) == 3;
      assert Xor(7, 1) == 6;
      assert Xor(14, 3) == 13;
      assert Xor(29, 7) == 26;
    }
    assert Xor(2024, 43690) == 44354 by {
      assert Xor(0, 1) == 1;
      assert Xor(0, 2) == 2;
      assert Xor(0, 5) == 5;
      assert Xor(0, 10) == 10;
      assert Xor(0, 21) == 21;
      assert Xor(1, 42) == 43;
      assert Xor(3, 85) == 86;
      assert Xor(7, 170) == 173;
      assert Xor(15, 341) == 346;
      assert Xor(31, 682) == 693;
      assert Xor(63, 1365) == 1386;
      assert Xor(126, 2730) == 2772;
      assert Xor(253, 5461) == 5544;
      assert Xor(506, 10922) == 11088;
      assert Xor(1012, 21845) == 22177;
      assert Xor(2024, 43690) == 44354;
    }
  }

  /** A = 10 with program 5,0,5,1,5,4 outputs 0, 1, 2. */
  lemma OutputExample()
    ensures RunFor(Machine([10, 0, 0], [5, 0, 5, 1, 5, 4], 0, []), 3).0.output == [0, 1, 2]
  {
  }

  /** The program 0,1,5,4,3,0 of the second run test: halve A, output A
      mod 8, jump back while A is nonzero. */
  const Halving: seq<nat> := [0, 1, 5, 4, 3, 0]

  /** One pass of `Halving` from the top. */
  lemma HalvingPass(a: nat, out: seq<nat>, fuel: nat)
    requires fuel >= 3
    ensures a / 2 != 0 ==>
      (RunFor(Machine([a, 0, 0], Halving, 0, out), fuel)
       == RunFor(Machine([a / 2, 0, 0], Halving, 0, out + [(a / 2) % 8]), fuel - 3))
    ensures a / 2 == 0 ==>
      (RunFor(Machine([a, 0, 0], Halving, 0, out), fuel)
       == (Machine([0, 0, 0], Halving, 6, out + [0]), Halted))
  {
    assert Arith.Pow2(1) == 2;
    assert [a, 0, 0][A := a / 2] == [a / 2, 0, 0];
    var m1 := Machine([a / 2, 0, 0], Halving, 2, out);
    var m2 := Machine([a / 2, 0, 0], Halving, 4, out + [(a / 2) % 8]);
    assert RunFor(Machine([a, 0, 0], Halving, 0, out), fuel) == RunFor(m1, fuel - 1);
    assert RunFor(m1, fuel - 1) == RunFor(m2, fuel - 2);
  }

  /** How many passes `Halving` makes from A = a. */
  function Passes(a: nat): nat {
    if a / 2 == 0 then 1 else 1 + Passes(a / 2)
  }

  /** What `Halving` prints from A = a: every halving of a mod 8, down to 0. */
  function HalvingOutput(a: nat): seq<nat> {
    if a / 2 == 0 then [0] else [(a / 2) % 8] + HalvingOutput(a / 2)
  }

  /** `Halving` from any A halts after three instructions per pass, with A
      zero and the halvings mod 8 printed. */
  lemma {:induction false} HalvingRun(a: nat, out: seq<nat>, fuel: nat)
    requires fuel >= 3 * Passes(a)
    ensures RunFor(Machine([a, 0, 0], Halving, 0, out), fuel)
      == (Machine([0, 0, 0], Halving, 6, out + HalvingOutput(a)), Halted)
    decreases a
  {
    HalvingPass(a, out, fuel);
    if a / 2 != 0 {
      var out' := out + [(a / 2) % 8];
      assert Passes(a) == 1 + Passes(a / 2);
      HalvingRun(a / 2, out', fuel - 3);
      assert HalvingOutput(a) == [(a / 2) % 8] + HalvingOutput(a / 2);
      assert out' + HalvingOutput(a / 2) == out + ([(a / 2) % 8] + HalvingOutput(a / 2));
    }
  }

  /** A = 2024 with program 0,1,5,4,3,0 outputs 4,2,5,6,7,7,7,7,3,1,0 and
      halts with A = 0. */
  lemma HalvingExample(a: nat, fuel: nat)
    requires a == 2024 && fuel == 33
    ensures RunFor(Machine([a, 0, 0], Halving, 0, []), fuel)
      == (Machine([0, 0, 0], Halving, 6, [4, 2, 5, 6, 7, 7, 7, 7, 3, 1, 0]), Halted)
  {
    HalvingFrom2024();
    HalvingRun(a, [], fuel);
    assert [] + HalvingOutput(a) == HalvingOutput(a);
  }

  lemma HalvingFrom2024()
    ensures Passes(2024) == 11 && HalvingOutput(2024) == [4, 2, 5, 6, 7, 7, 7, 7, 3, 1, 0]
  {
    PassesFrom2024();
    OutputFrom2024();
  }

  lemma PassesFrom2024()
    ensures Passes(2024) == 11
  {
  }

  lemma OutputFrom2024()
    ensures HalvingOutput(2024) == [4, 2, 5, 6, 7, 7, 7, 7, 3, 1, 0]
  {
  }
}
