/** Day 11, "Plutonian Pebbles": at every blink each stone changes by the
    first rule that applies (0 becomes 1, an even number of digits splits
    in two, anything else is multiplied by 2024); the solver counts the
    stones after many blinks, remembering counts already found. */
module Pebbles {
  import opened Wrappers
  import Text
  import Arith

  function Pow10(n: nat): (r: nat)
    ensures r >= 1
  {
    if n == 0 then 1 else 10 * Pow10(n - 1)
  }

  lemma {:induction false} Pow10Add(a: nat, b: nat)
    ensures Pow10(a + b) == Pow10(a) * Pow10(b)
    decreases a
  {
    if a > 0 {
      Pow10Add(a - 1, b);
      assert Pow10(a) * Pow10(b) == 10 * (Pow10(a - 1) * Pow10(b));
    }
  }

  /** The number of decimal digits of a positive stone: the exact count the
      source means by `floor(log10(stone)) + 1`. */
  function NumDigits(stone: nat): (d: nat)
    requires stone > 0
    ensures d >= 1 && Pow10(d - 1) <= stone < Pow10(d)
  {
    if stone < 10 then 1 else 1 + NumDigits(stone / 10)
  }

  /** `blink_stone`: what one stone becomes after one blink. */
  function BlinkStone(stone: nat): (r: seq<nat>)
    ensures 1 <= |r| <= 2
  {
    if stone == 0 then [1]
    else
      var d := NumDigits(stone);
      if d % 2 == 0 then [stone / Pow10(d / 2), stone % Pow10(d / 2)]
      else [stone * 2024]
  }

  /** A number of `2h` digits divided by `10^h` leaves one of `h`. */
  lemma HalfBounds(stone: nat, h: nat)
    requires h >= 1 && Pow10(2 * h - 1) <= stone < Pow10(2 * h)
    ensures Pow10(h - 1) <= stone / Pow10(h) < Pow10(h)
  {
    var p := Pow10(h);
    Pow10Add(h, h);
    Pow10Add(h - 1, h);
    assert p * Pow10(h - 1) == Pow10(h - 1) * p;
    Arith.DivBounds(stone, p, Pow10(h - 1), p);
  }

  /** A split keeps the digits: the left half has exactly half of them,
      the right half is below `10^half`, and together they give the stone
      back. */
  lemma SplitKeepsDigits(stone: nat)
    requires stone > 0 && NumDigits(stone) % 2 == 0
    ensures var h := NumDigits(stone) / 2;
      var r := BlinkStone(stone);
      |r| == 2 && r[0] * Pow10(h) + r[1] == stone && r[1] < Pow10(h) &&
      r[0] > 0 && NumDigits(r[0]) == h
  {
    var d := NumDigits(stone);
    var h := d / 2;
    var p := Pow10(h);
    var left := stone / p;
    assert BlinkStone(stone) == [left, stone % p];
    assert d == 2 * h && Pow10(2 * h - 1) <= stone < Pow10(2 * h);
    HalfBounds(stone, h);
    assert left * p + stone % p == stone;
    DigitsBetween(left, h);
  }

  /** A number between `10^(h-1)` and `10^h` has `h` digits. */
  lemma {:induction false} DigitsBetween(n: nat, h: nat)
    requires h >= 1 && Pow10(h - 1) <= n < Pow10(h)
    ensures n > 0 && NumDigits(n) == h
    decreases h
  {
    if n >= 10 {
      DigitsBetween(n / 10, h - 1);
    }
  }

  /** One blink of a whole row: every stone replaced in place by what it
      becomes, the order kept. */
  function Blink(stones: seq<nat>): seq<nat> {
    if |stones| == 0 then [] else BlinkStone(stones[0]) + Blink(stones[1..])
  }

  /** The row after `n` blinks. */
  function Blinks(stones: seq<nat>, n: nat): seq<nat>
    decreases n
  {
    if n == 0 then stones else Blinks(Blink(stones), n - 1)
  }

  lemma {:induction false} BlinkAppend(a: seq<nat>, b: seq<nat>)
    ensures Blink(a + b) == Blink(a) + Blink(b)
    decreases |a|
  {
    if |a| == 0 {
      assert a + b == b;
    } else {
      assert (a + b)[0] == a[0] && (a + b)[1..] == a[1..] + b;
      BlinkAppend(a[1..], b);
    }
  }

  /** Stones never interact: the rows of two halves evolve separately. */
  lemma {:induction false} BlinksAppend(a: seq<nat>, b: seq<nat>, n: nat)
    ensures Blinks(a + b, n) == Blinks(a, n) + Blinks(b, n)
    decreases n
  {
    if n > 0 {
      BlinkAppend(a, b);
      BlinksAppend(Blink(a), Blink(b), n - 1);
    }
  }

  /** The count that `blink` computes for one stone and `n >= 1` blinks:
      the number of new stones after one blink, or the counts of each of
      those after `n - 1` more. */
  function Count(stone: nat, n: nat): nat
    requires n >= 1
    decreases n, 0
  {
    if n == 1 then |BlinkStone(stone)| else TotalCount(BlinkStone(stone), n - 1)
  }

  /** The counts of a row of stones, added up. */
  function TotalCount(stones: seq<nat>, n: nat): nat
    requires n >= 1
    decreases n, |stones|
  {
    if |stones| == 0 then 0
    else TotalCount(stones[..|stones| - 1], n) + Count(stones[|stones| - 1], n)
  }

  lemma TotalCountOne(stone: nat, n: nat)
    requires n >= 1
    ensures TotalCount([stone], n) == Count(stone, n)
  {
    assert [stone][..0] == [];
  }

  /** The counting is right: it is the length of the row after `n` blinks,
      for one stone ... */
  lemma {:induction false} CountIsLength(stone: nat, n: nat)
    requires n >= 1
    ensures Count(stone, n) == |Blinks([stone], n)|
    decreases n, 0
  {
    assert Blink([stone]) == BlinkStone(stone) by {
      assert [stone][1..] == [];
    }
    if n > 1 {
      TotalCountIsLength(BlinkStone(stone), n - 1);
    }
  }

  /** ... and for a whole row. */
  lemma {:induction false} TotalCountIsLength(stones: seq<nat>, n: nat)
    requires n >= 1
    ensures TotalCount(stones, n) == |Blinks(stones, n)|
    decreases n, |stones|
  {
    if |stones| > 0 {
      var k := |stones| - 1;
      TotalCountIsLength(stones[..k], n);
      CountIsLength(stones[k], n);
      assert stones == stones[..k] + [stones[k]];
      BlinksAppend(stones[..k], [stones[k]], n);
    } else {
      BlinksEmpty(n);
    }
  }

  lemma {:induction false} BlinksEmpty(n: nat)
    ensures Blinks([], n) == []
  {
    if n > 0 {
      BlinksEmpty(n - 1);
    }
  }

  lemma TotalCountSnoc(stones: seq<nat>, stone: nat, n: nat)
    requires n >= 1
    ensures TotalCount(stones + [stone], n) == TotalCount(stones, n) + Count(stone, n)
  {
    assert (stones + [stone])[..|stones|] == stones;
  }

  /** `Stones`: the stones of the input and the cache of counts found so
      far, keyed by stone and number of blinks. */
  class Stones {
    var stones: seq<nat>
    var cache: map<(nat, nat), nat>

    /** Every cached count is the true count of its stone and blinks. */
    ghost predicate Valid()
      reads this
    {
      forall key :: key in cache ==> key.1 >= 1 && cache[key] == Count(key.0, key.1)
    }

    /** `Stones::from` with the stones already parsed; the cache starts
        empty. */
    constructor (stones: seq<nat>)
      ensures this.stones == stones && cache == map[] && Valid()
    {
      this.stones := stones;
      cache := map[];
    }

    /** `blink`: the number of stones after `n` blinks of `queue`, or of
        the input's stones when there is no queue.  Each stone's count is
        taken from the cache when there, and the count of every new stone
        is stored under `n - 1`.  `n` is at least 1: with 0 the source's
        `n - 1` underflows. */
    method Blink(n: nat, queue: Option<seq<nat>>) returns (total: nat)
      requires n >= 1 && Valid()
      modifies this
      ensures Valid() && stones == old(stones)
      ensures total == TotalCount(if queue.Some? then queue.value else old(stones), n)
      decreases n
    {
      var todo := if queue.Some? then queue.value else stones;
      total := 0;
      for i := 0 to |todo|
        invariant Valid() && stones == old(stones)
        invariant total == TotalCount(todo[..i], n)
      {
        assert todo[..i + 1] == todo[..i] + [todo[i]];
        TotalCountSnoc(todo[..i], todo[i], n);
        var stone := todo[i];
        var count;
        if (stone, n) in cache {
          count := cache[(stone, n)];
        } else {
          count := CountNew(stone, n);
        }
        total := total + count;
      }
      assert todo[..|todo|] == todo;
    }

    /** The inner `map(...).sum()` of `blink` for a stone not in the cache:
        1 for each new stone after the last blink, else the count of each
        new stone, cached under `n - 1`. */
    method CountNew(stone: nat, n: nat) returns (count: nat)
      requires n >= 1 && Valid()
      modifies this
      ensures Valid() && stones == old(stones)
      ensures count == Count(stone, n)
      decreases n, 0
    {
      var next := BlinkStone(stone);
      count := 0;
      for j := 0 to |next|
        invariant Valid() && stones == old(stones)
        invariant count == if n == 1 then j else TotalCount(next[..j], n - 1)
      {
        var newStone := next[j];
        if n == 1 {
          count := count + 1;
        } else {
          assert next[..j + 1] == next[..j] + [newStone];
          TotalCountSnoc(next[..j], newStone, n - 1);
          var c := Blink(n - 1, Some([newStone]));
          TotalCountOne(newStone, n - 1);
          cache := cache[(newStone, n - 1) := c];
          count := count + c;
        }
      }
      assert next[..|next|] == next;
    }
  }

  /** `Stones::from`: the whitespace-separated numbers; None where an
      `unwrap` panics. */
  function ParseStones(input: string): (r: Option<seq<nat>>)
    ensures r.Some? <==> forall k :: 0 <= k < |Text.Words(input)| ==> Text.ParseNat(Text.Words(input)[k]).Some?
  {
    Text.ParseEach(Text.Words(input), Text.ParseNat)
  }

  /** `main`: the counts after 25 and after 75 blinks of the trimmed
      input's stones, the second reusing the cache the first filled. */
  method Run(input: string) returns (r: Option<(nat, nat)>)
    ensures r.None? <==> ParseStones(Text.Trim(input)).None?
    ensures r.Some? ==> (r.value.0 == |Blinks(ParseStones(Text.Trim(input)).value, 25)| &&
      r.value.1 == |Blinks(ParseStones(Text.Trim(input)).value, 75)|)
  {
    match ParseStones(Text.Trim(input))
    case None =>
      return None;
    case Some(parsed) =>
      var stones := new Stones(parsed);
      var step1 := stones.Blink(25, None);
      var step2 := stones.Blink(75, None);
      TotalCountIsLength(parsed, 25);
      TotalCountIsLength(parsed, 75);
      return Some((step1, step2));
  }

  /** Single stones of the example: 125 has three digits, 17 splits into 1
      and 7, 253000 into 253 and 0. */
  lemma ExampleStones()
    ensures BlinkStone(125) == [253000] && BlinkStone(17) == [1, 7]
    ensures BlinkStone(253000) == [253, 0] && BlinkStone(1) == [2024] && BlinkStone(7) == [14168]
  {
    DigitsBetween(125, 3);
    DigitsBetween(17, 2);
    DigitsBetween(253000, 6);
    DigitsBetween(1, 1);
    DigitsBetween(7, 1);
  }

  /** `125 17`: three stones after one blink ... */
  lemma ExampleOneBlink()
    ensures TotalCount([125, 17], 1) == 3
  {
    ExampleStones();
    var s: seq<nat> := [125, 17];
    assert s[..1] == [125] && s[..1][..0] == [];
  }

  /** ... and four after two. */
  lemma ExampleTwoBlinks()
    ensures TotalCount([125, 17], 2) == 4
  {
    ExampleStones();
    var s: seq<nat> := [125, 17];
    assert s[..1] == [125] && s[..1][..0] == [];
    var a: seq<nat> := [253000];
    assert a[..0] == [];
    assert TotalCount(a, 1) == 2;
    var b: seq<nat> := [1, 7];
    assert b[..1] == [1] && b[..1][..0] == [];
    assert TotalCount(b, 1) == 2;
  }
}
