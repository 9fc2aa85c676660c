/** Day 22, "Monkey Market": every buyer's secret number evolves by a
    fixed pseudo-random round of shifts, XORs and reductions modulo 2^24;
    the answer adds up each buyer's secret after 2000 rounds.  Secrets are
    `u64` values, modelled as `bv64` so that shifting left drops the bits
    past the 64th as the source's does. */
module MonkeyMarket {
  import opened Wrappers
  import Text

  /** `Trader`: one buyer and their initial secret. */
  datatype Trader = Trader(secret: bv64)

  /** The first statement of `regen_secret`'s loop: XOR the secret with
      itself shifted left by 6, then reduce modulo `2 << 23`, that is 2^24. */
  function MixLeft6(secret: bv64): (r: bv64)
    ensures r < (2 << 23)
  {
    ((secret << 6) ^ secret) % (2 << 23)
  }

  /** The second statement: XOR with the secret shifted right by 5, reduce. */
  function MixRight5(secret: bv64): (r: bv64)
    ensures r < (2 << 23)
  {
    ((secret >> 5) ^ secret) % (2 << 23)
  }

  /** The third statement: XOR with the secret shifted left by 11, reduce. */
  function MixLeft11(secret: bv64): (r: bv64)
    ensures r < (2 << 23)
  {
    ((secret << 11) ^ secret) % (2 << 23)
  }

  /** One pass of the loop: the three statements in order. */
  function Round(secret: bv64): (r: bv64)
    ensures r < (2 << 23)
  {
    MixLeft11(MixRight5(MixLeft6(secret)))
  }

  /** The reference: the secret after `times` rounds. */
  function Regen(secret: bv64, times: nat): bv64 {
    if times == 0 then secret else Round(Regen(secret, times - 1))
  }

  /** `regen_secret`: the loop that reassigns the local secret. */
  method RegenSecret(trader: Trader, times: nat) returns (r: bv64)
    ensures r == Regen(trader.secret, times)
    ensures times == 0 ==> r == trader.secret
    ensures times > 0 ==> r < (2 << 23)
  {
    var secret := trader.secret;
    for i := 0 to times
      invariant secret == Regen(trader.secret, i)
    {
      secret := MixLeft6(secret);
      secret := MixRight5(secret);
      secret := MixLeft11(secret);
    }
    return secret;
  }

  /** Any number of rounds but none lands below 2^24. */
  lemma RegenBound(secret: bv64, times: nat)
    requires times > 0
    ensures Regen(secret, times) < (2 << 23)
  {
  }

  /** Rounds compose: `a + b` rounds are `b` rounds after `a` rounds. */
  lemma {:induction false} RegenCompose(secret: bv64, a: nat, b: nat)
    ensures Regen(secret, a + b) == Regen(Regen(secret, a), b)
    decreases b
  {
    if b > 0 {
      RegenCompose(secret, a, b - 1);
    }
  }

  /** Reducing modulo 2^24 keeps the low 24 bits ... */
  lemma ReduceIsMask(x: bv64)
    ensures x % (2 << 23) == x & 0xFF_FFFF
  {
  }

  /** ... so a round reads only the low 24 bits of the secret: the bits
      above them are lost in the first round. */
  lemma RoundLowBits(secret: bv64)
    ensures Round(secret) == Round(secret & 0xFF_FFFF)
  {
    var low := secret & 0xFF_FFFF;
    assert MixLeft6(secret) == MixLeft6(low) by {
      ReduceIsMask((secret << 6) ^ secret);
      ReduceIsMask((low << 6) ^ low);
    }
  }

  /** `Trader::from`: a line holding a `u64`; None where `unwrap` panics,
      which is where the line is not a number or the number needs more
      than 64 bits. */
  function ParseTrader(line: string): (r: Option<Trader>)
    ensures r.Some? <==> Text.ParseNat(line).Some? && Text.ParseNat(line).value < 0x1_0000_0000_0000_0000
  {
    match Text.ParseNat(line)
    case None => None
    case Some(n) => if n < 0x1_0000_0000_0000_0000 then Some(Trader(n as bv64)) else None
  }

  /** The buyers' secrets after `times` rounds, added up. */
  function SumAfter(traders: seq<Trader>, times: nat): nat {
    if |traders| == 0 then 0
    else SumAfter(traders[..|traders| - 1], times) + Regen(traders[|traders| - 1].secret, times) as nat
  }

  /** `main`: the sum over the trimmed input's lines of the secret after
      2000 rounds; None where a line is not a `u64`. */
  function Part1(input: string): (r: Option<nat>)
    ensures r.Some? <==> forall k :: 0 <= k < |Text.Lines(Text.Trim(input))| ==>
      ParseTrader(Text.Lines(Text.Trim(input))[k]).Some?
  {
    match Text.ParseEach(Text.Lines(Text.Trim(input)), ParseTrader)
    case None => None
    case Some(traders) => Some(SumAfter(traders, 2000))
  }

  /** The first secrets that follow 123. */
  lemma Example123()
    ensures Regen(123, 1) == 15887950 && Regen(123, 2) == 16495136 && Regen(123, 3) == 527345
  {
    assert Round(123) == 15887950;
    assert Round(15887950) == 16495136;
    assert Round(16495136) == 527345;
  }
}
