/** Day 19, "Linen Layout": a towel pattern can be made by laying towel
    options end to end; the answer counts the patterns that can be made at
    all and adds up the number of ways to make each one.  A way is an
    ordered choice of options, named by their positions in the list, so
    an option listed twice counts twice. */
module LinenLayout {
  import opened Wrappers
  import Text
  import Seqs

  /** `Puzzle`: the towel options and the patterns (`towels`) to make. */
  datatype Puzzle = Puzzle(options: seq<string>, towels: seq<string>)

  /** Every option has at least one stripe.  With an empty option
      `makeable_ways` would call itself on the same pattern without end. */
  predicate NonEmptyOptions(options: seq<string>) {
    forall i :: 0 <= i < |options| ==> |options[i]| > 0
  }

  /** `str::starts_with`. */
  predicate StartsWith(t: string, prefix: string) {
    |prefix| <= |t| && t[..|prefix|] == prefix
  }

  /** The reference count: 1 for the empty pattern, otherwise the sum over
      the options that start the pattern of the ways to make what is left. */
  function Ways(options: seq<string>, t: string): nat
    requires NonEmptyOptions(options)
    decreases |t|, |options| + 1
  {
    if |t| == 0 then 1 else WaysFrom(options, t, |options|)
  }

  /** The sum in `Ways` over the first `k` options only. */
  function WaysFrom(options: seq<string>, t: string, k: nat): nat
    requires NonEmptyOptions(options) && k <= |options|
    decreases |t|, k
  {
    if k == 0 then 0
    else
      var o := options[k - 1];
      WaysFrom(options, t, k - 1) + if StartsWith(t, o) then Ways(options, t[|o|..]) else 0
  }

  /** The options at the positions `parts`, laid end to end. */
  function Concat(options: seq<string>, parts: seq<nat>): string
    requires forall j :: 0 <= j < |parts| ==> parts[j] < |options|
  {
    if |parts| == 0 then "" else options[parts[0]] + Concat(options, parts[1..])
  }

  /** `parts` names options that, laid end to end, make the pattern `t`. */
  predicate Spells(options: seq<string>, parts: seq<nat>, t: string) {
    (forall j :: 0 <= j < |parts| ==> parts[j] < |options|) && Concat(options, parts) == t
  }

  /** Each choice in `cs` with option `i` put in front. */
  function Prepend(i: nat, cs: seq<seq<nat>>): (r: seq<seq<nat>>)
    ensures |r| == |cs| && forall j :: 0 <= j < |cs| ==> r[j] == [i] + cs[j]
  {
    seq(|cs|, j requires 0 <= j < |cs| => [i] + cs[j])
  }

  /** The ways to make `t` themselves, listed by first option and recursing
      the way `Ways` does. */
  function Choices(options: seq<string>, t: string): seq<seq<nat>>
    requires NonEmptyOptions(options)
    decreases |t|, |options| + 1
  {
    if |t| == 0 then [[]] else ChoicesFrom(options, t, |options|)
  }

  /** The ways to make a non-empty `t` whose first option is among the
      first `k`. */
  function ChoicesFrom(options: seq<string>, t: string, k: nat): seq<seq<nat>>
    requires NonEmptyOptions(options) && k <= |options|
    decreases |t|, k
  {
    if k == 0 then []
    else
      var o := options[k - 1];
      ChoicesFrom(options, t, k - 1) + if StartsWith(t, o) then Prepend(k - 1, Choices(options, t[|o|..])) else []
  }

  /** The count is the length of the list of ways. */
  lemma {:induction false} ChoicesCount(options: seq<string>, t: string)
    requires NonEmptyOptions(options)
    ensures |Choices(options, t)| == Ways(options, t)
    decreases |t|, |options| + 1
  {
    if |t| > 0 {
      ChoicesFromCount(options, t, |options|);
    }
  }

  lemma {:induction false} ChoicesFromCount(options: seq<string>, t: string, k: nat)
    requires NonEmptyOptions(options) && k <= |options|
    ensures |ChoicesFrom(options, t, k)| == WaysFrom(options, t, k)
    decreases |t|, k
  {
    if k > 0 {
      ChoicesFromCount(options, t, k - 1);
      var o := options[k - 1];
      if StartsWith(t, o) {
        ChoicesCount(options, t[|o|..]);
      }
    }
  }

  /** Laying out an option and then more options. */
  lemma ConcatCons(options: seq<string>, i: nat, parts: seq<nat>)
    requires i < |options| && forall j :: 0 <= j < |parts| ==> parts[j] < |options|
    ensures Concat(options, [i] + parts) == options[i] + Concat(options, parts)
  {
    assert ([i] + parts)[0] == i && ([i] + parts)[1..] == parts;
  }

  /** Every listed way makes the pattern. */
  lemma {:induction false} ChoicesSound(options: seq<string>, t: string, c: seq<nat>)
    requires NonEmptyOptions(options) && c in Choices(options, t)
    ensures Spells(options, c, t)
    decreases |t|, |options| + 1
  {
    if |t| > 0 {
      ChoicesFromSound(options, t, |options|, c);
    }
  }

  lemma {:induction false} ChoicesFromSound(options: seq<string>, t: string, k: nat, c: seq<nat>)
    requires NonEmptyOptions(options) && k <= |options| && c in ChoicesFrom(options, t, k)
    ensures Spells(options, c, t)
    decreases |t|, k
  {
    var o := options[k - 1];
    if c in ChoicesFrom(options, t, k - 1) {
      ChoicesFromSound(options, t, k - 1, c);
    } else {
      assert StartsWith(t, o);
      var rest := Choices(options, t[|o|..]);
      var j :| 0 <= j < |rest| && c == [k - 1] + rest[j];
      ChoicesSound(options, t[|o|..], rest[j]);
      ConcatCons(options, k - 1, rest[j]);
      assert t == o + t[|o|..];
    }
  }

  /** A way that starts with option `i` is listed once `k` passes `i`. */
  lemma {:induction false} ChoicesFromHas(options: seq<string>, t: string, k: nat, i: nat, c: seq<nat>)
    requires NonEmptyOptions(options) && i < k <= |options|
    requires StartsWith(t, options[i]) && c in Choices(options, t[|options[i]|..])
    ensures [i] + c in ChoicesFrom(options, t, k)
    decreases k
  {
    if i < k - 1 {
      ChoicesFromHas(options, t, k - 1, i, c);
    } else {
      var rest := Choices(options, t[|options[i]|..]);
      var j :| 0 <= j < |rest| && rest[j] == c;
      assert Prepend(i, rest)[j] == [i] + c;
    }
  }

  /** Every way to make the pattern is listed. */
  lemma {:induction false} ChoicesComplete(options: seq<string>, t: string, c: seq<nat>)
    requires NonEmptyOptions(options) && Spells(options, c, t)
    ensures c in Choices(options, t)
    decreases |t|
  {
    if |c| == 0 {
      assert t == "";
    } else {
      var i := c[0];
      var tail := c[1..];
      var o := options[i];
      ConcatCons(options, i, tail);
      assert c == [i] + tail;
      var rest := Concat(options, tail);
      assert t == o + rest;
      assert t[..|o|] == o && t[|o|..] == rest;
      ChoicesComplete(options, rest, tail);
      ChoicesFromHas(options, t, |options|, i, tail);
    }
  }

  /** A way listed in `ChoicesFrom(.., k)` starts with one of the first `k`
      options. */
  lemma {:induction false} ChoicesFromFirst(options: seq<string>, t: string, k: nat, c: seq<nat>)
    requires NonEmptyOptions(options) && k <= |options| && c in ChoicesFrom(options, t, k)
    ensures |c| > 0 && c[0] < k
    decreases k
  {
    if c in ChoicesFrom(options, t, k - 1) {
      ChoicesFromFirst(options, t, k - 1, c);
    } else {
      var rest := Choices(options, t[|options[k - 1]|..]);
      var j :| 0 <= j < |rest| && c == [k - 1] + rest[j];
    }
  }

  /** Putting the same option in front keeps the ways apart. */
  lemma PrependDistinct(i: nat, cs: seq<seq<nat>>)
    requires Seqs.Distinct(cs)
    ensures Seqs.Distinct(Prepend(i, cs))
  {
    var r := Prepend(i, cs);
    forall a, b | 0 <= a < b < |r| ensures r[a] != r[b] {
      assert r[a][1..] == cs[a] && r[b][1..] == cs[b];
    }
  }

  /** No way is listed twice. */
  lemma {:induction false} ChoicesDistinct(options: seq<string>, t: string)
    requires NonEmptyOptions(options)
    ensures Seqs.Distinct(Choices(options, t))
    decreases |t|, |options| + 1
  {
    if |t| > 0 {
      ChoicesFromDistinct(options, t, |options|);
    }
  }

  lemma {:induction false} ChoicesFromDistinct(options: seq<string>, t: string, k: nat)
    requires NonEmptyOptions(options) && k <= |options|
    ensures Seqs.Distinct(ChoicesFrom(options, t, k))
    decreases |t|, k
  {
    if k > 0 {
      var o := options[k - 1];
      var earlier := ChoicesFrom(options, t, k - 1);
      ChoicesFromDistinct(options, t, k - 1);
      if StartsWith(t, o) {
        var later := Prepend(k - 1, Choices(options, t[|o|..]));
        ChoicesDistinct(options, t[|o|..]);
        PrependDistinct(k - 1, Choices(options, t[|o|..]));
        var all := earlier + later;
        assert all == ChoicesFrom(options, t, k);
        forall a, b | 0 <= a < |earlier| <= b < |all| ensures all[a] != all[b] {
          ChoicesFromFirst(options, t, k - 1, earlier[a]);
          assert all[b] == later[b - |earlier|];
          assert all[b][0] == k - 1;
        }
      }
    }
  }

  /** `makeable_ways` counts exactly the ordered choices of options that
      make the pattern: the list of them has no repeats, holds every such
      choice and nothing else, and its length is the count. */
  lemma WaysCounts(options: seq<string>, t: string)
    requires NonEmptyOptions(options)
    ensures |Choices(options, t)| == Ways(options, t)
    ensures Seqs.Distinct(Choices(options, t))
    ensures forall c :: c in Choices(options, t) <==> Spells(options, c, t)
  {
    ChoicesCount(options, t);
    ChoicesDistinct(options, t);
    forall c ensures c in Choices(options, t) <==> Spells(options, c, t) {
      if c in Choices(options, t) {
        ChoicesSound(options, t, c);
      }
      if Spells(options, c, t) {
        ChoicesComplete(options, t, c);
      }
    }
  }

  /** A pattern can be made at all exactly when it has a way. */
  lemma WaysPositive(options: seq<string>, t: string)
    requires NonEmptyOptions(options)
    ensures Ways(options, t) > 0 <==> exists c :: Spells(options, c, t)
  {
    WaysCounts(options, t);
    if Ways(options, t) > 0 {
      assert Spells(options, Choices(options, t)[0], t);
    }
  }

  /** The memo shared by the calls of `makeable_options`: patterns with
      their number of ways. */
  class WaysCache {
    var entries: map<string, nat>

    /** Every cached number is the recomputed count, so a hit returns what
        the computation would have. */
    ghost predicate Valid(options: seq<string>)
      reads this
      requires NonEmptyOptions(options)
    {
      forall t :: t in entries ==> entries[t] == Ways(options, t)
    }

    constructor ()
      ensures entries == map[]
    {
      entries := map[];
    }
  }

  /** `makeable_ways`: a cached pattern's count comes from the cache;
      otherwise the count is computed option by option and then cached. */
  method MakeableWays(puzzle: Puzzle, towel: string, cache: WaysCache) returns (ways: nat)
    requires NonEmptyOptions(puzzle.options) && cache.Valid(puzzle.options)
    modifies cache
    ensures cache.Valid(puzzle.options)
    ensures ways == Ways(puzzle.options, towel)
    decreases |towel|
  {
    if towel in cache.entries {
      return cache.entries[towel];
    }
    if |towel| == 0 {
      return 1;
    }
    var result := 0;
    for i := 0 to |puzzle.options|
      invariant cache.Valid(puzzle.options)
      invariant result == WaysFrom(puzzle.options, towel, i)
    {
      var option := puzzle.options[i];
      if StartsWith(towel, option) {
        var remaining := MakeableWays(puzzle, towel[|option|..], cache);
        result := result + remaining;
      }
    }
    cache.entries := cache.entries[towel := result];
    return result;
  }

  /** `makeable_options`: the number of ways for each pattern, in order,
      sharing one cache. */
  method MakeableOptions(puzzle: Puzzle) returns (counts: seq<nat>)
    requires NonEmptyOptions(puzzle.options)
    ensures |counts| == |puzzle.towels|
    ensures forall k :: 0 <= k < |counts| ==> counts[k] == Ways(puzzle.options, puzzle.towels[k])
  {
    var cache := new WaysCache();
    counts := [];
    for k := 0 to |puzzle.towels|
      invariant cache.Valid(puzzle.options)
      invariant |counts| == k
      invariant forall j :: 0 <= j < k ==> counts[j] == Ways(puzzle.options, puzzle.towels[j])
    {
      var ways := MakeableWays(puzzle, puzzle.towels[k], cache);
      counts := counts + [ways];
    }
  }

  /** Part 1: how many counts are positive. */
  function Positive(counts: seq<nat>): (r: nat)
    ensures r <= |counts|
  {
    if |counts| == 0 then 0
    else Positive(counts[..|counts| - 1]) + if counts[|counts| - 1] > 0 then 1 else 0
  }

  /** The patterns that can be made, by the definition of a way. */
  ghost function Makeable(options: seq<string>, towels: seq<string>): (r: nat)
    requires NonEmptyOptions(options)
  {
    if |towels| == 0 then 0
    else
      var n := |towels| - 1;
      Makeable(options, towels[..n]) + if exists c :: Spells(options, c, towels[n]) then 1 else 0
  }

  /** Every pattern's number of ways, added up. */
  function TotalWays(options: seq<string>, towels: seq<string>): nat
    requires NonEmptyOptions(options)
  {
    if |towels| == 0 then 0
    else
      var n := |towels| - 1;
      TotalWays(options, towels[..n]) + Ways(options, towels[n])
  }

  /** Counting the positive counts of the patterns is counting the patterns
      some choice of options makes, and adding the counts is `TotalWays`. */
  lemma {:induction false} CountsAnswer(options: seq<string>, towels: seq<string>, counts: seq<nat>)
    requires NonEmptyOptions(options) && |counts| == |towels|
    requires forall k :: 0 <= k < |counts| ==> counts[k] == Ways(options, towels[k])
    ensures Positive(counts) == Makeable(options, towels)
    ensures Seqs.Sum(counts) == TotalWays(options, towels)
  {
    if |towels| > 0 {
      var n := |towels| - 1;
      CountsAnswer(options, towels[..n], counts[..n]);
      WaysPositive(options, towels[n]);
    }
  }

  /** `Puzzle::from`: the options before the first blank line, split at
      `, `, and one pattern per line after it; None where `unwrap` panics
      because there is no blank line. */
  function ParsePuzzle(input: string): (r: Option<Puzzle>)
    ensures r.Some? <==> Text.SplitOnce(input, "\n\n").Some?
    ensures r.Some? ==> |r.value.options| >= 1
  {
    match Text.SplitOnce(input, "\n\n")
    case None => None
    case Some((optionsData, towelsData)) =>
      Some(Puzzle(Text.Split(optionsData, ", "), Text.Lines(towelsData)))
  }

  /** Every pattern is empty.  `makeable_ways` answers 1 for an empty
      pattern before it looks at any option, so then no option is tried. */
  predicate AllEmpty(towels: seq<string>) {
    forall k :: 0 <= k < |towels| ==> |towels[k]| == 0
  }

  /** `main`: the number of patterns that can be made and the total number
      of ways; None where parsing panics, or where an empty option meets a
      nonempty pattern, on which `makeable_ways` calls itself on the same
      pattern without end.  With an empty option and only empty patterns
      each pattern has its one way. */
  method Run(input: string) returns (r: Option<(nat, nat)>)
    ensures r.None? <==> (ParsePuzzle(input).None? ||
      (!NonEmptyOptions(ParsePuzzle(input).value.options) && !AllEmpty(ParsePuzzle(input).value.towels)))
    ensures r.Some? && NonEmptyOptions(ParsePuzzle(input).value.options) ==> var p := ParsePuzzle(input).value;
      r.value == (Makeable(p.options, p.towels), TotalWays(p.options, p.towels))
    ensures r.Some? && !NonEmptyOptions(ParsePuzzle(input).value.options) ==>
      r.value == (|ParsePuzzle(input).value.towels|, |ParsePuzzle(input).value.towels|)
  {
    var parsed := ParsePuzzle(input);
    if parsed.None? {
      return None;
    }
    var puzzle := parsed.value;
    if !NonEmptyOptions(puzzle.options) {
      if !AllEmpty(puzzle.towels) {
        return None;
      }
      return Some((|puzzle.towels|, |puzzle.towels|));
    }
    var counts := MakeableOptions(puzzle);
    CountsAnswer(puzzle.options, puzzle.towels, counts);
    return Some((Positive(counts), Seqs.Sum(counts)));
  }

  /** The input "r, " and a blank line holds the options `r` and the empty
      option and no pattern, so `Run` answers 0 and 0 on it. */
  lemma ExampleEmptyOption()
    ensures ParsePuzzle("r, \n\n") == Some(Puzzle(["r", ""], []))
  {
    var input := "r, \n\n";
    assert input[0] == 'r' && input[1] == ',' && input[2] == ' ' && input[3] == '\n' && input[4] == '\n';
    assert input[0..2] == "r," && input[1..3] == ", " && input[2..4] == " \n" && input[3..5] == "\n\n";
    assert Text.FindFrom(input, "\n\n", 0) == Some(3);
    assert input[..3] == "r, " && input[5..] == "";
    var options := "r, ";
    assert options[0..2] == "r," && options[1..3] == ", ";
    assert options[3..] == "";
    assert Text.SplitFrom(options, ", ", 3, 3) == [""];
    assert options[0..1] == "r";
    assert Text.Split(options, ", ") == ["r", ""];
    assert Text.SplitOnce(input, "\n\n") == Some((options, ""));
    assert Text.Lines("") == [];
  }

  /** With the options `r, wr, b, g, bwu, rb, gb, br`, the pattern `ubwu`
      cannot be made: no option starts with `u`. */
  lemma ExampleUbwu()
    ensures Ways(["r", "wr", "b", "g", "bwu", "rb", "gb", "br"], "ubwu") == 0
  {
    var options := ["r", "wr", "b", "g", "bwu", "rb", "gb", "br"];
    var t := "ubwu";
    forall i | 0 <= i < |options| ensures !StartsWith(t, options[i]) {
      assert options[i][0] != 'u';
    }
    assert WaysFrom(options, t, 8) == 0;
  }
}
