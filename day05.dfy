/** Day 5, the safety manual: page-ordering rules `l|r` say that page l
    must come before page r; an update is a list of pages.  An update is
    valid when every rule whose two pages it contains is respected; the
    answers sum the middle pages of the valid updates and of the invalid
    ones after reordering. */
module SafetyManual {
  import opened Wrappers
  import Text
  import Seqs

  type Rule = (nat, nat)
  type Update = seq<nat>

  datatype Puzzle = Puzzle(rules: seq<Rule>, updates: seq<Update>)

  /** One rule line `l|r`; None for a malformed line, which the source drops. */
  function ParseRule(line: string): (r: Option<Rule>)
    ensures r.Some? ==> exists left, right ::
      line == left + "|" + right && Text.ParseNat(left) == Some(r.value.0) && Text.ParseNat(right) == Some(r.value.1)
  {
    match Text.SplitOnce(line, "|")
    case None => None
    case Some((left, right)) =>
      match (Text.ParseNat(left), Text.ParseNat(right))
      case (Some(l), Some(r)) => Some((l, r))
      case _ => None
  }

  /** The `filter_map` over the rule lines: every well-formed line gives
      its rule, in order, and nothing else is kept. */
  function ParseRules(lines: seq<string>): (r: seq<Rule>)
    ensures |r| <= |lines|
    ensures forall k :: 0 <= k < |r| ==> exists i :: 0 <= i < |lines| && ParseRule(lines[i]) == Some(r[k])
    ensures forall i :: 0 <= i < |lines| && ParseRule(lines[i]).Some? ==> ParseRule(lines[i]).value in r
  {
    if |lines| == 0 then []
    else
      var n := |lines| - 1;
      var front := ParseRules(lines[..n]);
      assert forall i :: 0 <= i < n ==> lines[..n][i] == lines[i];
      match ParseRule(lines[n])
      case None => front
      case Some(rule) => front + [rule]
  }

  /** One update line: comma-separated page numbers; None when one does
      not parse (the source panics). */
  function ParseUpdate(line: string): (r: Option<Update>)
    ensures r.Some? ==> |r.value| == |Text.Split(line, ",")| >= 1
    ensures r.Some? ==> forall k :: 0 <= k < |r.value| ==> Text.ParseNat(Text.Split(line, ",")[k]) == Some(r.value[k])
  {
    ParseAll(Text.Split(line, ","))
  }

  function ParseAll(pieces: seq<string>): (r: Option<seq<nat>>)
    ensures r.Some? ==> |r.value| == |pieces|
    ensures r.Some? ==> forall k :: 0 <= k < |pieces| ==> Text.ParseNat(pieces[k]) == Some(r.value[k])
    ensures r.None? ==> exists k :: 0 <= k < |pieces| && Text.ParseNat(pieces[k]).None?
  {
    if |pieces| == 0 then Some([])
    else
      var n := |pieces| - 1;
      assert forall k :: 0 <= k < n ==> pieces[..n][k] == pieces[k];
      match (ParseAll(pieces[..n]), Text.ParseNat(pieces[n]))
      case (Some(front), Some(page)) => Some(front + [page])
      case (None, _) => None
      case (_, None) => None
  }

  function ParseUpdates(lines: seq<string>): (r: Option<seq<Update>>)
    ensures r.Some? ==> |r.value| == |lines|
    ensures r.Some? ==> forall i :: 0 <= i < |lines| ==> ParseUpdate(lines[i]) == Some(r.value[i])
  {
    if |lines| == 0 then Some([])
    else
      var n := |lines| - 1;
      match (ParseUpdates(lines[..n]), ParseUpdate(lines[n]))
      case (Some(front), Some(u)) => Some(front + [u])
      case (None, _) => None
      case (_, None) => None
  }

  /** `Puzzle::from`: rules before the first blank line, updates after it;
      None where the source panics. */
  function ParsePuzzle(input: string): (r: Option<Puzzle>)
    ensures r.Some? ==> forall k :: 0 <= k < |r.value.updates| ==> |r.value.updates[k]| >= 1
  {
    match Text.SplitOnce(input, "\n\n")
    case None => None
    case Some((ruleText, updateText)) =>
      match ParseUpdates(Text.Lines(updateText))
      case None => None
      case Some(updates) => Some(Puzzle(ParseRules(Text.Lines(ruleText)), updates))
  }

  /** The rule lines of the parsing test. */
  lemma ParseRuleExample()
    ensures ParseRule("0|1") == Some((0, 1)) && ParseRule("2|3") == Some((2, 3))
  {
    assert "0|1"[0..1] == "0" && "0|1"[1..2] == "|" && "0|1"[2..] == "1";
    assert Text.FindFrom("0|1", "|", 0) == Some(1);
    assert "2|3"[0..1] == "2" && "2|3"[1..2] == "|" && "2|3"[2..] == "3";
    assert Text.FindFrom("2|3", "|", 0) == Some(1);
    assert Text.DigitsFrom("0", 0, 0) == Some(0) && Text.DigitsFrom("1", 0, 0) == Some(1);
    assert Text.DigitsFrom("2", 0, 0) == Some(2) && Text.DigitsFrom("3", 0, 0) == Some(3);
  }

  /** Three pieces that each parse give their three pages. */
  lemma ParseThree(pieces: seq<string>, x: nat, y: nat, z: nat)
    requires |pieces| == 3
    requires Text.ParseNat(pieces[0]) == Some(x) && Text.ParseNat(pieces[1]) == Some(y) && Text.ParseNat(pieces[2]) == Some(z)
    ensures ParseAll(pieces) == Some([x, y, z])
  {
    assert pieces[..2][..1] == pieces[..1] && pieces[..1][..0] == [];
    var none: seq<nat> := [];
    assert ParseAll([]) == Some(none);
    assert none + [x] == [x] && [x] + [y] == [x, y] && [x, y] + [z] == [x, y, z];
    assert pieces[..2][1] == pieces[1] && pieces[..1][0] == pieces[0];
    assert ParseAll(pieces[..1]) == Some([x]);
    assert ParseAll(pieces[..2]) == Some([x, y]);
  }

  /** An update line of the parsing test, split at its commas. */
  lemma ParseUpdateExample()
    ensures ParseAll(["1", "2", "3"]) == Some([1, 2, 3])
    ensures ParseAll(["4", "5", "6"]) == Some([4, 5, 6])
  {
    assert Text.DigitsFrom("1", 0, 0) == Some(1) && Text.DigitsFrom("2", 0, 0) == Some(2) && Text.DigitsFrom("3", 0, 0) == Some(3);
    assert Text.DigitsFrom("4", 0, 0) == Some(4) && Text.DigitsFrom("5", 0, 0) == Some(5) && Text.DigitsFrom("6", 0, 0) == Some(6);
    ParseThree(["1", "2", "3"], 1, 2, 3);
    ParseThree(["4", "5", "6"], 4, 5, 6);
  }

  /** The input of the parsing test splits at its blank line. */
  lemma ExampleHalves()
    ensures Text.SplitOnce("0|1\n2|3\n\n1,2,3\n4,5,6", "\n\n") == Some(("0|1\n2|3", "1,2,3\n4,5,6"))
  {
    var input := "0|1\n2|3\n\n1,2,3\n4,5,6";
    assert input[0..2] == "0|" && input[1..3] == "|1" && input[2..4] == "1\n" && input[3..5] == "\n2";
    assert input[4..6] == "2|" && input[5..7] == "|3" && input[6..8] == "3\n" && input[7..9] == "\n\n";
    assert Text.FindFrom(input, "\n\n", 0) == Some(7);
    assert input[..7] == "0|1\n2|3" && input[9..] == "1,2,3\n4,5,6";
  }

  /** The rule half of the parsing test has two lines. */
  lemma ExampleRuleLines()
    ensures Text.Lines("0|1\n2|3") == ["0|1", "2|3"]
  {
    var text := "0|1\n2|3";
    assert text[0..1] == "0" && text[1..2] == "|" && text[2..3] == "1" && text[3..4] == "\n";
    assert text[4..5] == "2" && text[5..6] == "|" && text[6..7] == "3";
    assert Text.SplitFrom(text, "\n", 4, 4) == ["2|3"];
    assert text[0..3] == "0|1";
    assert Text.Split(text, "\n") == ["0|1", "2|3"];
    assert Text.StripCr("0|1") == "0|1" && Text.StripCr("2|3") == "2|3";
  }

  /** The update half of the parsing test has two lines. */
  lemma ExampleUpdateLines()
    ensures Text.Lines("1,2,3\n4,5,6") == ["1,2,3", "4,5,6"]
  {
    var text := "1,2,3\n4,5,6";
    assert text[0..1] == "1" && text[1..2] == "," && text[2..3] == "2" && text[3..4] == "," && text[4..5] == "3";
    assert text[5..6] == "\n";
    assert text[6..7] == "4" && text[7..8] == "," && text[8..9] == "5" && text[9..10] == "," && text[10..11] == "6";
    assert Text.SplitFrom(text, "\n", 6, 6) == ["4,5,6"];
    assert text[0..5] == "1,2,3";
    assert Text.Split(text, "\n") == ["1,2,3", "4,5,6"];
    assert Text.StripCr("1,2,3") == "1,2,3" && Text.StripCr("4,5,6") == "4,5,6";
  }

  /** A line `a,b,c` of three one-digit pages. */
  lemma ExampleUpdateLine(line: string, a: char, b: char, c: char)
    requires line == [a, ',', b, ',', c] && a != ',' && b != ',' && c != ','
    ensures Text.Split(line, ",") == [[a], [b], [c]]
  {
    assert line[0..1] == [a] && line[1..2] == "," && line[2..3] == [b] && line[3..4] == "," && line[4..5] == [c];
    assert line[4..] == [c] && line[0..1] != "," && line[2..3] != "," && line[4..5] != ",";
    assert Text.SplitFrom(line, ",", 4, 5) == [[c]];
    assert Text.SplitFrom(line, ",", 4, 4) == [[c]];
    assert Text.SplitFrom(line, ",", 2, 3) == [[b]] + Text.SplitFrom(line, ",", 4, 4);
    assert Text.SplitFrom(line, ",", 2, 2) == [[b], [c]];
    assert Text.SplitFrom(line, ",", 0, 1) == [[a]] + Text.SplitFrom(line, ",", 2, 2);
    assert Text.SplitFrom(line, ",", 0, 0) == [[a], [b], [c]];
  }

  lemma Pair<T>(a: T, b: T)
    ensures [a] + [b] == [a, b]
  {
  }

  /** A rule line that parses gives its rule. */
  lemma ParseOneRule(lines: seq<string>, a: Rule)
    requires |lines| == 1 && ParseRule(lines[0]) == Some(a)
    ensures ParseRules(lines) == [a]
  {
    assert lines[..0] == [];
    var none: seq<Rule> := [];
    assert ParseRules([]) == none;
    assert none + [a] == [a];
  }

  /** Two rule lines that each parse give their two rules. */
  lemma ParseTwoRules(lines: seq<string>, a: Rule, b: Rule)
    requires |lines| == 2 && ParseRule(lines[0]) == Some(a) && ParseRule(lines[1]) == Some(b)
    ensures ParseRules(lines) == [a, b]
  {
    ParseOneRule(lines[..1], a);
    Pair(a, b);
  }

  lemma ExampleRules()
    ensures ParseRules(["0|1", "2|3"]) == [(0, 1), (2, 3)]
  {
    ParseRuleExample();
    ParseTwoRules(["0|1", "2|3"], (0, 1), (2, 3));
  }

  /** Two update lines that each parse give their two updates. */
  lemma ParseTwoUpdates(lines: seq<string>, u: Update, v: Update)
    requires |lines| == 2 && ParseUpdate(lines[0]) == Some(u) && ParseUpdate(lines[1]) == Some(v)
    ensures ParseUpdates(lines) == Some([u, v])
  {
    var first := lines[..1];
    assert first[..0] == [] && first[0] == lines[0];
    var none: seq<Update> := [];
    assert ParseUpdates([]) == Some(none);
    assert none + [u] == [u] && [u] + [v] == [u, v];
    assert ParseUpdates(first) == Some([u]);
  }

  lemma ExampleUpdates()
    ensures ParseUpdates(["1,2,3", "4,5,6"]) == Some([[1, 2, 3], [4, 5, 6]])
  {
    ParseUpdateExample();
    ExampleUpdateLine("1,2,3", '1', '2', '3');
    ExampleUpdateLine("4,5,6", '4', '5', '6');
    ParseTwoUpdates(["1,2,3", "4,5,6"], [1, 2, 3], [4, 5, 6]);
  }

  /** The parsing test: `0|1\n2|3\n\n1,2,3\n4,5,6` gives the rules
      `(0, 1)` and `(2, 3)` and the updates `[1, 2, 3]` and `[4, 5, 6]`. */
  lemma ExampleParse()
    ensures ParsePuzzle("0|1\n2|3\n\n1,2,3\n4,5,6") == Some(Puzzle([(0, 1), (2, 3)], [[1, 2, 3], [4, 5, 6]]))
  {
    ExampleHalves();
    ExampleRuleLines();
    ExampleUpdateLines();
    ExampleRules();
    ExampleUpdates();
  }

  /** The rules whose two pages both occur in the update (`relevant_rules`). */
  function Relevant(rules: seq<Rule>, update: Update): (r: seq<Rule>)
    ensures forall k :: 0 <= k < |r| ==> r[k].0 in update && r[k].1 in update && r[k] in rules
    ensures forall k :: 0 <= k < |rules| && rules[k].0 in update && rules[k].1 in update ==> rules[k] in r
    ensures Seqs.IsSubsequence(r, rules)
  {
    if |rules| == 0 then []
    else
      var n := |rules| - 1;
      var front := Relevant(rules[..n], update);
      assert forall k :: 0 <= k < n ==> rules[..n][k] == rules[k];
      var rule := rules[n];
      if rule.0 in update && rule.1 in update then
        assert (front + [rule])[..|front + [rule]| - 1] == front;
        front + [rule]
      else
        assert rules == rules[..n] + [rule];
        Seqs.SubsequenceExtend(front, rules[..n], rule);
        front
  }

  /** `update_set[l] < update_set[r]`: the map from page to index keeps the
      last index of a repeated page. */
  predicate Respects(update: Update, rule: Rule)
    requires rule.0 in update && rule.1 in update
  {
    Seqs.LastIndexOf(update, rule.0).value < Seqs.LastIndexOf(update, rule.1).value
  }

  /** `is_valid`: every relevant rule is respected. */
  function IsValid(rules: seq<Rule>, update: Update): bool {
    AllRespected(Relevant(rules, update), update)
  }

  function AllRespected(relevant: seq<Rule>, update: Update): bool
    requires forall k :: 0 <= k < |relevant| ==> relevant[k].0 in update && relevant[k].1 in update
  {
    if |relevant| == 0 then true
    else Respects(update, relevant[|relevant| - 1]) && AllRespected(relevant[..|relevant| - 1], update)
  }

  lemma {:induction false} AllRespectedMeans(relevant: seq<Rule>, update: Update)
    requires forall k :: 0 <= k < |relevant| ==> relevant[k].0 in update && relevant[k].1 in update
    ensures AllRespected(relevant, update) <==> forall k :: 0 <= k < |relevant| ==> Respects(update, relevant[k])
    decreases |relevant|
  {
    if |relevant| > 0 {
      var n := |relevant| - 1;
      AllRespectedMeans(relevant[..n], update);
      assert forall k :: 0 <= k < n ==> relevant[..n][k] == relevant[k];
    }
  }

  /** An update is valid exactly when every rule whose pages it holds puts
      the last occurrence of its left page before that of its right page. */
  lemma IsValidMeans(rules: seq<Rule>, update: Update)
    ensures IsValid(rules, update) <==>
      forall k :: 0 <= k < |rules| && rules[k].0 in update && rules[k].1 in update ==> Respects(update, rules[k])
  {
    var relevant := Relevant(rules, update);
    AllRespectedMeans(relevant, update);
    if IsValid(rules, update) {
      forall k | 0 <= k < |rules| && rules[k].0 in update && rules[k].1 in update
        ensures Respects(update, rules[k])
      {
        var j :| 0 <= j < |relevant| && relevant[j] == rules[k];
      }
    }
  }

  /** From the puzzle's example: 75,47,61,53,29 is in order for 47|53
      (97|75 does not apply), while 75,97,47,61,53 breaks 97|75. */
  lemma ValidityExample()
    ensures IsValid([(47, 53), (97, 75)], [75, 47, 61, 53, 29])
    ensures !IsValid([(97, 75)], [75, 97, 47, 61, 53])
  {
    var good, bad := [75, 47, 61, 53, 29], [75, 97, 47, 61, 53];
    assert 97 !in good;
    assert Seqs.LastIndexOf(good, 47) == Some(1) && Seqs.LastIndexOf(good, 53) == Some(3);
    assert Seqs.LastIndexOf(bad, 97) == Some(1) && Seqs.LastIndexOf(bad, 75) == Some(0);
    IsValidMeans([(47, 53), (97, 75)], good);
    IsValidMeans([(97, 75)], bad);
  }

  /** With no rule that applies, for instance on an empty update, every
      update is valid. */
  lemma VacuouslyValid(rules: seq<Rule>)
    ensures IsValid(rules, [])
    ensures IsValid([], [])
  {
    IsValidMeans(rules, []);
  }

  /** `checked_updates(valid)`: the updates whose validity is `valid`. */
  function Checked(rules: seq<Rule>, updates: seq<Update>, valid: bool): (r: seq<Update>)
    ensures forall k :: 0 <= k < |r| ==> IsValid(rules, r[k]) == valid
  {
    if |updates| == 0 then []
    else
      var n := |updates| - 1;
      var front := Checked(rules, updates[..n], valid);
      if IsValid(rules, updates[n]) == valid then front + [updates[n]] else front
  }

  /** The valid and the invalid updates split the updates between them. */
  lemma {:induction false} CheckedPartition(rules: seq<Rule>, updates: seq<Update>)
    ensures multiset(Checked(rules, updates, true)) + multiset(Checked(rules, updates, false)) == multiset(updates)
    decreases |updates|
  {
    if |updates| > 0 {
      var n := |updates| - 1;
      var u := updates[n];
      CheckedPartition(rules, updates[..n]);
      assert updates == updates[..n] + [u];
      CheckedSnoc(rules, updates, true);
      CheckedSnoc(rules, updates, false);
      PartitionStep(Checked(rules, updates[..n], true), Checked(rules, updates[..n], false), updates[..n], u);
    }
  }

  lemma CheckedSnoc(rules: seq<Rule>, updates: seq<Update>, valid: bool)
    requires |updates| > 0
    ensures var n := |updates| - 1; var front := Checked(rules, updates[..n], valid);
      Checked(rules, updates, valid) == if IsValid(rules, updates[n]) == valid then front + [updates[n]] else front
  {
  }

  /** Adding one more element to one side of a split of `all` splits
      `all` with it. */
  lemma PartitionStep<T>(t: seq<T>, f: seq<T>, all: seq<T>, u: T)
    requires multiset(t) + multiset(f) == multiset(all)
    ensures multiset(t + [u]) + multiset(f) == multiset(all + [u])
    ensures multiset(t) + multiset(f + [u]) == multiset(all + [u])
  {
    assert multiset(t + [u]) == multiset(t) + multiset{u};
    assert multiset(f + [u]) == multiset(f) + multiset{u};
    assert multiset(all + [u]) == multiset(all) + multiset{u};
  }

  /** Each of them keeps the original order. */
  lemma {:induction false} CheckedInOrder(rules: seq<Rule>, updates: seq<Update>, valid: bool)
    ensures Seqs.IsSubsequence(Checked(rules, updates, valid), updates)
    decreases |updates|
  {
    if |updates| > 0 {
      var n := |updates| - 1;
      CheckedInOrder(rules, updates[..n], valid);
      var front := Checked(rules, updates[..n], valid);
      if IsValid(rules, updates[n]) == valid {
        assert (front + [updates[n]])[..|front|] == front;
      } else {
        assert updates == updates[..n] + [updates[n]];
        Seqs.SubsequenceExtend(front, updates[..n], updates[n]);
      }
    }
  }

  /** The comparator of `correct_update`: a is Less than b when a relevant
      rule `a|b` is found, otherwise Equal. */
  predicate Precedes(relevant: seq<Rule>, a: nat, b: nat) {
    (a, b) in relevant
  }

  /** `sort_by` on the cloned update, here as an insertion sort.  What the
      source's sort promises for this comparator is only a rearrangement,
      so that is what is stated. */
  method SortBy(pages: array<nat>, relevant: seq<Rule>)
    modifies pages
    ensures multiset(pages[..]) == multiset(old(pages[..]))
  {
    for i := 0 to pages.Length
      invariant multiset(pages[..]) == multiset(old(pages[..]))
    {
      var j := i;
      while j > 0 && Precedes(relevant, pages[j], pages[j - 1])
        invariant 0 <= j <= i
        invariant multiset(pages[..]) == multiset(old(pages[..]))
      {
        pages[j], pages[j - 1] := pages[j - 1], pages[j];
        j := j - 1;
      }
    }
  }

  /** `correct_update`: the update reordered by the relevant rules, a
      rearrangement of its pages. */
  method CorrectUpdate(rules: seq<Rule>, update: Update) returns (corrected: Update)
    ensures multiset(corrected) == multiset(update)
    ensures |corrected| == |update|
  {
    var relevant := Relevant(rules, update);
    var pages := new nat[|update|](i requires 0 <= i < |update| => update[i]);
    assert pages[..] == update;
    SortBy(pages, relevant);
    corrected := pages[..];
    assert |multiset(corrected)| == |multiset(update)|;
  }

  /** `update[update.len() / 2]`; None on an empty update, where the
      source panics. */
  function Middle(update: Update): (r: Option<nat>)
    ensures r.Some? <==> |update| > 0
    ensures r.Some? ==> r.value in update
  {
    if |update| == 0 then None else Some(update[|update| / 2])
  }

  /** The sum of the middle pages, None when an update is empty. */
  function MiddleSum(updates: seq<Update>): (r: Option<nat>)
    ensures r.Some? <==> forall k :: 0 <= k < |updates| ==> |updates[k]| > 0
  {
    if |updates| == 0 then Some(0)
    else
      var n := |updates| - 1;
      assert forall k :: 0 <= k < n ==> updates[..n][k] == updates[k];
      match (MiddleSum(updates[..n]), Middle(updates[n]))
      case (Some(s), Some(m)) => Some(s + m)
      case (None, _) => None
      case (_, None) => None
  }

  lemma MiddleSumAppend(updates: seq<Update>, last: Update)
    requires MiddleSum(updates).Some? && |last| > 0
    ensures MiddleSum(updates + [last]) == Some(MiddleSum(updates).value + last[|last| / 2])
  {
    assert (updates + [last])[..|updates|] == updates;
  }

  /** `part1`: the middle pages of the valid updates, summed; None where
      the source panics. */
  function Part1(input: string): (r: Option<nat>)
    ensures r.Some? <==> ParsePuzzle(input).Some?
  {
    match ParsePuzzle(input)
    case None => None
    case Some(p) =>
      var valid := Checked(p.rules, p.updates, true);
      CheckedNonEmpty(p, true);
      MiddleSum(valid)
  }

  /** Every checked update of a parsed puzzle has a middle page. */
  lemma CheckedNonEmpty(p: Puzzle, valid: bool)
    requires forall k :: 0 <= k < |p.updates| ==> |p.updates[k]| >= 1
    ensures forall k :: 0 <= k < |Checked(p.rules, p.updates, valid)| ==> |Checked(p.rules, p.updates, valid)[k]| > 0
  {
    var c := Checked(p.rules, p.updates, valid);
    CheckedInOrder(p.rules, p.updates, valid);
    Seqs.SubsequenceElements(c, p.updates);
    forall k | 0 <= k < |c|
      ensures |c[k]| > 0
    {
      assert c[k] in p.updates;
    }
  }

  /** `part2`: the invalid updates, each reordered by `correct_update`,
      their middle pages summed; `corrected` are the reordered updates. */
  method Part2(input: string) returns (total: Option<nat>, ghost corrected: seq<Update>)
    ensures total.Some? <==> ParsePuzzle(input).Some?
    ensures total.Some? ==>
      var p := ParsePuzzle(input).value;
      Reorders(Checked(p.rules, p.updates, false), corrected) && total == MiddleSum(corrected)
  {
    var parsed := ParsePuzzle(input);
    if parsed.None? {
      return None, [];
    }
    var p := parsed.value;
    CheckedNonEmpty(p, false);
    var sum;
    sum, corrected := CorrectedSum(p.rules, Checked(p.rules, p.updates, false));
    total := Some(sum);
  }

  /** `corrected` rearranges each of `updates`, one for one. */
  ghost predicate Reorders(updates: seq<Update>, corrected: seq<Update>) {
    |corrected| == |updates| &&
    forall k :: 0 <= k < |updates| ==> multiset(corrected[k]) == multiset(updates[k])
  }

  method CorrectedSum(rules: seq<Rule>, invalid: seq<Update>) returns (sum: nat, ghost corrected: seq<Update>)
    requires forall k :: 0 <= k < |invalid| ==> |invalid[k]| > 0
    ensures Reorders(invalid, corrected) && MiddleSum(corrected) == Some(sum)
  {
    sum := 0;
    corrected := [];
    for k := 0 to |invalid|
      invariant Reorders(invalid[..k], corrected)
      invariant forall j :: 0 <= j < k ==> |corrected[j]| > 0
      invariant MiddleSum(corrected) == Some(sum)
    {
      var fixed := CorrectUpdate(rules, invalid[k]);
      MiddleSumAppend(corrected, fixed);
      assert invalid[..k + 1] == invalid[..k] + [invalid[k]];
      corrected := corrected + [fixed];
      sum := sum + fixed[|fixed| / 2];
    }
    assert invalid[..|invalid|] == invalid;
  }
}
