/** Day 2, "Red-Nosed Reports": each line is a report of levels; a report
    is safe when its levels only rise or only fall, always by one to three
    at a step. */
module RedNosedReports {
  import opened Wrappers
  import Text

  /** `Report::from`: the whitespace-separated words that parse as
      integers, in order; the others are skipped (`filter_map(... .ok())`). */
  function Levels(line: string): seq<int> {
    Parsed(Text.Words(line))
  }

  function Parsed(words: seq<string>): (r: seq<int>)
    ensures |r| <= |words|
  {
    if |words| == 0 then []
    else
      var n := |words| - 1;
      Parsed(words[..n]) + match Text.ParseInt(words[n]) case Some(x) => [x] case None => []
  }

  /** `windows(2).map(|w| w[1] - w[0])`. */
  function Differences(levels: seq<int>): (r: seq<int>)
    ensures |r| == if |levels| == 0 then 0 else |levels| - 1
    ensures forall i :: 0 <= i < |r| ==> r[i] == levels[i + 1] - levels[i]
  {
    if |levels| < 2 then []
    else
      var n := |levels| - 1;
      Differences(levels[..n]) + [levels[n] - levels[n - 1]]
  }

  /** Every difference lies in `lo..=hi`. */
  predicate AllWithin(d: seq<int>, lo: int, hi: int) {
    forall i :: 0 <= i < |d| ==> lo <= d[i] <= hi
  }

  /** `is_safe`: all differences in 1..=3, or all in -3..=-1. */
  predicate IsSafe(levels: seq<int>) {
    AllWithin(Differences(levels), 1, 3) || AllWithin(Differences(levels), -3, -1)
  }

  /** Levels whose every step `levels[i] - levels[i - 1]` lies in `lo..=hi`. */
  predicate Steps(levels: seq<int>, lo: int, hi: int) {
    forall i :: 0 < i < |levels| ==> lo <= levels[i] - levels[i - 1] <= hi
  }

  /** The differences are the steps between neighbouring levels. */
  lemma WithinMeans(levels: seq<int>, lo: int, hi: int)
    ensures AllWithin(Differences(levels), lo, hi) <==> Steps(levels, lo, hi)
  {
    var d := Differences(levels);
    if AllWithin(d, lo, hi) {
      forall i | 0 < i < |levels| ensures lo <= levels[i] - levels[i - 1] <= hi {
        assert d[i - 1] == levels[i] - levels[i - 1];
      }
    }
    if Steps(levels, lo, hi) {
      forall i | 0 <= i < |d| ensures lo <= d[i] <= hi {
        assert d[i] == levels[i + 1] - levels[i];
      }
    }
  }

  /** Safety read off the levels themselves: gradually rising or gradually
      falling. */
  lemma IsSafeMeans(levels: seq<int>)
    ensures IsSafe(levels) <==> Steps(levels, 1, 3) || Steps(levels, -3, -1)
  {
    WithinMeans(levels, 1, 3);
    WithinMeans(levels, -3, -1);
  }

  /** A report of fewer than two levels is safe: nothing can go wrong. */
  lemma ShortIsSafe(levels: seq<int>)
    requires |levels| < 2
    ensures IsSafe(levels)
  {
  }

  function Reversed(s: seq<int>): (r: seq<int>)
    ensures |r| == |s| && forall i :: 0 <= i < |s| ==> r[i] == s[|s| - 1 - i]
  {
    if |s| == 0 then [] else Reversed(s[1..]) + [s[0]]
  }

  /** Read backwards, every step changes sign. */
  lemma {:induction false} StepsReversed(s: seq<int>, lo: int, hi: int)
    requires Steps(s, lo, hi)
    ensures Steps(Reversed(s), -hi, -lo)
  {
    var r, n := Reversed(s), |s|;
    forall i | 0 < i < n ensures -hi <= r[i] - r[i - 1] <= -lo {
      var j := n - i;
      assert r[i - 1] == s[j];
      assert r[i] == s[j - 1];
    }
  }

  /** Reading backwards twice gives the report back. */
  lemma ReversedTwice(s: seq<int>)
    ensures Reversed(Reversed(s)) == s
  {
    var r := Reversed(s);
    assert forall i :: 0 <= i < |s| ==> Reversed(r)[i] == r[|s| - 1 - i] == s[i];
  }

  /** A report read backwards is exactly as safe. */
  lemma ReversedSafe(levels: seq<int>)
    ensures IsSafe(Reversed(levels)) == IsSafe(levels)
  {
    var r := Reversed(levels);
    IsSafeMeans(levels);
    IsSafeMeans(r);
    ReversedTwice(levels);
    if Steps(levels, 1, 3) { StepsReversed(levels, 1, 3); }
    if Steps(levels, -3, -1) { StepsReversed(levels, -3, -1); }
    if Steps(r, 1, 3) { StepsReversed(r, 1, 3); }
    if Steps(r, -3, -1) { StepsReversed(r, -3, -1); }
  }

  /** How many of the reports are safe. */
  function SafeCount(reports: seq<seq<int>>): (r: nat)
    ensures r <= |reports|
  {
    if |reports| == 0 then 0
    else (if IsSafe(reports[0]) then 1 else 0) + SafeCount(reports[1..])
  }

  /** The count over a concatenation of reports is the sum of the counts. */
  lemma {:induction false} SafeCountAppend(a: seq<seq<int>>, b: seq<seq<int>>)
    ensures SafeCount(a + b) == SafeCount(a) + SafeCount(b)
    decreases |a|
  {
    if |a| == 0 {
      assert a + b == b;
    } else {
      assert (a + b)[0] == a[0];
      assert (a + b)[1..] == a[1..] + b;
      SafeCountAppend(a[1..], b);
    }
  }

  /** All reports are safe exactly when the count is the number of reports. */
  lemma {:induction false} SafeCountAll(reports: seq<seq<int>>)
    ensures SafeCount(reports) == |reports| <==> forall k :: 0 <= k < |reports| ==> IsSafe(reports[k])
  {
    if |reports| > 0 {
      SafeCountAll(reports[1..]);
      assert forall k :: 1 <= k < |reports| ==> reports[1..][k - 1] == reports[k];
    }
  }

  /** One report per line. */
  function Reports(input: string): (r: seq<seq<int>>)
    ensures |r| == |Text.Lines(input)|
    ensures forall k :: 0 <= k < |r| ==> r[k] == Levels(Text.Lines(input)[k])
  {
    var lines := Text.Lines(input);
    seq(|lines|, k requires 0 <= k < |lines| => Levels(lines[k]))
  }

  /** `step1`: the number of lines that hold a safe report. */
  function Step1(input: string): (r: nat)
    ensures r <= |Text.Lines(input)|
  {
    SafeCount(Reports(input))
  }

  /** `1 2 3 4 5` rises by one at every step. */
  lemma ExampleRising()
    ensures IsSafe([1, 2, 3, 4, 5])
  {
    var a := [1, 2, 3, 4, 5];
    assert a[1] - a[0] == a[2] - a[1] == a[3] - a[2] == a[4] - a[3] == 1;
    IsSafeMeans(a);
  }

  /** `7 6 4 2 1` falls by one or two at every step. */
  lemma ExampleFalling()
    ensures IsSafe([7, 6, 4, 2, 1])
  {
    var a := [7, 6, 4, 2, 1];
    assert a[1] - a[0] == -1 && a[2] - a[1] == a[3] - a[2] == -2 && a[4] - a[3] == -1;
    IsSafeMeans(a);
  }

  /** `1 2 7 8 9` jumps by five. */
  lemma ExampleJump()
    ensures !IsSafe([1, 2, 7, 8, 9])
  {
    var a := [1, 2, 7, 8, 9];
    IsSafeMeans(a);
    assert a[2] - a[1] == 5;
  }

  /** `1 3 2 4 5` rises and then falls. */
  lemma ExampleTurn()
    ensures !IsSafe([1, 3, 2, 4, 5])
  {
    var b := [1, 3, 2, 4, 5];
    IsSafeMeans(b);
    assert b[1] - b[0] == 2 && b[2] - b[1] == -1;
  }

  /** `9 7 6 2 1` falls by four. */
  lemma ExampleDrop()
    ensures !IsSafe([9, 7, 6, 2, 1])
  {
    var a := [9, 7, 6, 2, 1];
    IsSafeMeans(a);
    assert a[3] - a[2] == -4;
  }

  /** `8 6 4 4 1` stands still once. */
  lemma ExampleStill()
    ensures !IsSafe([8, 6, 4, 4, 1])
  {
    var a := [8, 6, 4, 4, 1];
    IsSafeMeans(a);
    assert a[3] - a[2] == 0;
  }

  /** `1 3 6 7 9` rises by one to three. */
  lemma ExampleClimb()
    ensures IsSafe([1, 3, 6, 7, 9])
  {
    var a := [1, 3, 6, 7, 9];
    assert a[1] - a[0] == 2 && a[2] - a[1] == 3 && a[3] - a[2] == 1 && a[4] - a[3] == 2;
    IsSafeMeans(a);
  }

  /** The levels of the six example lines: two of them are safe. */
  lemma ExampleCount()
    ensures SafeCount([[7, 6, 4, 2, 1], [1, 2, 7, 8, 9], [9, 7, 6, 2, 1],
      [1, 3, 2, 4, 5], [8, 6, 4, 4, 1], [1, 3, 6, 7, 9]]) == 2
  {
    var rs: seq<seq<int>> := [[7, 6, 4, 2, 1], [1, 2, 7, 8, 9], [9, 7, 6, 2, 1],
      [1, 3, 2, 4, 5], [8, 6, 4, 4, 1], [1, 3, 6, 7, 9]];
    ExampleFalling();
    ExampleJump();
    ExampleDrop();
    ExampleTurn();
    ExampleStill();
    ExampleClimb();
    assert |rs[1..][1..][1..][1..][1..][1..]| == 0;
  }

  /** A word that is not a number is skipped, the rest kept in order. */
  lemma ParseExample()
    ensures Parsed(["7", "x", "-4"]) == [7, -4]
  {
    var w := ["7", "x", "-4"];
    assert w[..2] == ["7", "x"] && w[..2][..1] == ["7"] && w[..2][..1][..0] == [];
    assert Text.ParseInt("7") == Some(7);
    assert Text.ParseInt("x") == None;
    assert Text.ParseInt("-4") == Some(-4);
  }
}
