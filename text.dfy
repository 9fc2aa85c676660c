/** Text handling shared by the parsers: the pieces of Rust's `str` API the
    solvers use (`split`, `split_once`, `lines`, `split_whitespace`) and the
    integer parsing of `str::parse`.  Every function walks the string by
    index, so that it can be evaluated on concrete inputs. */
module Text {
  import opened Wrappers

  /** `sep` occurs in `s` starting at index `i`. */
  predicate OccursAt(s: string, sep: string, i: nat) {
    i + |sep| <= |s| && s[i..i + |sep|] == sep
  }

  /** The inverse of splitting: the pieces glued back together with `sep`. */
  function Join(pieces: seq<string>, sep: string): string {
    if |pieces| == 0 then ""
    else if |pieces| == 1 then pieces[0]
    else pieces[0] + sep + Join(pieces[1..], sep)
  }

  /** `str::split(sep)`: the pieces between the non-overlapping occurrences
      of `sep`, found left to right.  There is always at least one piece. */
  function Split(s: string, sep: string): (r: seq<string>)
    requires |sep| > 0
    ensures |r| >= 1
  {
    SplitFrom(s, sep, 0, 0)
  }

  /** The pieces of `s[start..]`, where no occurrence of `sep` starts in
      `s[start..i]`. */
  function SplitFrom(s: string, sep: string, start: nat, i: nat): (r: seq<string>)
    requires |sep| > 0 && start <= i <= |s|
    ensures |r| >= 1
    decreases |s| - i
  {
    if i + |sep| > |s| then [s[start..]]
    else if s[i..i + |sep|] == sep then [s[start..i]] + SplitFrom(s, sep, i + |sep|, i + |sep|)
    else SplitFrom(s, sep, start, i + 1)
  }

  lemma {:induction false} SplitFromJoin(s: string, sep: string, start: nat, i: nat)
    requires |sep| > 0 && start <= i <= |s|
    ensures Join(SplitFrom(s, sep, start, i), sep) == s[start..]
    decreases |s| - i
  {
    if i + |sep| > |s| {
    } else if s[i..i + |sep|] == sep {
      var rest := SplitFrom(s, sep, i + |sep|, i + |sep|);
      var pieces := [s[start..i]] + rest;
      SplitFromJoin(s, sep, i + |sep|, i + |sep|);
      assert pieces[0] == s[start..i] && pieces[1..] == rest;
      assert Join(pieces, sep) == s[start..i] + sep + Join(rest, sep);
      assert s[start..] == s[start..i] + s[i..i + |sep|] + s[i + |sep|..];
    } else {
      SplitFromJoin(s, sep, start, i + 1);
    }
  }

  /** Splitting loses nothing: joining the pieces gives the input back. */
  lemma SplitJoin(s: string, sep: string)
    requires |sep| > 0
    ensures Join(Split(s, sep), sep) == s
  {
    SplitFromJoin(s, sep, 0, 0);
    assert s[0..] == s;
  }

  /** Splitting at a character walks on until it meets one: there the
      piece ends, and at the end of the text the last piece does. */
  lemma {:induction false} SplitFromWalk(s: string, c: char, start: nat, i: nat, n: nat)
    requires start <= i <= n <= |s| && forall j :: i <= j < n ==> s[j] != c
    ensures n < |s| && s[n] == c ==> SplitFrom(s, [c], start, i) == [s[start..n]] + SplitFrom(s, [c], n + 1, n + 1)
    ensures n == |s| ==> SplitFrom(s, [c], start, i) == [s[start..]]
    decreases n - i
  {
    if i < n {
      assert s[i..i + 1][0] == s[i];
      SplitFromWalk(s, c, start, i + 1, n);
    } else if n < |s| && s[n] == c {
      assert s[n..n + 1] == [c];
    }
  }

  /** `str::lines` undoes joining lines with line feeds, when no line holds
      a line feed or ends in a carriage return and the last is not empty. */
  lemma {:induction false} LinesOfJoin(ls: seq<string>)
    requires |ls| >= 1 && ls[|ls| - 1] != ""
    requires forall k :: 0 <= k < |ls| ==> '\n' !in ls[k] && (|ls[k]| == 0 || ls[k][|ls[k]| - 1] != '\r')
    ensures Lines(Join(ls, "\n")) == ls
  {
    SplitJoinLines(ls);
    forall k | 0 <= k < |ls|
      ensures StripCr(ls[k]) == ls[k]
    {
    }
  }

  /** Splitting lines joined with line feeds gives the lines back. */
  lemma SplitJoinLines(ls: seq<string>)
    requires |ls| >= 1 && forall k :: 0 <= k < |ls| ==> '\n' !in ls[k]
    ensures Split(Join(ls, "\n"), "\n") == ls
  {
    var s := Join(ls, "\n");
    SplitJoinLinesFrom(ls, s, 0);
    assert s[0..] == s;
  }

  /** Splitting from `off`, where the text from `off` on is the lines
      joined with line feeds, gives the lines. */
  lemma {:induction false} SplitJoinLinesFrom(ls: seq<string>, s: string, off: nat)
    requires |ls| >= 1 && forall k :: 0 <= k < |ls| ==> '\n' !in ls[k]
    requires off <= |s| && s[off..] == Join(ls, "\n")
    ensures SplitFrom(s, "\n", off, off) == ls
    decreases |ls|
  {
    var u := s[off..];
    var a := ls[0];
    if |ls| == 1 {
      forall j | off <= j < |s|
        ensures s[j] != '\n'
      {
        assert s[j] == u[j - off] == a[j - off];
      }
      SplitFromWalk(s, '\n', off, off, |s|);
      assert s[off..] == a;
    } else {
      var b := Join(ls[1..], "\n");
      var n := off + |a|;
      assert u == a + "\n" + b;
      forall j | off <= j < n
        ensures s[j] != '\n'
      {
        assert s[j] == u[j - off] == a[j - off];
      }
      assert s[n] == u[|a|] == '\n';
      SplitFromWalk(s, '\n', off, off, n);
      assert s[off..n] == u[..|a|] == a;
      assert s[n + 1..] == u[|a| + 1..] == b;
      SplitJoinLinesFrom(ls[1..], s, n + 1);
      assert [a] + ls[1..] == ls;
    }
  }

  /** The first index at or after `i` where `sep` occurs. */
  function FindFrom(s: string, sep: string, i: nat): (r: Option<nat>)
    requires |sep| > 0
    ensures r.Some? ==> i <= r.value && OccursAt(s, sep, r.value)
    ensures r.Some? ==> forall j :: i <= j < r.value ==> !OccursAt(s, sep, j)
    ensures r.None? ==> forall j :: i <= j ==> !OccursAt(s, sep, j)
    decreases |s| - i
  {
    if i + |sep| > |s| then None
    else if s[i..i + |sep|] == sep then Some(i)
    else FindFrom(s, sep, i + 1)
  }

  /** `str::split_once(sep)`: the text before and after the first
      occurrence of `sep`, or None when `sep` does not occur. */
  function SplitOnce(s: string, sep: string): (r: Option<(string, string)>)
    requires |sep| > 0
    ensures r.Some? ==> s == r.value.0 + sep + r.value.1
    ensures r.Some? ==> forall j :: 0 <= j < |r.value.0| ==> !OccursAt(s, sep, j)
    ensures r.None? <==> forall j :: 0 <= j ==> !OccursAt(s, sep, j)
  {
    match FindFrom(s, sep, 0)
    case None => None
    case Some(k) =>
      assert s == s[..k] + s[k..k + |sep|] + s[k + |sep|..];
      Some((s[..k], s[k + |sep|..]))
  }

  /** Splitting at a one-character separator that does not occur in the
      text before it gives that text and the rest. */
  lemma SplitOnceAt(a: string, c: char, b: string)
    requires c !in a
    ensures SplitOnce(a + [c] + b, [c]) == Some((a, b))
  {
    var s := a + [c] + b;
    assert s[|a|..|a| + 1] == [c];
    assert OccursAt(s, [c], |a|);
    var r := SplitOnce(s, [c]);
    var front := r.value.0;
    forall j | 0 <= j < |a|
      ensures !OccursAt(s, [c], j)
    {
      assert s[j] == a[j];
    }
    assert s[|front|..|front| + 1] == [c];
    assert |front| == |a|;
    assert front == s[..|a|] == a;
    assert r.value.1 == s[|a| + 1..] == b;
  }

  /** A line without the carriage return that `str::lines` strips. */
  function StripCr(line: string): string {
    if |line| > 0 && line[|line| - 1] == '\r' then line[..|line| - 1] else line
  }

  /** `str::lines`: the text split at line feeds, without a trailing empty
      line and without the carriage return of a CRLF line end. */
  function Lines(s: string): (r: seq<string>)
    ensures s == "" ==> r == []
  {
    var pieces := Split(s, "\n");
    var kept := if pieces[|pieces| - 1] == "" then pieces[..|pieces| - 1] else pieces;
    seq(|kept|, k requires 0 <= k < |kept| => StripCr(kept[k]))
  }

  predicate IsWhitespace(c: char) {
    c == ' ' || c == '\t' || c == '\n' || c == '\r'
  }

  /** `str::trim_start`: the text from its first non-whitespace character. */
  function TrimStart(s: string): (r: string)
    ensures |r| <= |s| && r == s[|s| - |r|..]
    ensures forall j :: 0 <= j < |s| - |r| ==> IsWhitespace(s[j])
    ensures |r| == 0 || !IsWhitespace(r[0])
  {
    if |s| > 0 && IsWhitespace(s[0]) then TrimStart(s[1..]) else s
  }

  /** `str::trim_end`: the text up to its last non-whitespace character. */
  function TrimEnd(s: string): (r: string)
    ensures |r| <= |s| && r == s[..|r|]
    ensures forall j :: |r| <= j < |s| ==> IsWhitespace(s[j])
    ensures |r| == 0 || !IsWhitespace(r[|r| - 1])
  {
    if |s| > 0 && IsWhitespace(s[|s| - 1]) then TrimEnd(s[..|s| - 1]) else s
  }

  /** `str::trim`. */
  function Trim(s: string): string {
    TrimEnd(TrimStart(s))
  }

  /** `str::split_whitespace` from index `i`, where the current word started
      at `start` (`start == i` when no word is open). */
  function WordsFrom(s: string, start: nat, i: nat): (r: seq<string>)
    requires start <= i <= |s|
    requires forall j :: start <= j < i ==> !IsWhitespace(s[j])
    ensures forall k :: 0 <= k < |r| ==> |r[k]| > 0
    ensures forall k, c :: 0 <= k < |r| && 0 <= c < |r[k]| ==> !IsWhitespace(r[k][c])
    decreases |s| - i
  {
    if i == |s| then (if start < i then [s[start..i]] else [])
    else if IsWhitespace(s[i]) then
      (if start < i then [s[start..i]] else []) + WordsFrom(s, i + 1, i + 1)
    else WordsFrom(s, start, i + 1)
  }

  /** `str::split_whitespace`: the maximal runs of non-whitespace
      characters, which are never empty. */
  function Words(s: string): (r: seq<string>)
    ensures forall k :: 0 <= k < |r| ==> |r[k]| > 0
  {
    WordsFrom(s, 0, 0)
  }

  function DigitOf(c: char): (r: Option<nat>)
    ensures r.Some? <==> '0' <= c <= '9'
    ensures r.Some? ==> r.value < 10
  {
    if '0' <= c <= '9' then Some((c as int - '0' as int) as nat) else None
  }

  /** The value of the decimal digits `s[i..]` after `acc`, read left to
      right, or None when a non-digit occurs. */
  function DigitsFrom(s: string, i: nat, acc: nat): Option<nat>
    requires i <= |s|
    decreases |s| - i
  {
    if i == |s| then Some(acc)
    else match DigitOf(s[i])
      case None => None
      case Some(d) => DigitsFrom(s, i + 1, acc * 10 + d)
  }

  /** `str::parse` for an unsigned integer: an optional `+`, then at least
      one decimal digit and nothing else. */
  function ParseNat(s: string): Option<nat> {
    if |s| == 0 then None
    else if s[0] == '+' then (if |s| == 1 then None else DigitsFrom(s, 1, 0))
    else DigitsFrom(s, 0, 0)
  }

  /** `str::parse` for a signed integer: an optional sign, then at least one
      decimal digit. */
  function ParseInt(s: string): Option<int> {
    if |s| > 1 && s[0] == '-' then
      match DigitsFrom(s, 1, 0)
      case None => None
      case Some(n) => Some(0 - n as int)
    else match ParseNat(s)
      case None => None
      case Some(n) => Some(n)
  }

  /** `map(parse).collect::<Option<Vec<_>>>()`, or the same with an
      `unwrap` per item: every piece parsed, or None as soon as one is
      refused. */
  function ParseEach<T>(pieces: seq<string>, parse: string -> Option<T>): (r: Option<seq<T>>)
    ensures r.Some? <==> forall k :: 0 <= k < |pieces| ==> parse(pieces[k]).Some?
    ensures r.Some? ==> (|r.value| == |pieces| &&
      forall k :: 0 <= k < |pieces| ==> parse(pieces[k]) == Some(r.value[k]))
  {
    if |pieces| == 0 then Some([])
    else
      var n := |pieces| - 1;
      assert forall k :: 0 <= k < n ==> pieces[..n][k] == pieces[k];
      match (ParseEach(pieces[..n], parse), parse(pieces[n]))
      case (Some(front), Some(x)) => Some(front + [x])
      case (None, _) => None
      case (_, None) => None
  }

  /** The decimal digits of `n`, most significant first, as `to_string`
      prints them. */
  function ShowNat(n: nat): (r: string)
    ensures |r| >= 1
    ensures forall k :: 0 <= k < |r| ==> '0' <= r[k] <= '9'
  {
    if n < 10 then [('0' as int + n) as char]
    else ShowNat(n / 10) + [('0' as int + n % 10) as char]
  }

  lemma {:induction false} DigitsFromAppend(s: string, i: nat, acc: nat, d: nat)
    requires i <= |s| && d < 10
    requires DigitsFrom(s, i, acc).Some?
    ensures DigitsFrom(s + [('0' as int + d) as char], i, acc)
         == Some(DigitsFrom(s, i, acc).value * 10 + d)
    decreases |s| - i
  {
    var t := s + [('0' as int + d) as char];
    if i == |s| {
      assert t[i] == ('0' as int + d) as char;
      assert DigitsFrom(t, i + 1, acc * 10 + d) == Some(acc * 10 + d);
    } else {
      assert t[i] == s[i];
      DigitsFromAppend(s, i + 1, acc * 10 + DigitOf(s[i]).value, d);
    }
  }

  /** Printing a number and parsing it back gives the number. */
  lemma {:induction false} ParseShowNat(n: nat)
    ensures ParseNat(ShowNat(n)) == Some(n)
    ensures DigitsFrom(ShowNat(n), 0, 0) == Some(n)
  {
    if n < 10 {
      var s := ShowNat(n);
      assert DigitsFrom(s, 1, n) == Some(n);
    } else {
      ParseShowNat(n / 10);
      DigitsFromAppend(ShowNat(n / 10), 0, 0, n % 10);
    }
  }

  /** Signed numbers as `to_string` prints them: a minus sign before the
      digits of a negative one. */
  function ShowInt(n: int): (r: string)
    ensures |r| >= 1
    ensures forall k :: 0 <= k < |r| ==> '0' <= r[k] <= '9' || r[k] == '-'
  {
    if n < 0 then "-" + ShowNat(-n) else ShowNat(n)
  }

  /** Reading digits after a leading character is reading them alone. */
  lemma {:induction false} DigitsFromShift(c: char, s: string, i: nat, acc: nat)
    requires i <= |s|
    ensures DigitsFrom([c] + s, i + 1, acc) == DigitsFrom(s, i, acc)
    decreases |s| - i
  {
    var t := [c] + s;
    if i < |s| {
      assert t[i + 1] == s[i];
      if DigitOf(s[i]).Some? {
        DigitsFromShift(c, s, i + 1, acc * 10 + DigitOf(s[i]).value);
      }
    }
  }

  /** Printing a signed number and parsing it back gives the number. */
  lemma ParseShowInt(n: int)
    ensures ParseInt(ShowInt(n)) == Some(n)
  {
    if n < 0 {
      ParseShowNat(-n);
      DigitsFromShift('-', ShowNat(-n), 0, 0);
      assert ("-" + ShowNat(-n))[0] == '-';
    } else {
      ParseShowNat(n);
      assert ShowNat(n)[0] != '-';
    }
  }
}
