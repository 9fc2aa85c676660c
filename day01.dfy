/** Day 1, "Historian Hysteria": two columns of location ids.  The total
    distance pairs the smallest of one list with the smallest of the
    other, and so on up, and adds the differences; the similarity score
    adds each id of the left list times the number of times it occurs in
    the right one. */
module HistorianLists {
  import opened Wrappers
  import Text
  import Arith

  /** `Lists`: the two columns, as `unzip` builds them. */
  datatype Lists = Lists(list1: seq<int>, list2: seq<int>)

  /** One line, `a   b` with three spaces; None where an `unwrap` of the
      source panics. */
  function ParseLine(line: string): (r: Option<(int, int)>)
    ensures r.Some? ==> Text.SplitOnce(line, "   ").Some?
  {
    match Text.SplitOnce(line, "   ")
    case None => None
    case Some((a, b)) =>
      match (Text.ParseInt(a), Text.ParseInt(b))
      case (Some(x), Some(y)) => Some((x, y))
      case _ => None
  }

  /** `unzip`: the first and the second of each pair, in order. */
  function Unzip(pairs: seq<(int, int)>): (r: Lists)
    ensures |r.list1| == |pairs| && |r.list2| == |pairs|
    ensures forall i :: 0 <= i < |pairs| ==> pairs[i] == (r.list1[i], r.list2[i])
  {
    Lists(seq(|pairs|, i requires 0 <= i < |pairs| => pairs[i].0),
          seq(|pairs|, i requires 0 <= i < |pairs| => pairs[i].1))
  }

  /** `Lists::from`: every line parsed and the pairs unzipped; None when a
      line does not parse. */
  function ParseLists(input: string): (r: Option<Lists>)
    ensures var lines := Text.Lines(input);
      r.Some? <==> forall i :: 0 <= i < |lines| ==> ParseLine(lines[i]).Some?
    ensures var lines := Text.Lines(input);
      r.Some? ==> (|r.value.list1| == |lines| && |r.value.list2| == |lines| &&
        forall i :: 0 <= i < |lines| ==> ParseLine(lines[i]) == Some((r.value.list1[i], r.value.list2[i])))
  {
    match Text.ParseEach(Text.Lines(input), ParseLine)
    case None => None
    case Some(pairs) => Some(Unzip(pairs))
  }

  predicate Sorted(s: seq<int>) {
    forall m, n :: 0 <= m < n < |s| ==> s[m] <= s[n]
  }

  /** `Vec::sort` on a clone, here as an insertion sort in place: the
      contents come out in ascending order and are a rearrangement of
      what went in. */
  method Sort(a: array<int>)
    modifies a
    ensures Sorted(a[..]) && multiset(a[..]) == multiset(old(a[..]))
  {
    for i := 0 to a.Length
      invariant Sorted(a[..i]) && multiset(a[..]) == multiset(old(a[..]))
    {
      Insert(a, i);
    }
    assert a[..a.Length] == a[..];
  }

  /** Move the element at index i left into the sorted prefix before it. */
  method Insert(a: array<int>, i: nat)
    requires i < a.Length && Sorted(a[..i])
    modifies a
    ensures Sorted(a[..i + 1]) && multiset(a[..]) == multiset(old(a[..]))
  {
    var j := i;
    assert Moving(a[..], i, j);
    while j > 0 && a[j - 1] > a[j]
      invariant 0 <= j <= i < a.Length
      invariant Moving(a[..], i, j)
      invariant multiset(a[..]) == multiset(old(a[..]))
    {
      MovingSwap(a[..], i, j);
      a[j - 1], a[j] := a[j], a[j - 1];
      j := j - 1;
    }
    MovingDone(a[..], i, j);
  }

  /** The state of an insertion into s[..hi + 1]: the element at j is on
      its way left, and everything else is in order and the elements
      after j are no smaller than it. */
  ghost predicate Moving(s: seq<int>, hi: nat, j: nat)
    requires j <= hi < |s|
  {
    (forall m, n :: 0 <= m < n <= hi && m != j && n != j ==> s[m] <= s[n]) &&
    (forall n :: j < n <= hi ==> s[j] <= s[n])
  }

  lemma MovingSwap(s: seq<int>, hi: nat, j: nat)
    requires 0 < j <= hi < |s| && Moving(s, hi, j) && s[j - 1] > s[j]
    ensures Moving(s[j - 1 := s[j]][j := s[j - 1]], hi, j - 1)
  {
  }

  lemma MovingDone(s: seq<int>, hi: nat, j: nat)
    requires j <= hi < |s| && Moving(s, hi, j) && (j == 0 || s[j - 1] <= s[j])
    ensures Sorted(s[..hi + 1])
  {
  }

  /** The sorted rearrangement of a list, by insertion; what the source's
      sort produces (see SortedUnique). */
  function SortedOf(s: seq<int>): seq<int> {
    if |s| == 0 then [] else InsertSorted(SortedOf(s[..|s| - 1]), s[|s| - 1])
  }

  function InsertSorted(s: seq<int>, x: int): seq<int> {
    if |s| == 0 || x <= s[0] then [x] + s else [s[0]] + InsertSorted(s[1..], x)
  }

  lemma {:induction false} InsertSortedPerm(s: seq<int>, x: int)
    ensures multiset(InsertSorted(s, x)) == multiset(s) + multiset{x}
    decreases |s|
  {
    if |s| > 0 && x > s[0] {
      InsertSortedPerm(s[1..], x);
      assert s == [s[0]] + s[1..];
    }
  }

  lemma {:induction false} InsertSortedSorted(s: seq<int>, x: int)
    requires Sorted(s)
    ensures Sorted(InsertSorted(s, x))
    decreases |s|
  {
    if |s| == 0 || x <= s[0] {
      SortedCons(x, s);
    } else {
      var t := InsertSorted(s[1..], x);
      InsertSortedSorted(s[1..], x);
      InsertSortedPerm(s[1..], x);
      forall k | 0 <= k < |t| ensures s[0] <= t[k] {
        assert t[k] in multiset(s[1..]) + multiset{x};
      }
      SortedCons(s[0], t);
    }
  }

  /** A list stays sorted with an element in front that is at most its
      first. */
  lemma SortedCons(h: int, t: seq<int>)
    requires Sorted(t) && forall k :: 0 <= k < |t| ==> h <= t[k]
    ensures Sorted([h] + t)
  {
  }

  lemma {:induction false} SortedOfSorted(s: seq<int>)
    ensures Sorted(SortedOf(s))
    decreases |s|
  {
    if |s| > 0 {
      var n := |s| - 1;
      SortedOfSorted(s[..n]);
      InsertSortedSorted(SortedOf(s[..n]), s[n]);
    }
  }

  lemma {:induction false} SortedOfPerm(s: seq<int>)
    ensures multiset(SortedOf(s)) == multiset(s)
    decreases |s|
  {
    if |s| > 0 {
      var n := |s| - 1;
      SortedOfPerm(s[..n]);
      InsertSortedPerm(SortedOf(s[..n]), s[n]);
      assert s == s[..n] + [s[n]];
    }
  }

  /** SortedOf gives a sorted rearrangement. */
  lemma SortedOfKeeps(s: seq<int>)
    ensures Sorted(SortedOf(s)) && multiset(SortedOf(s)) == multiset(s)
  {
    SortedOfSorted(s);
    SortedOfPerm(s);
  }

  /** The first element of a sorted list is its least. */
  lemma SortedLeast(s: seq<int>, x: int)
    requires Sorted(s) && x in multiset(s)
    ensures |s| > 0 && s[0] <= x
  {
    var k :| 0 <= k < |s| && s[k] == x;
  }

  /** A list has one sorted rearrangement only. */
  lemma {:induction false} SortedUnique(a: seq<int>, b: seq<int>)
    requires Sorted(a) && Sorted(b) && multiset(a) == multiset(b)
    ensures a == b
    decreases |a|
  {
    if |a| > 0 {
      assert |b| == |a| by { assert |multiset(b)| == |multiset(a)|; }
      assert a[0] in multiset(b) && b[0] in multiset(a);
      SortedLeast(b, a[0]);
      SortedLeast(a, b[0]);
      assert a[0] == b[0];
      assert a == [a[0]] + a[1..] && b == [b[0]] + b[1..];
      assert multiset(a) == multiset{a[0]} + multiset(a[1..]);
      assert multiset(b) == multiset{a[0]} + multiset(b[1..]);
      assert multiset(a[1..]) == multiset(a) - multiset{a[0]};
      assert multiset(b[1..]) == multiset(b) - multiset{a[0]};
      assert Sorted(a[1..]) && Sorted(b[1..]);
      SortedUnique(a[1..], b[1..]);
    }
  }

  /** Sorting a rearrangement gives the same list. */
  lemma SortedOfRearranged(a: seq<int>, b: seq<int>)
    requires multiset(a) == multiset(b)
    ensures SortedOf(a) == SortedOf(b)
  {
    SortedOfKeeps(a);
    SortedOfKeeps(b);
    SortedUnique(SortedOf(a), SortedOf(b));
  }

  /** `sorted`: both lists sorted. */
  method SortedLists(lists: Lists) returns (s1: seq<int>, s2: seq<int>)
    ensures s1 == SortedOf(lists.list1) && s2 == SortedOf(lists.list2)
  {
    s1 := SortedCopy(lists.list1);
    s2 := SortedCopy(lists.list2);
  }

  /** Clone a list and sort the clone. */
  method SortedCopy(s: seq<int>) returns (r: seq<int>)
    ensures r == SortedOf(s)
  {
    var a := new int[|s|](i requires 0 <= i < |s| => s[i]);
    assert a[..] == s;
    Sort(a);
    r := a[..];
    SortedOfKeeps(s);
    SortedUnique(r, SortedOf(s));
  }

  /** The fold of `distance`: the sum of |s2[i] - s1[i]| over the indices
      of s1 (s2 is indexed at each of them). */
  function Gaps(s1: seq<int>, s2: seq<int>): nat
    requires |s1| <= |s2|
  {
    if |s1| == 0 then 0
    else Gaps(s1[..|s1| - 1], s2) + Arith.Abs(s2[|s1| - 1] - s1[|s1| - 1])
  }

  /** Swapping the lists leaves the gaps as they are. */
  lemma {:induction false} GapsSymmetric(s1: seq<int>, s2: seq<int>)
    requires |s1| == |s2|
    ensures Gaps(s1, s2) == Gaps(s2, s1)
    decreases |s1|
  {
    if |s1| > 0 {
      var n := |s1| - 1;
      GapsPrefix(s1[..n], s2);
      GapsPrefix(s2[..n], s1);
      GapsSymmetric(s1[..n], s2[..n]);
    }
  }

  /** The gaps only read s2 at indices below |s1|. */
  lemma {:induction false} GapsPrefix(s1: seq<int>, s2: seq<int>)
    requires |s1| <= |s2|
    ensures Gaps(s1, s2) == Gaps(s1, s2[..|s1|])
    decreases |s1|
  {
    if |s1| > 0 {
      var n := |s1| - 1;
      GapsPrefix(s1[..n], s2);
      GapsPrefix(s1[..n], s2[..|s1|]);
      assert s2[..|s1|][..n] == s2[..n];
    }
  }

  /** The total distance, between the sorted lists. */
  function Distance(lists: Lists): nat
    requires |lists.list1| == |lists.list2|
  {
    SortedOfKeeps(lists.list1);
    SortedOfKeeps(lists.list2);
    assert |multiset(SortedOf(lists.list1))| == |lists.list1|;
    assert |multiset(SortedOf(lists.list2))| == |lists.list2|;
    Gaps(SortedOf(lists.list1), SortedOf(lists.list2))
  }

  /** `distance`: sort both lists, then fold the gaps. */
  method ComputeDistance(lists: Lists) returns (d: nat)
    requires |lists.list1| == |lists.list2|
    ensures d == Distance(lists)
  {
    var s1, s2 := SortedLists(lists);
    SortedOfKeeps(lists.list1);
    SortedOfKeeps(lists.list2);
    assert |multiset(s1)| == |lists.list1| && |multiset(s2)| == |lists.list2|;
    d := Gaps(s1, s2);
  }

  /** The distance does not change when either list is reordered, or when
      the two are swapped. */
  lemma DistanceInvariant(lists: Lists, other: Lists)
    requires |lists.list1| == |lists.list2|
    requires multiset(other.list1) == multiset(lists.list1)
    requires multiset(other.list2) == multiset(lists.list2)
    ensures |other.list1| == |other.list2|
    ensures Distance(other) == Distance(lists)
    ensures Distance(Lists(lists.list2, lists.list1)) == Distance(lists)
  {
    assert |multiset(other.list1)| == |multiset(lists.list1)|;
    assert |multiset(other.list2)| == |multiset(lists.list2)|;
    SortedOfRearranged(other.list1, lists.list1);
    SortedOfRearranged(other.list2, lists.list2);
    SortedOfKeeps(lists.list1);
    SortedOfKeeps(lists.list2);
    assert |multiset(SortedOf(lists.list1))| == |lists.list1|;
    assert |multiset(SortedOf(lists.list2))| == |lists.list2|;
    GapsSymmetric(SortedOf(lists.list1), SortedOf(lists.list2));
  }

  /** How often x occurs in s: `filter(|y| x == *y).count()`. */
  function Count(s: seq<int>, x: int): nat {
    if |s| == 0 then 0 else Count(s[..|s| - 1], x) + if s[|s| - 1] == x then 1 else 0
  }

  lemma {:induction false} CountIsMultiplicity(s: seq<int>, x: int)
    ensures Count(s, x) == multiset(s)[x]
    decreases |s|
  {
    if |s| > 0 {
      var n := |s| - 1;
      CountIsMultiplicity(s[..n], x);
      assert s == s[..n] + [s[n]];
    }
  }

  /** `similarity_score`: each id of the first list times its count in the
      second. */
  function Similarity(l1: seq<int>, l2: seq<int>): int {
    if |l1| == 0 then 0
    else Similarity(l1[..|l1| - 1], l2) + l1[|l1| - 1] * Count(l2, l1[|l1| - 1])
  }

  lemma {:induction false} SimilarityAppendRight(l1: seq<int>, l2: seq<int>, y: int)
    ensures Similarity(l1, l2 + [y]) == Similarity(l1, l2) + y * Count(l1, y)
    decreases |l1|
  {
    if |l1| > 0 {
      var n := |l1| - 1;
      var x := l1[n];
      SimilarityAppendRight(l1[..n], l2, y);
      CountSnoc(l2, y, x);
      var e := if x == y then 1 else 0;
      Regroup(Similarity(l1[..n], l2), x, y, Count(l2, x), Count(l1[..n], y), e);
    }
  }

  lemma CountSnoc(s: seq<int>, y: int, x: int)
    ensures Count(s + [y], x) == Count(s, x) + if y == x then 1 else 0
  {
    assert (s + [y])[..|s|] == s;
  }

  lemma Regroup(rest: int, x: int, y: int, c: nat, d: nat, e: nat)
    requires e == 0 || x == y
    ensures rest + y * d + x * (c + e) == rest + x * c + y * (d + e)
  {
    assert x * (c + e) == x * c + x * e;
    assert y * (d + e) == y * d + y * e;
  }

  lemma {:induction false} SimilarityOfNone(l: seq<int>)
    ensures Similarity(l, []) == 0
    decreases |l|
  {
    if |l| > 0 {
      SimilarityOfNone(l[..|l| - 1]);
    }
  }

  /** The score reads the same from either list: both are the sum of x
      over the pairs of equal ids, one from each list. */
  lemma {:induction false} SimilaritySymmetric(l1: seq<int>, l2: seq<int>)
    ensures Similarity(l1, l2) == Similarity(l2, l1)
    decreases |l1|
  {
    if |l1| == 0 {
      SimilarityOfNone(l2);
    } else {
      var n := |l1| - 1;
      var x := l1[n];
      assert l1[..n] + [x] == l1;
      SimilaritySymmetric(l1[..n], l2);
      SimilarityAppendRight(l2, l1[..n], x);
      assert Similarity(l1, l2) == Similarity(l1[..n], l2) + x * Count(l2, x);
      assert Similarity(l2, l1) == Similarity(l2, l1[..n]) + x * Count(l2, x);
    }
  }

  /** The score depends on the second list's contents only. */
  lemma {:induction false} SimilarityRearranged(l1: seq<int>, l2: seq<int>, other: seq<int>)
    requires multiset(other) == multiset(l2)
    ensures Similarity(l1, other) == Similarity(l1, l2)
    decreases |l1|
  {
    if |l1| > 0 {
      var n := |l1| - 1;
      SimilarityRearranged(l1[..n], l2, other);
      CountIsMultiplicity(l2, l1[n]);
      CountIsMultiplicity(other, l1[n]);
    }
  }

  /** `part1`; None where parsing panics. */
  method Part1(input: string) returns (r: Option<nat>)
    ensures ParseLists(input).None? ==> r.None?
    ensures ParseLists(input).Some? ==> r == Some(Distance(ParseLists(input).value))
  {
    var parsed := ParseLists(input);
    if parsed.None? {
      return None;
    }
    var d := ComputeDistance(parsed.value);
    return Some(d);
  }

  /** `part2`; None where parsing panics. */
  function Part2(input: string): (r: Option<int>)
    ensures r.Some? <==> ParseLists(input).Some?
  {
    match ParseLists(input)
    case None => None
    case Some(l) => Some(Similarity(l.list1, l.list2))
  }

  /** The example lists sorted. */
  lemma ExampleSortedLeftStart()
    ensures SortedOf([3, 4, 2, 1]) == [1, 2, 3, 4]
  {
    assert SortedOf([3]) == [3];
    assert [3, 4][..1] == [3];
    assert SortedOf([3, 4]) == [3, 4];
    assert [3, 4, 2][..2] == [3, 4];
    assert SortedOf([3, 4, 2]) == [2, 3, 4];
    assert [3, 4, 2, 1][..3] == [3, 4, 2];
  }

  lemma ExampleSortedLeft()
    ensures SortedOf([3, 4, 2, 1, 3, 3]) == [1, 2, 3, 3, 3, 4]
  {
    ExampleSortedLeftStart();
    assert [3, 4, 2, 1, 3][..4] == [3, 4, 2, 1];
    assert InsertSorted([3, 4], 3) == [3, 3, 4];
    assert InsertSorted([2, 3, 4], 3) == [2, 3, 3, 4];
    assert SortedOf([3, 4, 2, 1, 3]) == [1, 2, 3, 3, 4];
    assert [3, 4, 2, 1, 3, 3][..5] == [3, 4, 2, 1, 3];
    assert InsertSorted([3, 3, 4], 3) == [3, 3, 3, 4];
    assert InsertSorted([2, 3, 3, 4], 3) == [2, 3, 3, 3, 4];
  }

  lemma ExampleSortedRightStart()
    ensures SortedOf([4, 3, 5, 3]) == [3, 3, 4, 5]
  {
    assert SortedOf([4]) == [4];
    assert [4, 3][..1] == [4];
    assert SortedOf([4, 3]) == [3, 4];
    assert [4, 3, 5][..2] == [4, 3];
    assert InsertSorted([4], 5) == [4, 5];
    assert InsertSorted([3, 4], 5) == [3, 4, 5];
    assert SortedOf([4, 3, 5]) == [3, 4, 5];
    assert InsertSorted([4, 5], 3) == [3, 4, 5];
    assert [4, 3, 5, 3][..3] == [4, 3, 5];
    assert InsertSorted([3, 4, 5], 3) == [3, 3, 4, 5];
  }

  lemma ExampleSortedRight()
    ensures SortedOf([4, 3, 5, 3, 9, 3]) == [3, 3, 3, 4, 5, 9]
  {
    ExampleSortedRightStart();
    assert [4, 3, 5, 3, 9][..4] == [4, 3, 5, 3];
    assert InsertSorted([5], 9) == [5, 9];
    assert InsertSorted([4, 5], 9) == [4, 5, 9];
    assert InsertSorted([3, 4, 5], 9) == [3, 4, 5, 9];
    assert SortedOf([4, 3, 5, 3, 9]) == [3, 3, 4, 5, 9];
    assert [4, 3, 5, 3, 9, 3][..5] == [4, 3, 5, 3, 9];
    assert InsertSorted([3, 4, 5, 9], 3) == [3, 3, 4, 5, 9];
  }

  /** The example's total distance is 11. */
  lemma ExampleDistance()
    ensures Distance(Lists([3, 4, 2, 1, 3, 3], [4, 3, 5, 3, 9, 3])) == 11
  {
    ExampleSortedLeft();
    ExampleSortedRight();
    var s1, s2 := [1, 2, 3, 3, 3, 4], [3, 3, 3, 4, 5, 9];
    assert Gaps(s1[..1], s2) == 2;
    assert s1[..2][..1] == s1[..1];
    assert Gaps(s1[..2], s2) == 3;
    assert s1[..3][..2] == s1[..2];
    assert Gaps(s1[..3], s2) == 3;
    assert s1[..4][..3] == s1[..3];
    assert Gaps(s1[..4], s2) == 4;
    assert s1[..5][..4] == s1[..4];
    assert Gaps(s1[..5], s2) == 6;
  }

  lemma ExampleCounts()
    ensures var l2 := [4, 3, 5, 3, 9, 3];
      Count(l2, 1) == 0 && Count(l2, 2) == 0 && Count(l2, 3) == 3 && Count(l2, 4) == 1
  {
    var l2 := [4, 3, 5, 3, 9, 3];
    CountIsMultiplicity(l2, 1);
    CountIsMultiplicity(l2, 2);
    CountIsMultiplicity(l2, 3);
    CountIsMultiplicity(l2, 4);
    assert multiset(l2) == multiset{3, 3, 3, 4, 5, 9};
  }

  /** The example's similarity score is 31. */
  lemma ExampleSimilarity()
    ensures Similarity([3, 4, 2, 1, 3, 3], [4, 3, 5, 3, 9, 3]) == 31
  {
    var l1, l2 := [3, 4, 2, 1, 3, 3], [4, 3, 5, 3, 9, 3];
    ExampleCounts();
    assert Similarity(l1[..1], l2) == 9;
    assert l1[..2][..1] == l1[..1];
    assert Similarity(l1[..2], l2) == 13;
    assert l1[..3][..2] == l1[..2];
    assert Similarity(l1[..3], l2) == 13;
    assert l1[..4][..3] == l1[..3];
    assert Similarity(l1[..4], l2) == 13;
    assert l1[..5][..4] == l1[..4];
    assert Similarity(l1[..5], l2) == 22;
  }
}
