/** Day 9, the disk fragmenter: a disk map alternates file lengths and
    free lengths; compaction walks the disk from the front, copying file
    blocks and filling every free block with a block of the back-most file
    not yet placed.  The checksum sums position * file id. */
module DiskFragmenter {
  import opened Wrappers
  import Text

  /** `Block::File(length, id)` and `Block::Free(length)`. */
  datatype Block = File(length: nat, id: nat) | Free(length: nat)

  /** `Diskmap::from`: the digit at an even index i is a file of that
      length with id i / 2, at an odd index a free run.  None where a
      character is not a digit (the source panics). */
  function ParseDiskmap(s: string): (r: Option<seq<Block>>)
    ensures r.Some? ==> |r.value| == |s|
    ensures r.Some? ==> forall i :: 0 <= i < |s| ==>
      Text.DigitOf(s[i]).Some? &&
      r.value[i] == if i % 2 == 0 then File(Text.DigitOf(s[i]).value, i / 2) else Free(Text.DigitOf(s[i]).value)
    ensures r.None? <==> exists i :: 0 <= i < |s| && Text.DigitOf(s[i]).None?
  {
    if |s| == 0 then Some([])
    else
      var i := |s| - 1;
      match (ParseDiskmap(s[..i]), Text.DigitOf(s[i]))
      case (Some(front), Some(d)) =>
        assert forall j :: 0 <= j < i ==> s[..i][j] == s[j];
        Some(front + [if i % 2 == 0 then File(d, i / 2) else Free(d)])
      case (None, _) =>
        assert forall j :: 0 <= j < i ==> s[..i][j] == s[j];
        None
      case (_, None) => None
  }

  function Repeat(id: nat, n: nat): (r: seq<nat>)
    ensures |r| == n && forall k :: 0 <= k < n ==> r[k] == id
  {
    seq(n, _ => id)
  }

  /** The inner `while let Some(block) = disk.pop_back()`: blocks are taken
      from the back, free runs dropped, until a file is found; its blocks
      become the new `remains`.  With no file left, nothing remains. */
  function Refill(disk: seq<Block>): (r: (seq<Block>, seq<nat>))
    ensures |r.0| <= |disk|
  {
    if |disk| == 0 then (disk, [])
    else match disk[|disk| - 1]
      case File(length, id) => (disk[..|disk| - 1], Repeat(id, length))
      case Free(_) => Refill(disk[..|disk| - 1])
  }

  /** The loop over the `k` cells of a free run: each takes the top of
      `remains`, refilling it from the back of the disk when it is empty. */
  function FillFree(disk: seq<Block>, result: seq<nat>, remains: seq<nat>, k: nat): (r: (seq<Block>, seq<nat>, seq<nat>))
    ensures |r.0| <= |disk|
    decreases k
  {
    if k == 0 then (disk, result, remains)
    else if |remains| > 0 then
      FillFree(disk, result + [remains[|remains| - 1]], remains[..|remains| - 1], k - 1)
    else
      var (disk', remains') := Refill(disk);
      if |remains'| > 0 then FillFree(disk', result + [remains'[|remains'| - 1]], remains'[..|remains'| - 1], k - 1)
      else FillFree(disk', result, remains', k - 1)
  }

  /** The outer `while let Some(block) = disk.pop_front()` and the final
      copy of `remains`: the compacted disk, continuing from `result`. */
  function ReformatFrom(disk: seq<Block>, result: seq<nat>, remains: seq<nat>): seq<nat>
    decreases |disk|
  {
    if |disk| == 0 then result + remains
    else match disk[0]
      case File(length, id) => ReformatFrom(disk[1..], result + Repeat(id, length), remains)
      case Free(length) =>
        var (disk', result', remains') := FillFree(disk[1..], result, remains, length);
        ReformatFrom(disk', result', remains')
  }

  /** `Diskmap::reformat`. */
  function Reformatted(blocks: seq<Block>): seq<nat> {
    ReformatFrom(blocks, [], [])
  }

  /** The file blocks of a disk map, one copy of the id per block. */
  function FileBlocks(disk: seq<Block>): multiset<nat> {
    if |disk| == 0 then multiset{}
    else FileBlocks(disk[..|disk| - 1]) + match disk[|disk| - 1]
      case File(length, id) => multiset(Repeat(id, length))
      case Free(_) => multiset{}
  }

  /** How many file blocks there are. */
  function FileLength(disk: seq<Block>): nat {
    if |disk| == 0 then 0
    else FileLength(disk[..|disk| - 1]) + match disk[|disk| - 1]
      case File(length, _) => length
      case Free(_) => 0
  }

  lemma FileLengthIsSize(disk: seq<Block>)
    ensures |FileBlocks(disk)| == FileLength(disk)
  {
  }

  /** Dropping the first block of the disk. */
  lemma {:induction false} FileBlocksFront(disk: seq<Block>)
    requires |disk| > 0
    ensures FileBlocks(disk) == FileBlocks(disk[1..]) + match disk[0]
      case File(length, id) => multiset(Repeat(id, length))
      case Free(_) => multiset{}
    decreases |disk|
  {
    if |disk| > 1 {
      var n := |disk| - 1;
      FileBlocksFront(disk[..n]);
      assert disk[..n][1..] == disk[1..][..n - 1];
      assert disk[..n][0] == disk[0];
    } else {
      assert disk[1..] == [];
    }
  }

  /** A refill moves the blocks of the back-most file into `remains`. */
  lemma {:induction false} RefillKeeps(disk: seq<Block>)
    ensures var (disk', remains') := Refill(disk);
      FileBlocks(disk) == FileBlocks(disk') + multiset(remains')
  {
    if |disk| > 0 {
      match disk[|disk| - 1]
      case File(_, _) =>
      case Free(_) => RefillKeeps(disk[..|disk| - 1]);
    }
  }

  /** Filling a free run loses no block: what leaves the disk and
      `remains` lands in `result`. */
  lemma {:induction false} FillFreeKeeps(disk: seq<Block>, result: seq<nat>, remains: seq<nat>, k: nat)
    ensures var (disk', result', remains') := FillFree(disk, result, remains, k);
      && FileBlocks(disk') + multiset(result') + multiset(remains')
         == FileBlocks(disk) + multiset(result) + multiset(remains)
      && |result'| >= |result| && result'[..|result|] == result
    decreases k
  {
    if k == 0 {
    } else if |remains| > 0 {
      TakeTop(disk, result, remains, k);
    } else {
      var (disk', remains') := Refill(disk);
      RefillKeeps(disk);
      if |remains'| > 0 {
        TakeTop(disk', result, remains', k);
      } else {
        FillFreeKeeps(disk', result, remains', k - 1);
      }
    }
  }

  /** One free cell filled from the top of a nonempty `remains`. */
  lemma {:induction false} TakeTop(disk: seq<Block>, result: seq<nat>, remains: seq<nat>, k: nat)
    requires |remains| > 0 && k > 0
    ensures var n := |remains| - 1;
      var (disk', result', remains') := FillFree(disk, result + [remains[n]], remains[..n], k - 1);
      && FileBlocks(disk') + multiset(result') + multiset(remains')
         == FileBlocks(disk) + multiset(result) + multiset(remains)
      && |result'| >= |result| && result'[..|result|] == result
    decreases k, 0
  {
    var n := |remains| - 1;
    assert remains == remains[..n] + [remains[n]];
    FillFreeKeeps(disk, result + [remains[n]], remains[..n], k - 1);
    PrefixOfExtension(result, [remains[n]], FillFree(disk, result + [remains[n]], remains[..n], k - 1).1);
  }

  lemma PrefixOfExtension(a: seq<nat>, b: seq<nat>, c: seq<nat>)
    requires |c| >= |a + b| && c[..|a + b|] == a + b
    ensures |c| >= |a| && c[..|a|] == a
  {
    assert c[..|a|] == c[..|a + b|][..|a|];
  }

  /** Compaction keeps every file block: the output holds each file id
      exactly as many times as its file is long, on top of what was
      already output and held back. */
  lemma {:induction false} ReformatKeeps(disk: seq<Block>, result: seq<nat>, remains: seq<nat>)
    ensures multiset(ReformatFrom(disk, result, remains)) == FileBlocks(disk) + multiset(result) + multiset(remains)
    ensures |ReformatFrom(disk, result, remains)| >= |result|
    ensures ReformatFrom(disk, result, remains)[..|result|] == result
    decreases |disk|
  {
    if |disk| == 0 {
      assert (result + remains)[..|result|] == result;
    } else {
      FileBlocksFront(disk);
      match disk[0]
      case File(length, id) =>
        var result' := result + Repeat(id, length);
        ReformatKeeps(disk[1..], result', remains);
        PrefixOfExtension(result, Repeat(id, length), ReformatFrom(disk[1..], result', remains));
      case Free(length) =>
        var (disk', result', remains') := FillFree(disk[1..], result, remains, length);
        FillFreeKeeps(disk[1..], result, remains, length);
        ReformatKeeps(disk', result', remains');
        assert ReformatFrom(disk', result', remains')[..|result|] == ReformatFrom(disk', result', remains')[..|result'|][..|result|];
    }
  }

  /** The compacted disk is a rearrangement of the file blocks: each id
      occurs as often as its file is long, so the output is exactly as
      long as all files together, and it begins with the first file. */
  lemma ReformattedBlocks(blocks: seq<Block>)
    ensures multiset(Reformatted(blocks)) == FileBlocks(blocks)
    ensures |Reformatted(blocks)| == FileLength(blocks)
    ensures |blocks| > 0 && blocks[0].File? ==>
      |Reformatted(blocks)| >= blocks[0].length &&
      Reformatted(blocks)[..blocks[0].length] == Repeat(blocks[0].id, blocks[0].length)
  {
    ReformatKeeps(blocks, [], []);
    FileLengthIsSize(blocks);
    assert |multiset(Reformatted(blocks))| == |Reformatted(blocks)|;
    if |blocks| > 0 && blocks[0].File? {
      FirstFileFirst(blocks);
    }
  }

  lemma FirstFileFirst(blocks: seq<Block>)
    requires |blocks| > 0 && blocks[0].File?
    ensures |Reformatted(blocks)| >= blocks[0].length
    ensures Reformatted(blocks)[..blocks[0].length] == Repeat(blocks[0].id, blocks[0].length)
  {
    var first := Repeat(blocks[0].id, blocks[0].length);
    assert Reformatted(blocks) == ReformatFrom(blocks[1..], [] + first, []);
    assert [] + first == first;
    ReformatKeeps(blocks[1..], first, []);
  }

  /** The disk map "12345" compacts to 0, 2, 2, 1, 1, 1, 2, 2, 2. */
  lemma ReformatExample()
    ensures ParseDiskmap("12345") == Some([File(1, 0), Free(2), File(3, 1), Free(4), File(5, 2)])
    ensures Reformatted([File(1, 0), Free(2), File(3, 1), Free(4), File(5, 2)]) == [0, 2, 2, 1, 1, 1, 2, 2, 2]
  {
    ParseExample();
    FirstFreeExample();
    LastFreeExample();
    var blocks := [File(1, 0), Free(2), File(3, 1), Free(4), File(5, 2)];
    assert Repeat(0, 1) == [0] && Repeat(1, 3) == [1, 1, 1];
    assert blocks[1..] == [Free(2), File(3, 1), Free(4), File(5, 2)];
    assert blocks[1..][1..] == [File(3, 1), Free(4), File(5, 2)];
    assert [File(3, 1), Free(4)][1..] == [Free(4)];
    assert [Free(4)][1..] == [];
    assert [] + Repeat(0, 1) == [0];
    assert ReformatFrom(blocks, [], []) == ReformatFrom(blocks[1..], [0], []);
    assert ReformatFrom(blocks[1..], [0], []) == ReformatFrom([File(3, 1), Free(4)], [0, 2, 2], [2, 2, 2]);
    assert ReformatFrom([File(3, 1), Free(4)], [0, 2, 2], [2, 2, 2]) == ReformatFrom([Free(4)], [0, 2, 2, 1, 1, 1], [2, 2, 2]);
  }

  /** The first free run takes two blocks of file 2. */
  lemma FirstFreeExample()
    ensures FillFree([File(3, 1), Free(4), File(5, 2)], [0], [], 2) == ([File(3, 1), Free(4)], [0, 2, 2], [2, 2, 2])
  {
    assert [File(3, 1), Free(4), File(5, 2)][..2] == [File(3, 1), Free(4)];
    assert Repeat(2, 5) == [2, 2, 2, 2, 2];
    assert Refill([File(3, 1), Free(4), File(5, 2)]) == ([File(3, 1), Free(4)], [2, 2, 2, 2, 2]);
    assert [2, 2, 2, 2, 2][..4] == [2, 2, 2, 2] && [2, 2, 2, 2][..3] == [2, 2, 2];
    assert FillFree([File(3, 1), Free(4)], [0, 2, 2], [2, 2, 2], 0) == ([File(3, 1), Free(4)], [0, 2, 2], [2, 2, 2]);
    assert [0] + [2] == [0, 2] && [0, 2] + [2] == [0, 2, 2];
    assert FillFree([File(3, 1), Free(4)], [0, 2], [2, 2, 2, 2], 1) == ([File(3, 1), Free(4)], [0, 2, 2], [2, 2, 2]);
  }

  /** The second free run takes the last three blocks of file 2 and then
      finds nothing left. */
  lemma LastFreeExample()
    ensures FillFree([], [0, 2, 2, 1, 1, 1], [2, 2, 2], 4) == ([], [0, 2, 2, 1, 1, 1, 2, 2, 2], [])
  {
    assert [2, 2, 2][..2] == [2, 2] && [2, 2][..1] == [2] && [2][..0] == [];
    var r := [0, 2, 2, 1, 1, 1, 2, 2, 2];
    assert Refill([]) == ([], []);
    assert FillFree([], r, [], 0) == ([], r, []);
    assert FillFree([], r, [], 1) == ([], r, []);
    assert [0, 2, 2, 1, 1, 1, 2, 2] + [2] == r;
    assert [0, 2, 2, 1, 1, 1, 2] + [2] == [0, 2, 2, 1, 1, 1, 2, 2];
    assert [0, 2, 2, 1, 1, 1] + [2] == [0, 2, 2, 1, 1, 1, 2];
    assert FillFree([], [0, 2, 2, 1, 1, 1, 2, 2], [2], 2) == ([], r, []);
    assert FillFree([], [0, 2, 2, 1, 1, 1, 2], [2, 2], 3) == ([], r, []);
  }

  lemma ParseExample()
    ensures ParseDiskmap("12345") == Some([File(1, 0), Free(2), File(3, 1), Free(4), File(5, 2)])
  {
    var s := "12345";
    assert Text.DigitOf('1') == Some(1) && Text.DigitOf('2') == Some(2) && Text.DigitOf('3') == Some(3);
    assert Text.DigitOf('4') == Some(4) && Text.DigitOf('5') == Some(5);
    assert forall i :: 0 <= i < |s| ==> Text.DigitOf(s[i]).Some?;
    var r := ParseDiskmap(s);
    assert r.value[0] == File(1, 0) && r.value[1] == Free(2) && r.value[2] == File(3, 1);
    assert r.value[3] == Free(4) && r.value[4] == File(5, 2);
    assert r.value == [File(1, 0), Free(2), File(3, 1), Free(4), File(5, 2)];
  }

  /** The checksum fold of `main`: the sum of position * id, positions
      counted from `offset`. */
  function ChecksumFrom(s: seq<nat>, offset: nat): nat {
    if |s| == 0 then 0 else offset * s[0] + ChecksumFrom(s[1..], offset + 1)
  }

  function Checksum(s: seq<nat>): nat {
    ChecksumFrom(s, 0)
  }

  /** The fold adds one block at a time, left to right: a block appended
      at position |s| adds |s| times its id. */
  lemma {:induction false} ChecksumFromSnoc(s: seq<nat>, offset: nat, v: nat)
    ensures ChecksumFrom(s + [v], offset) == ChecksumFrom(s, offset) + (offset + |s|) * v
    decreases |s|
  {
    if |s| > 0 {
      assert (s + [v])[1..] == s[1..] + [v];
      ChecksumFromSnoc(s[1..], offset + 1, v);
    }
  }

  lemma ChecksumSnoc(s: seq<nat>, v: nat)
    ensures Checksum(s + [v]) == Checksum(s) + |s| * v
  {
    ChecksumFromSnoc(s, 0, v);
  }

  /** The checksum of the test's compacted disk. */
  lemma ChecksumExample()
    ensures Checksum(Reformatted(ParseDiskmap("12345").value)) == 60
  {
    ReformatExample();
    var s: seq<nat> := [0, 2, 2, 1, 1, 1, 2, 2, 2];
    assert ChecksumFrom(s[8..], 8) == 16;
    assert ChecksumFrom(s[6..], 6) == 42;
    assert ChecksumFrom(s[4..], 4) == 51;
    assert ChecksumFrom(s[2..], 2) == 58;
    assert ChecksumFrom(s, 0) == 60;
  }

  /** `Diskmap::reformat` with its queue, output and held-back blocks. */
  method Reformat(blocks: seq<Block>) returns (result: seq<nat>)
    ensures result == Reformatted(blocks)
  {
    var disk := blocks;
    result := [];
    var remains: seq<nat> := [];
    while |disk| > 0
      invariant ReformatFrom(disk, result, remains) == Reformatted(blocks)
      decreases |disk|
    {
      var block := disk[0];
      disk := disk[1..];
      match block
      case File(length, idx) =>
        ghost var before := result;
        for k := 0 to length
          invariant result == before + Repeat(idx, k)
        {
          result := result + [idx];
        }
      case Free(length) =>
        ghost var start := (disk, result, remains);
        for k := 0 to length
          invariant FillFree(disk, result, remains, length - k) == FillFree(start.0, start.1, start.2, length)
          invariant |disk| <= |start.0|
        {
          if |remains| > 0 {
            result := result + [remains[|remains| - 1]];
            remains := remains[..|remains| - 1];
          } else {
            ghost var back := disk;
            while |disk| > 0
              invariant Refill(disk) == Refill(back) && remains == []
              decreases |disk|
            {
              var last := disk[|disk| - 1];
              disk := disk[..|disk| - 1];
              match last
              case File(l, id) =>
                for j := 0 to l
                  invariant remains == Repeat(id, j)
                {
                  remains := remains + [id];
                }
                break;
              case Free(_) =>
            }
            assert (disk, remains) == Refill(back);
            if |remains| > 0 {
              result := result + [remains[|remains| - 1]];
              remains := remains[..|remains| - 1];
            }
          }
        }
    }
    for k := 0 to |remains|
      invariant result + remains[k..] == Reformatted(blocks)
    {
      assert remains[k..] == [remains[k]] + remains[k + 1..];
      result := result + [remains[k]];
    }
  }

  /** `main`: the checksum of the compacted disk that the trimmed input
      describes; None where `Diskmap::from` panics on a non-digit. */
  method Part1(input: string) returns (r: Option<nat>)
    ensures r.None? <==> ParseDiskmap(Text.Trim(input)).None?
    ensures r.Some? ==> r.value == Checksum(Reformatted(ParseDiskmap(Text.Trim(input)).value))
  {
    var blocks := ParseDiskmap(Text.Trim(input));
    if blocks.None? {
      return None;
    }
    var result := Reformat(blocks.value);
    return Some(Checksum(result));
  }
}
