/** Day 4, "Ceres Search": a word search.  A word occurs at a cell in one
    of eight directions when the letters read from that cell, one step at
    a time in that direction, spell it; the answer counts the occurrences
    of `XMAS`. */
module CeresSearch {
  import opened Wrappers
  import Text

  /** `Puzzle`: the letter grid (`grid[x][y]`, `x` the line) and its size,
      the number of lines and the length of the first line. */
  datatype Puzzle = Puzzle(grid: seq<seq<char>>, size: (nat, nat))

  /** A puzzle whose every lookup inside `size` finds a letter: every line is
      at least as long as the first.  A shorter line makes `grid[x][y]`
      panic once `word_count` visits the cell it lacks. */
  predicate Valid(p: Puzzle) {
    p.size.0 == |p.grid| && forall x :: 0 <= x < |p.grid| ==> |p.grid[x]| >= p.size.1
  }

  /** `DIRECTIONS`: the eight steps to the neighbouring cells. */
  const Directions: seq<(int, int)> := [
    (-1, -1), (0, -1), (1, -1),
    (-1, 0), (1, 0),
    (-1, 1), (0, 1), (1, 1)]

  /** `char_at`: the letter at `(x, y)`, or None outside the size. */
  function CharAt(p: Puzzle, x: int, y: int): (r: Option<char>)
    requires Valid(p)
    ensures r.Some? <==> 0 <= x < p.size.0 && 0 <= y < p.size.1
    ensures r.Some? ==> r.value == p.grid[x][y]
  {
    if 0 <= x < p.size.0 && 0 <= y < p.size.1 then Some(p.grid[x][y]) else None
  }

  /** The cell `i` steps from `(x, y)` in direction `d`. */
  function Along(x: int, y: int, d: (int, int), i: nat): (int, int) {
    (x + d.0 * i, y + d.1 * i)
  }

  /** `char_at` of a cell given as a pair. */
  function LetterAt(p: Puzzle, q: (int, int)): Option<char>
    requires Valid(p)
  {
    CharAt(p, q.0, q.1)
  }

  /** The letters read from `(x, y)` in direction `d`: at most `len` of
      them, the `i`-th from the cell `i` steps away, stopping before the
      first step that leaves the grid. */
  function Ray(p: Puzzle, x: int, y: int, d: (int, int), len: nat): string
    requires Valid(p)
  {
    if len == 0 then []
    else
      var prev := Ray(p, x, y, d, len - 1);
      if |prev| < len - 1 then prev
      else
        match LetterAt(p, Along(x, y, d, len - 1))
        case Some(c) => prev + [c]
        case None => prev
  }

  /** A ray holds at most `len` letters, the `i`-th being the letter `i`
      steps away, and it is shorter only where the next step leaves the
      grid. */
  lemma {:induction false} RayShape(p: Puzzle, x: int, y: int, d: (int, int), len: nat)
    requires Valid(p)
    ensures var r := Ray(p, x, y, d, len);
      |r| <= len &&
      (forall i :: 0 <= i < |r| ==> LetterAt(p, Along(x, y, d, i)) == Some(r[i])) &&
      (|r| < len ==> LetterAt(p, Along(x, y, d, |r|)).None?)
  {
    if len > 0 {
      RayShape(p, x, y, d, len - 1);
    }
  }

  /** Once a ray has been cut, reading further adds nothing. */
  lemma {:induction false} RayStops(p: Puzzle, x: int, y: int, d: (int, int), n: nat, len: nat)
    requires Valid(p) && n <= len
    requires |Ray(p, x, y, d, n)| == n && LetterAt(p, Along(x, y, d, n)).None?
    ensures Ray(p, x, y, d, len) == Ray(p, x, y, d, n)
    decreases len
  {
    if len > n {
      RayStops(p, x, y, d, n, len - 1);
    }
  }

  /** The ray from `(x, y)` in direction `d` spells `word`. */
  predicate SpellsAt(p: Puzzle, word: string, x: int, y: int, d: (int, int))
    requires Valid(p)
  {
    Ray(p, x, y, d, |word|) == word
  }

  /** A ray spells a word exactly when every letter of the word lies on the
      grid at its step from the start. */
  lemma RaySpells(p: Puzzle, x: int, y: int, d: (int, int), word: string)
    requires Valid(p)
    ensures SpellsAt(p, word, x, y, d) <==>
      forall i :: 0 <= i < |word| ==> LetterAt(p, Along(x, y, d, i)) == Some(word[i])
  {
    var r := Ray(p, x, y, d, |word|);
    RayShape(p, x, y, d, |word|);
    if forall i :: 0 <= i < |word| ==> LetterAt(p, Along(x, y, d, i)) == Some(word[i]) {
      assert |r| == |word|;
      assert forall i :: 0 <= i < |r| ==> r[i] == word[i];
    }
  }

  /** The one letter a ray of a single step can read is the start's. */
  lemma RayStart(p: Puzzle, x: int, y: int, d: (int, int), word: string)
    requires Valid(p) && |word| > 0 && SpellsAt(p, word, x, y, d)
    ensures CharAt(p, x, y) == Some(word[0])
  {
    RayShape(p, x, y, d, |word|);
    assert Along(x, y, d, 0) == (x, y);
  }

  /** `words_from`: the ray of `len` letters in each direction, in the
      order of `DIRECTIONS`. */
  method WordsFrom(p: Puzzle, x: int, y: int, len: nat) returns (words: seq<string>)
    requires Valid(p)
    ensures |words| == |Directions|
    ensures forall k :: 0 <= k < |Directions| ==> words[k] == Ray(p, x, y, Directions[k], len)
  {
    words := [];
    for k := 0 to |Directions|
      invariant |words| == k
      invariant forall j :: 0 <= j < k ==> words[j] == Ray(p, x, y, Directions[j], len)
    {
      var (dx, dy) := Directions[k];
      var letters := [];
      var n := 0;
      while n < len
        invariant n <= len && |letters| == n
        invariant letters == Ray(p, x, y, (dx, dy), n)
      {
        var lx := x + dx * n;
        var ly := y + dy * n;
        assert Along(x, y, (dx, dy), n) == (lx, ly);
        match CharAt(p, lx, ly)
        case Some(c) =>
          letters := letters + [c];
          n := n + 1;
        case None =>
          RayStops(p, x, y, (dx, dy), n, len);
          break;
      }
      words := words + [letters];
    }
  }

  /** The directions among the first `k` in which the ray from `(x, y)`
      spells `word`. */
  function MatchesUpTo(p: Puzzle, word: string, x: int, y: int, k: nat): (r: nat)
    requires Valid(p) && k <= |Directions|
    ensures r <= k
  {
    if k == 0 then 0
    else MatchesUpTo(p, word, x, y, k - 1) + if SpellsAt(p, word, x, y, Directions[k - 1]) then 1 else 0
  }

  /** The occurrences of `word` that start at `(x, y)`. */
  function Matches(p: Puzzle, word: string, x: int, y: int): nat
    requires Valid(p)
  {
    MatchesUpTo(p, word, x, y, |Directions|)
  }

  /** A cell holding anything but the first letter starts no occurrence, so
      examining only the cells that hold it loses none. */
  lemma {:induction false} NoMatchesElsewhere(p: Puzzle, word: string, x: int, y: int, k: nat)
    requires Valid(p) && |word| > 0 && k <= |Directions| && CharAt(p, x, y) != Some(word[0])
    ensures MatchesUpTo(p, word, x, y, k) == 0
  {
    if k > 0 {
      NoMatchesElsewhere(p, word, x, y, k - 1);
      if SpellsAt(p, word, x, y, Directions[k - 1]) {
        RayStart(p, x, y, Directions[k - 1], word);
        assert false;
      }
    }
  }

  /** The occurrences starting in line `x` at the first `y` cells. */
  function CountCells(p: Puzzle, word: string, x: int, y: nat): nat
    requires Valid(p)
  {
    if y == 0 then 0 else CountCells(p, word, x, y - 1) + Matches(p, word, x, y - 1)
  }

  /** The occurrences starting in the first `x` lines. */
  function CountLines(p: Puzzle, word: string, x: nat): nat
    requires Valid(p)
  {
    if x == 0 then 0 else CountLines(p, word, x - 1) + CountCells(p, word, x - 1, p.size.1)
  }

  /** Every occurrence: every cell of the grid in every direction. */
  function Occurrences(p: Puzzle, word: string): nat
    requires Valid(p)
  {
    CountLines(p, word, p.size.0)
  }

  /** The body of `word_count`'s cell loop: at a cell holding the first
      letter, one for each ray that spells the word. */
  method CountAt(p: Puzzle, word: string, x: int, y: int) returns (n: nat)
    requires Valid(p) && |word| > 0
    ensures n == Matches(p, word, x, y)
  {
    n := 0;
    if CharAt(p, x, y) == Some(word[0]) {
      var found := WordsFrom(p, x, y, |word|);
      for k := 0 to |found|
        invariant n == MatchesUpTo(p, word, x, y, k)
      {
        if found[k] == word {
          n := n + 1;
        }
      }
    } else {
      NoMatchesElsewhere(p, word, x, y, |Directions|);
    }
  }

  /** `word_count`: every line, every cell, and at the cells holding the
      first letter, every ray that spells the word.  The word must have a
      first letter (`unwrap`). */
  method WordCount(p: Puzzle, word: string) returns (count: nat)
    requires Valid(p) && |word| > 0
    ensures count == Occurrences(p, word)
  {
    count := 0;
    for x := 0 to p.size.0
      invariant count == CountLines(p, word, x)
    {
      for y := 0 to p.size.1
        invariant count == CountLines(p, word, x) + CountCells(p, word, x, y)
      {
        var here := CountAt(p, word, x, y);
        count := count + here;
      }
    }
  }

  /** `Puzzle::from`: one line of letters per grid line; the size is the
      number of lines and the length of the first.  None where the source
      panics: there is no line (`grid[0]`), or a line is shorter than the
      first. */
  function ParsePuzzle(input: string): (r: Option<Puzzle>)
    ensures r.Some? ==> Valid(r.value) && r.value.grid == Text.Lines(input)
    ensures r.Some? <==> (|Text.Lines(input)| > 0 &&
      forall x :: 0 <= x < |Text.Lines(input)| ==> |Text.Lines(input)[x]| >= |Text.Lines(input)[0]|)
  {
    var grid := Text.Lines(input);
    if |grid| == 0 then None
    else if forall x :: 0 <= x < |grid| ==> |grid[x]| >= |grid[0]| then Some(Puzzle(grid, (|grid|, |grid[0]|)))
    else None
  }

  /** `step1`: the occurrences of `XMAS`. */
  method Step1(input: string) returns (r: Option<nat>)
    ensures r.Some? <==> ParsePuzzle(input).Some?
    ensures r.Some? ==> r.value == Occurrences(ParsePuzzle(input).value, "XMAS")
  {
    var parsed := ParsePuzzle(input);
    if parsed.None? {
      return None;
    }
    var count := WordCount(parsed.value, "XMAS");
    return Some(count);
  }

  /** The test grid. */
  const Example := Puzzle([
    "MMMSXXMASM", "MSAMXMSMSA", "AMXSXMAAMM", "MSAMASMSMX", "XMASAMXAMM",
    "XXAMMXXAMA", "SMSMSASXSS", "SAXAMASAAA", "MAMMMXMMMM", "MXMXAXMASX"], (10, 10))

  lemma ExampleValid()
    ensures Valid(Example)
  {
  }

  /** In the test grid, the first line spells `XMAS` forwards from its
      sixth cell. */
  lemma ExampleForwards()
    ensures Valid(Example) && SpellsAt(Example, "XMAS", 0, 5, (0, 1))
  {
    ExampleValid();
    var line := Example.grid[0];
    assert line[5] == 'X' && line[6] == 'M' && line[7] == 'A' && line[8] == 'S';
    assert Along(0, 5, (0, 1), 0) == (0, 5) && Along(0, 5, (0, 1), 1) == (0, 6);
    assert Along(0, 5, (0, 1), 2) == (0, 7) && Along(0, 5, (0, 1), 3) == (0, 8);
    assert Ray(Example, 0, 5, (0, 1), 1) == "X";
    assert Ray(Example, 0, 5, (0, 1), 2) == "XM";
    assert Ray(Example, 0, 5, (0, 1), 3) == "XMA";
    assert Ray(Example, 0, 5, (0, 1), 4) == "XMAS";
  }

  /** A line `SAMX` spells `XMAS` backwards from its last cell. */
  lemma ExampleBackwards()
    ensures Valid(Puzzle(["SAMX"], (1, 4))) && SpellsAt(Puzzle(["SAMX"], (1, 4)), "XMAS", 0, 3, (0, -1))
  {
    var p := Puzzle(["SAMX"], (1, 4));
    var line := p.grid[0];
    assert line[3] == 'X' && line[2] == 'M' && line[1] == 'A' && line[0] == 'S';
    assert Along(0, 3, (0, -1), 0) == (0, 3) && Along(0, 3, (0, -1), 1) == (0, 2);
    assert Along(0, 3, (0, -1), 2) == (0, 1) && Along(0, 3, (0, -1), 3) == (0, 0);
    assert Ray(p, 0, 3, (0, -1), 1) == "X";
    assert Ray(p, 0, 3, (0, -1), 2) == "XM";
    assert Ray(p, 0, 3, (0, -1), 3) == "XMA";
    assert Ray(p, 0, 3, (0, -1), 4) == "XMAS";
  }

  /** In the test grid, a ray from the last cell of the first line is cut
      at the edge after one letter. */
  lemma ExampleEdge()
    ensures Valid(Example) && Ray(Example, 0, 9, (0, 1), 4) == "M"
  {
    ExampleValid();
    assert Ray(Example, 0, 9, (0, 1), 1) == "M";
    RayStops(Example, 0, 9, (0, 1), 1, 4);
  }
}
