/** Day 6, the patrolling guard: the guard walks straight ahead and turns
    right in front of every obstruction, until the next cell lies outside
    the map.  The answer is the number of distinct cells it stands on. */
module GuardPatrol {
  import opened Wrappers
  import opened Grid
  import Text
  import Seqs

  datatype Direction = North | East | South | West

  /** `Map::turn_right`. */
  function TurnRight(d: Direction): (r: Direction)
    ensures r != d
  {
    match d
    case North => East
    case East => South
    case South => West
    case West => North
  }

  /** Four right turns face the guard the way it started, and no fewer do. */
  lemma TurnAround(d: Direction)
    ensures TurnRight(TurnRight(TurnRight(TurnRight(d)))) == d
    ensures TurnRight(TurnRight(d)) != d && TurnRight(TurnRight(TurnRight(d))) != d
  {
  }

  /** The guard's row, column and facing (`Map::position`). */
  datatype Guard = Guard(x: int, y: int, facing: Direction)

  function Cell(g: Guard): Point {
    (g.x, g.y)
  }

  /** The cell in front of the guard; north is the previous row. */
  function Ahead(g: Guard): (r: Point)
    ensures (r.0 - g.x) * (r.0 - g.x) + (r.1 - g.y) * (r.1 - g.y) == 1
  {
    match g.facing
    case North => (g.x - 1, g.y)
    case East => (g.x, g.y + 1)
    case South => (g.x + 1, g.y)
    case West => (g.x, g.y - 1)
  }

  /** `Map::step` on the obstruction map `data` (true is an obstruction):
      None when the cell ahead is off the map, otherwise the guard after
      turning or moving. */
  function StepSpec(data: seq<seq<bool>>, g: Guard): Option<Guard> {
    match At(data, Ahead(g))
    case None => None
    case Some(obstructed) =>
      if obstructed then Some(Guard(g.x, g.y, TurnRight(g.facing)))
      else Some(Guard(Ahead(g).0, Ahead(g).1, g.facing))
  }

  /** The three outcomes of a step: off the map stops; an obstruction turns
      the guard on the spot; an open cell moves it one cell ahead, facing
      the same way. */
  lemma StepCases(data: seq<seq<bool>>, g: Guard)
    ensures StepSpec(data, g).None? <==> !InBounds(data, Ahead(g))
    ensures At(data, Ahead(g)) == Some(true) ==>
      StepSpec(data, g) == Some(Guard(g.x, g.y, TurnRight(g.facing)))
    ensures At(data, Ahead(g)) == Some(false) ==>
      StepSpec(data, g) == Some(Guard(Ahead(g).0, Ahead(g).1, g.facing))
  {
  }

  /** A guard on an open cell of the map stays on an open cell. */
  lemma StepStaysOpen(data: seq<seq<bool>>, g: Guard)
    requires At(data, Cell(g)) == Some(false)
    ensures StepSpec(data, g).Some? ==> At(data, Cell(StepSpec(data, g).value)) == Some(false)
  {
  }

  /** `part1` with at most `fuel` steps: the cells the guard stands on from
      `g` on, and whether it left the map within the fuel. */
  function Patrol(data: seq<seq<bool>>, g: Guard, fuel: nat): (seq<Point>, bool)
    decreases fuel
  {
    if fuel == 0 then ([Cell(g)], false)
    else match StepSpec(data, g)
      case None => ([Cell(g)], true)
      case Some(next) =>
        var (rest, done) := Patrol(data, next, fuel - 1);
        ([Cell(g)] + rest, done)
  }

  /** The patrol starts where the guard stands, and from an open cell of
      the map it only ever stands on open cells of the map. */
  lemma {:induction false} PatrolStaysOpen(data: seq<seq<bool>>, g: Guard, fuel: nat)
    requires At(data, Cell(g)) == Some(false)
    ensures |Patrol(data, g, fuel).0| >= 1 && Patrol(data, g, fuel).0[0] == Cell(g)
    ensures forall p :: p in Patrol(data, g, fuel).0 ==> At(data, p) == Some(false)
    decreases fuel
  {
    if fuel > 0 {
      match StepSpec(data, g)
      case None =>
      case Some(next) =>
        StepStaysOpen(data, g);
        PatrolStaysOpen(data, next, fuel - 1);
    }
  }

  /** More fuel does not change a patrol that has already left the map. */
  lemma {:induction false} PatrolMoreFuel(data: seq<seq<bool>>, g: Guard, fuel: nat, more: nat)
    requires Patrol(data, g, fuel).1 && more >= fuel
    ensures Patrol(data, g, more) == Patrol(data, g, fuel)
    decreases fuel
  {
    match StepSpec(data, g)
    case None =>
    case Some(next) => PatrolMoreFuel(data, next, fuel - 1, more - 1);
  }

  /** The number of distinct cells visited (`visited_positions.len()`). */
  function Visited(data: seq<seq<bool>>, g: Guard, fuel: nat): set<Point> {
    set p | p in Patrol(data, g, fuel).0
  }

  /** One step of the patrol: the cell the guard stands on, then the rest. */
  lemma PatrolStep(data: seq<seq<bool>>, g: Guard, fuel: nat)
    requires fuel > 0
    ensures StepSpec(data, g).None? ==> Patrol(data, g, fuel).1 && Visited(data, g, fuel) == {Cell(g)}
    ensures StepSpec(data, g).Some? ==>
      var next := StepSpec(data, g).value;
      && Patrol(data, g, fuel).1 == Patrol(data, next, fuel - 1).1
      && Visited(data, g, fuel) == {Cell(g)} + Visited(data, next, fuel - 1)
  {
  }

  /** The count includes the start and is at most the number of cells of a
      rectangular map. */
  lemma VisitedBounds(data: seq<seq<bool>>, g: Guard, fuel: nat)
    requires Rectangular(data) && At(data, Cell(g)) == Some(false)
    ensures Cell(g) in Visited(data, g, fuel)
    ensures 1 <= |Visited(data, g, fuel)| <= |data| * Width(data)
  {
    PatrolStaysOpen(data, g, fuel);
    var v := Visited(data, g, fuel);
    assert Cell(g) in v;
    InBoundsCount(data, v);
  }

  /** The `Map` struct: the obstruction map and the guard, which `step`
      moves in place. */
  class PatrolMap {
    var data: seq<seq<bool>>
    var position: Guard

    constructor (d: seq<seq<bool>>, start: Guard)
      ensures data == d && position == start
    {
      data, position := d, start;
    }

    /** `Map::step`: true when the guard turned or moved, false (and no
        change) when the cell ahead is off the map. */
    method Step() returns (moved: bool)
      modifies this
      ensures moved == StepSpec(old(data), old(position)).Some?
      ensures position == StepSpec(old(data), old(position)).GetOr(old(position))
      ensures data == old(data)
    {
      var (x, y) := Ahead(position);
      var cell := At(data, (x, y));
      if cell.Some? {
        if cell.value {
          position := Guard(position.x, position.y, TurnRight(position.facing));
        } else {
          position := Guard(x, y, position.facing);
        }
        moved := true;
      } else {
        moved := false;
      }
    }
  }

  /** Map characters: '#' is an obstruction, '.' and the guard '^' are
      open; anything else is refused (the source panics). */
  function CellFromChar(c: char): (r: Option<bool>)
    ensures r.Some? <==> c in {'#', '.', '^'}
    ensures r == Some(true) <==> c == '#'
  {
    if c == '#' then Some(true)
    else if c == '.' || c == '^' then Some(false)
    else None
  }

  /** The '^' found last in reading order: the one `Map::from` keeps, since
      every '^' overwrites the position. */
  function LastCaret(lines: seq<string>): (r: Option<Point>)
    ensures r.Some? ==> 0 <= r.value.0 < |lines| && 0 <= r.value.1 < |lines[r.value.0]|
    ensures r.Some? ==> lines[r.value.0][r.value.1] == '^'
    ensures r.Some? ==> forall j :: r.value.1 < j < |lines[r.value.0]| ==> lines[r.value.0][j] != '^'
    ensures r.Some? ==> forall i, j :: r.value.0 < i < |lines| && 0 <= j < |lines[i]| ==> lines[i][j] != '^'
    ensures r.None? ==> forall i, j :: 0 <= i < |lines| && 0 <= j < |lines[i]| ==> lines[i][j] != '^'
  {
    if |lines| == 0 then None
    else
      var n := |lines| - 1;
      match Seqs.LastIndexOf(lines[n], '^')
      case Some(j) => Some((n, j))
      case None =>
        var r := LastCaret(lines[..n]);
        assert forall i :: 0 <= i < n ==> lines[..n][i] == lines[i];
        r
  }

  /** `Map::from`: the obstruction map and the guard, facing north on the
      last '^' (row 0, column 0 when there is none); None where the source
      panics. */
  function ParseMap(input: string): (r: Option<(seq<seq<bool>>, Guard)>)
    ensures r.Some? ==> r.value.1.facing == North
    ensures r.Some? ==> |r.value.0| == |Text.Lines(input)|
    ensures r.Some? && LastCaret(Text.Lines(input)).Some? ==>
      Cell(r.value.1) == LastCaret(Text.Lines(input)).value && At(r.value.0, Cell(r.value.1)) == Some(false)
  {
    var lines := Text.Lines(input);
    match ParseGrid(lines, CellFromChar)
    case None => None
    case Some(data) =>
      var (x, y) := LastCaret(lines).GetOr((0, 0));
      assert LastCaret(lines).Some? ==> ParseRow(lines[x], CellFromChar) == Some(data[x]);
      Some((data, Guard(x, y, North)))
  }

  /** `part1`: the number of distinct cells the guard visits before it
      leaves the map, or None when it has not left within `fuel` steps
      (the source loops forever on a cycle). */
  method Part1(input: string, fuel: nat) returns (count: Option<nat>)
    ensures match ParseMap(input)
      case None => count.None?
      case Some((data, start)) => count == Count(data, start, fuel)
  {
    var parsed := ParseMap(input);
    if parsed.None? {
      return None;
    }
    count := CountVisited(parsed.value.0, parsed.value.1, fuel);
  }

  function Count(data: seq<seq<bool>>, start: Guard, fuel: nat): Option<nat> {
    if Patrol(data, start, fuel).1 then Some(|Visited(data, start, fuel)|) else None
  }

  /** On a rectangular map with a guard, the answer counts the start cell
      and no more cells than the map has. */
  lemma CountBounds(input: string, fuel: nat)
    requires ParseMap(input).Some? && LastCaret(Text.Lines(input)).Some?
    requires Rectangular(ParseMap(input).value.0)
    ensures var (data, start) := ParseMap(input).value;
      Count(data, start, fuel).Some? ==> 1 <= Count(data, start, fuel).value <= |data| * Width(data)
  {
    var (data, start) := ParseMap(input).value;
    VisitedBounds(data, start, fuel);
  }

  /** The loop of `part1`: step the guard and record its cell until `step`
      reports that it left the map. */
  method CountVisited(data: seq<seq<bool>>, start: Guard, fuel: nat) returns (count: Option<nat>)
    ensures count == Count(data, start, fuel)
  {
    var lab := new PatrolMap(data, start);
    var visited: set<Point> := {Cell(start)};
    var left := fuel;
    while left > 0
      invariant lab.data == data
      invariant Cell(lab.position) in visited
      invariant visited + Visited(data, lab.position, left) == Visited(data, start, fuel)
      invariant Patrol(data, lab.position, left).1 == Patrol(data, start, fuel).1
    {
      PatrolStep(data, lab.position, left);
      ghost var here := lab.position;
      var moved := lab.Step();
      if !moved {
        assert Visited(data, here, left) == {Cell(here)};
        assert visited == Visited(data, start, fuel);
        return Some(|visited|);
      }
      visited := visited + {Cell(lab.position)};
      left := left - 1;
    }
    return None;
  }

  /** A guard turning at an obstruction: on ".#.", "...", ".^." it walks
      up, turns east below the '#', steps right and leaves, visiting three
      cells. */
  lemma TurnExample(fuel: nat)
    requires fuel >= 4
    ensures Patrol([[false, true, false], [false, false, false], [false, false, false]], Guard(2, 1, North), fuel).1
    ensures Visited([[false, true, false], [false, false, false], [false, false, false]], Guard(2, 1, North), fuel)
      == {(2, 1), (1, 1), (1, 2)}
  {
    var data := [[false, true, false], [false, false, false], [false, false, false]];
    assert StepSpec(data, Guard(2, 1, North)) == Some(Guard(1, 1, North));
    assert StepSpec(data, Guard(1, 1, North)) == Some(Guard(1, 1, East));
    assert StepSpec(data, Guard(1, 1, East)) == Some(Guard(1, 2, East));
    assert StepSpec(data, Guard(1, 2, East)) == None;
    assert [(1, 1)] + [(1, 2)] == [(1, 1), (1, 2)];
    assert [(1, 1)] + [(1, 1), (1, 2)] == [(1, 1), (1, 1), (1, 2)];
    assert [(2, 1)] + [(1, 1), (1, 1), (1, 2)] == [(2, 1), (1, 1), (1, 1), (1, 2)];
    assert Patrol(data, Guard(1, 2, East), 1) == ([(1, 2)], true);
    assert Patrol(data, Guard(1, 1, East), 2) == ([(1, 1), (1, 2)], true);
    assert Patrol(data, Guard(1, 1, North), 3) == ([(1, 1), (1, 1), (1, 2)], true);
    assert Patrol(data, Guard(2, 1, North), 4) == ([(2, 1), (1, 1), (1, 1), (1, 2)], true);
    PatrolMoreFuel(data, Guard(2, 1, North), 4, fuel);
  }
}
