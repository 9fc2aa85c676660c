/** Day 14, "Restroom Redoubt": robots move in straight lines on a grid
    whose edges wrap around; after 100 seconds the robots in each quadrant
    are counted and the four counts multiplied. */
module TeleportingRobots {
  import opened Wrappers
  import Text
  import Arith

  /** A tile `(x, y)`, both `usize`. */
  type Point = (nat, nat)

  /** `Robot`: where it starts and how far it moves each second. */
  datatype Robot = Robot(position: Point, velocity: (int, int))

  /** The grid sizes of the example and of the puzzle. */
  const ExampleGrid: (nat, nat) := (11, 7)
  const PuzzleGrid: (nat, nat) := (101, 103)

  /** `position_after`: each coordinate moved `seconds` times by its
      velocity and wrapped around with `rem_euclid`, which for a positive
      size is Dafny's `%`.  A zero size panics in the source. */
  function PositionAfter(robot: Robot, seconds: int, grid: (nat, nat)): (r: Point)
    requires grid.0 > 0 && grid.1 > 0
    ensures r.0 < grid.0 && r.1 < grid.1
  {
    var x := (robot.position.0 + robot.velocity.0 * seconds) % grid.0;
    var y := (robot.position.1 + robot.velocity.1 * seconds) % grid.1;
    (x, y)
  }

  /** After no time at all a robot that starts on the grid is where it
      started. */
  lemma PositionAfterZero(robot: Robot, grid: (nat, nat))
    requires grid.0 > 0 && grid.1 > 0
    requires robot.position.0 < grid.0 && robot.position.1 < grid.1
    ensures PositionAfter(robot, 0, grid) == robot.position
  {
    Arith.ModUnique(robot.position.0, grid.0, 0, robot.position.0);
    Arith.ModUnique(robot.position.1, grid.1, 0, robot.position.1);
  }

  /** Moving `a` seconds and then `b` more is moving `a + b` seconds. */
  lemma PositionAfterCompose(robot: Robot, a: int, b: int, grid: (nat, nat))
    requires grid.0 > 0 && grid.1 > 0
    ensures PositionAfter(Robot(PositionAfter(robot, a, grid), robot.velocity), b, grid)
      == PositionAfter(robot, a + b, grid)
  {
    var (px, py) := robot.position;
    var (vx, vy) := robot.velocity;
    Arith.ModAdd(px + vx * a, vx * b, grid.0);
    Arith.ModAdd(py + vy * a, vy * b, grid.1);
    assert px + vx * a + vx * b == px + vx * (a + b);
    assert py + vy * a + vy * b == py + vy * (a + b);
  }

  /** The quadrant of a tile, 0 to 3 in the order of `main`'s `ranges`, or
      None on the middle row or column. */
  function Quadrant(p: Point, grid: (nat, nat)): (r: Option<nat>)
    ensures r.Some? ==> r.value < 4
  {
    var (mx, my) := (grid.0 / 2, grid.1 / 2);
    if p.0 < mx && p.1 < my then Some(0)
    else if p.0 > mx && p.1 < my then Some(1)
    else if p.0 < mx && p.1 > my then Some(2)
    else if p.0 > mx && p.1 > my then Some(3)
    else None
  }

  /** A robot counts in no quadrant exactly when it stands on the middle
      row or the middle column; otherwise its quadrant says on which side
      of each it stands. */
  lemma QuadrantMeans(p: Point, grid: (nat, nat))
    ensures Quadrant(p, grid).None? <==> p.0 == grid.0 / 2 || p.1 == grid.1 / 2
    ensures Quadrant(p, grid).Some? ==>
      (Quadrant(p, grid).value % 2 == 1 <==> p.0 > grid.0 / 2) &&
      (Quadrant(p, grid).value >= 2 <==> p.1 > grid.1 / 2)
  {
  }

  /** How many of the tiles lie in quadrant `q`. */
  function CountIn(positions: seq<Point>, grid: (nat, nat), q: nat): (r: nat)
    ensures r <= |positions|
  {
    if |positions| == 0 then 0
    else
      var n := |positions| - 1;
      CountIn(positions[..n], grid, q) + (if Quadrant(positions[n], grid) == Some(q) then 1 else 0)
  }

  /** How many of the tiles lie on a middle line. */
  function CountMiddle(positions: seq<Point>, grid: (nat, nat)): (r: nat)
    ensures r <= |positions|
  {
    if |positions| == 0 then 0
    else
      var n := |positions| - 1;
      CountMiddle(positions[..n], grid) + (if Quadrant(positions[n], grid).None? then 1 else 0)
  }

  /** Every robot is counted exactly once: in one quadrant or on a middle
      line. */
  lemma {:induction false} CountsCover(positions: seq<Point>, grid: (nat, nat))
    ensures CountIn(positions, grid, 0) + CountIn(positions, grid, 1) + CountIn(positions, grid, 2)
      + CountIn(positions, grid, 3) + CountMiddle(positions, grid) == |positions|
  {
    if |positions| > 0 {
      CountsCover(positions[..|positions| - 1], grid);
    }
  }

  /** `iter().product()`. */
  function Product(s: seq<nat>): nat {
    if |s| == 0 then 1 else s[0] * Product(s[1..])
  }

  /** A product is zero exactly when one of its factors is. */
  lemma {:induction false} ProductZero(s: seq<nat>)
    ensures Product(s) == 0 <==> exists k :: 0 <= k < |s| && s[k] == 0
  {
    if |s| > 0 {
      ProductZero(s[1..]);
      assert forall k :: 1 <= k < |s| ==> s[1..][k - 1] == s[k];
    }
  }

  /** The four quadrant counts, in the order of `main`'s `ranges`. */
  function Counts(positions: seq<Point>, grid: (nat, nat)): (r: seq<nat>)
    ensures |r| == 4 && forall q :: 0 <= q < 4 ==> r[q] == CountIn(positions, grid, q)
  {
    [CountIn(positions, grid, 0), CountIn(positions, grid, 1), CountIn(positions, grid, 2),
      CountIn(positions, grid, 3)]
  }

  /** The safety factor: the four quadrant counts multiplied. */
  function Factor(positions: seq<Point>, grid: (nat, nat)): nat {
    Product(Counts(positions, grid))
  }

  /** The counts with the one of quadrant `q`, if any, raised by one. */
  function Bump(counts: seq<nat>, q: Option<nat>): (r: seq<nat>)
    requires |counts| == 4 && (q.Some? ==> q.value < 4)
    ensures |r| == 4
  {
    match q
    case None => counts
    case Some(k) => counts[k := counts[k] + 1]
  }

  /** One more tile adds one to the count of its own quadrant only. */
  lemma CountsSnoc(prefix: seq<Point>, p: Point, grid: (nat, nat))
    ensures Counts(prefix + [p], grid) == Bump(Counts(prefix, grid), Quadrant(p, grid))
  {
    assert (prefix + [p])[..|prefix|] == prefix;
  }

  /** `main`'s counting loop over the `ranges` array and the product of the
      four entries. */
  method SafetyFactor(positions: seq<Point>, grid: (nat, nat)) returns (factor: nat)
    ensures factor == Factor(positions, grid)
  {
    var ranges := new nat[4](_ => 0);
    assert ranges[..] == Counts([], grid);
    for k := 0 to |positions|
      invariant ranges[..] == Counts(positions[..k], grid)
    {
      assert positions[..k + 1] == positions[..k] + [positions[k]];
      CountsSnoc(positions[..k], positions[k], grid);
      var (x, y) := positions[k];
      if x < grid.0 / 2 && y < grid.1 / 2 {
        assert Quadrant(positions[k], grid) == Some(0);
        ranges[0] := ranges[0] + 1;
      } else if x > grid.0 / 2 && y < grid.1 / 2 {
        assert Quadrant(positions[k], grid) == Some(1);
        ranges[1] := ranges[1] + 1;
      } else if x < grid.0 / 2 && y > grid.1 / 2 {
        assert Quadrant(positions[k], grid) == Some(2);
        ranges[2] := ranges[2] + 1;
      } else if x > grid.0 / 2 && y > grid.1 / 2 {
        assert Quadrant(positions[k], grid) == Some(3);
        ranges[3] := ranges[3] + 1;
      } else {
        assert Quadrant(positions[k], grid) == None;
      }
    }
    assert positions[..|positions|] == positions;
    factor := Product(ranges[..]);
  }

  /** The safety factor is zero exactly when some quadrant is empty. */
  lemma FactorZero(positions: seq<Point>, grid: (nat, nat))
    ensures Factor(positions, grid) == 0 <==> exists q :: 0 <= q < 4 && CountIn(positions, grid, q) == 0
  {
    var c := Counts(positions, grid);
    ProductZero(c);
    if Factor(positions, grid) == 0 {
      var k :| 0 <= k < 4 && c[k] == 0;
      assert CountIn(positions, grid, k) == 0;
    }
  }

  /** The pieces of a robot line `p=x,y v=dx,dy`: two labels and four
      numbers' texts. */
  datatype Fields = Fields(positionLabel: string, x: string, y: string, velocityLabel: string, dx: string, dy: string)

  /** `line` is made of the pieces `f`, each split taken at the first
      separator of its kind, as `split_once` takes it. */
  ghost predicate Fielded(line: string, f: Fields) {
    line == PositionText(f) + " " + VelocityText(f) && ' ' !in PositionText(f) &&
    '=' !in f.positionLabel && ',' !in f.x && '=' !in f.velocityLabel && ',' !in f.dx
  }

  /** The first half of the line, `p=x,y`. */
  function PositionText(f: Fields): string {
    f.positionLabel + "=" + (f.x + "," + f.y)
  }

  /** The second half of the line, `v=dx,dy`. */
  function VelocityText(f: Fields): string {
    f.velocityLabel + "=" + (f.dx + "," + f.dy)
  }

  /** The five `split_once` calls of `Robot::from`; None where one of
      their `unwrap`s panics. */
  function SplitFields(line: string): (r: Option<Fields>)
    ensures r.Some? ==> Fielded(line, r.value)
  {
    match Text.SplitOnce(line, " ")
    case None => None
    case Some((positionData, velocityData)) =>
      match (Text.SplitOnce(positionData, "="), Text.SplitOnce(velocityData, "="))
      case (Some((positionLabel, position)), Some((velocityLabel, velocity))) =>
        (match (Text.SplitOnce(position, ","), Text.SplitOnce(velocity, ","))
         case (Some((x, y)), Some((dx, dy))) =>
           NoneBefore(line, ' ', positionData);
           NoneBefore(positionData, '=', positionLabel);
           NoneBefore(position, ',', x);
           NoneBefore(velocityData, '=', velocityLabel);
           NoneBefore(velocity, ',', dx);
           Assemble(line, positionData, velocityData, position, velocity, Fields(positionLabel, x, y, velocityLabel, dx, dy));
           Some(Fields(positionLabel, x, y, velocityLabel, dx, dy))
         case _ => None)
      case _ => None
  }

  /** The splits of `SplitFields`, put together. */
  lemma Assemble(line: string, positionData: string, velocityData: string, position: string, velocity: string, f: Fields)
    requires line == positionData + " " + velocityData && ' ' !in positionData
    requires positionData == f.positionLabel + "=" + position && velocityData == f.velocityLabel + "=" + velocity
    requires position == f.x + "," + f.y && velocity == f.dx + "," + f.dy
    requires '=' !in f.positionLabel && ',' !in f.x && '=' !in f.velocityLabel && ',' !in f.dx
    ensures Fielded(line, f)
  {
  }

  /** The text before the first `c` holds no `c`. */
  lemma NoneBefore(s: string, c: char, front: string)
    requires Text.SplitOnce(s, [c]).Some? && Text.SplitOnce(s, [c]).value.0 == front
    ensures c !in front
  {
    forall j | 0 <= j < |front|
      ensures front[j] != c
    {
      assert !Text.OccursAt(s, [c], j);
      assert s[j..j + 1] == [front[j]];
    }
  }

  /** A line made of such pieces splits into exactly them: the pieces of
      a line are unique, and a line with none is one the source panics
      on. */
  lemma FieldsUnique(line: string, f: Fields)
    requires Fielded(line, f)
    ensures SplitFields(line) == Some(f)
  {
    Text.SplitOnceAt(PositionText(f), ' ', VelocityText(f));
    Text.SplitOnceAt(f.positionLabel, '=', f.x + "," + f.y);
    Text.SplitOnceAt(f.velocityLabel, '=', f.dx + "," + f.dy);
    Text.SplitOnceAt(f.x, ',', f.y);
    Text.SplitOnceAt(f.dx, ',', f.dy);
  }

  /** The robot the four numbers make: the position unsigned, the velocity
      signed; None where a `parse().unwrap()` panics. */
  function ParseCoordinates(f: Fields): Option<Robot> {
    match (Text.ParseNat(f.x), Text.ParseNat(f.y), Text.ParseInt(f.dx), Text.ParseInt(f.dy))
    case (Some(x), Some(y), Some(dx), Some(dy)) => Some(Robot((x, y), (dx, dy)))
    case _ => None
  }

  /** The four numbers of `f` parse, to those of `robot`. */
  ghost predicate Reads(f: Fields, robot: Robot) {
    Text.ParseNat(f.x) == Some(robot.position.0) && Text.ParseNat(f.y) == Some(robot.position.1) &&
    Text.ParseInt(f.dx) == Some(robot.velocity.0) && Text.ParseInt(f.dy) == Some(robot.velocity.1)
  }

  /** `Robot::from`: a robot exactly when the line is made of the pieces
      `p=x,y v=dx,dy` and their four numbers parse, and then the robot at
      (x, y) moving by (dx, dy); None where an `unwrap` panics. */
  function ParseRobot(line: string): (r: Option<Robot>)
    ensures r.Some? ==> exists f :: Fielded(line, f) && Reads(f, r.value)
    ensures r.None? ==> forall f, robot :: Fielded(line, f) ==> !Reads(f, robot)
  {
    match SplitFields(line)
    case None => NoFields(line); None
    case Some(f) => FieldsRead(line, f); ParseCoordinates(f)
  }

  lemma NoFields(line: string)
    requires SplitFields(line).None?
    ensures forall f :: !Fielded(line, f)
  {
    forall f | Fielded(line, f)
      ensures false
    {
      FieldsUnique(line, f);
    }
  }

  lemma FieldsRead(line: string, f: Fields)
    requires SplitFields(line) == Some(f)
    ensures ParseCoordinates(f).Some? ==> Reads(f, ParseCoordinates(f).value)
    ensures ParseCoordinates(f).None? ==> forall g, robot :: Fielded(line, g) ==> !Reads(g, robot)
  {
    forall g | Fielded(line, g)
      ensures g == f
    {
      FieldsUnique(line, g);
    }
  }

  /** A robot printed as its line of input. */
  function ShowRobot(robot: Robot): (r: string)
    ensures exists f :: Fielded(r, f) && Reads(f, robot)
  {
    var f := Fields("p", Text.ShowNat(robot.position.0), Text.ShowNat(robot.position.1),
                    "v", Text.ShowInt(robot.velocity.0), Text.ShowInt(robot.velocity.1));
    Text.ParseShowNat(robot.position.0);
    Text.ParseShowNat(robot.position.1);
    Text.ParseShowInt(robot.velocity.0);
    Text.ParseShowInt(robot.velocity.1);
    assert ' ' !in PositionText(f);
    assert Reads(f, robot);
    PositionText(f) + " " + VelocityText(f)
  }

  /** Parsing a robot's line gives the robot back. */
  lemma ParseShowRobot(robot: Robot)
    ensures ParseRobot(ShowRobot(robot)) == Some(robot)
  {
    var line := ShowRobot(robot);
    var f :| Fielded(line, f) && Reads(f, robot);
    FieldsUnique(line, f);
  }

  /** The tiles of all robots after `seconds`. */
  function PositionsAfter(robots: seq<Robot>, seconds: int, grid: (nat, nat)): (r: seq<Point>)
    requires grid.0 > 0 && grid.1 > 0
    ensures |r| == |robots|
    ensures forall k :: 0 <= k < |r| ==> r[k] == PositionAfter(robots[k], seconds, grid)
  {
    seq(|robots|, k requires 0 <= k < |robots| => PositionAfter(robots[k], seconds, grid))
  }

  /** `main`: the safety factor of the robots after 100 seconds on the
      101 by 103 grid; None where a line does not parse. */
  method Part1(input: string) returns (r: Option<nat>)
    ensures r.None? <==> Text.ParseEach(Text.Lines(input), ParseRobot).None?
    ensures r.Some? ==> (r.value ==
      Factor(PositionsAfter(Text.ParseEach(Text.Lines(input), ParseRobot).value, 100, PuzzleGrid), PuzzleGrid))
  {
    match Text.ParseEach(Text.Lines(input), ParseRobot)
    case None =>
      return None;
    case Some(robots) =>
      var factor := SafetyFactor(PositionsAfter(robots, 100, PuzzleGrid), PuzzleGrid);
      return Some(factor);
  }

  /** The robot of the test, at (2, 4) moving by (2, -3) on the 11 by 7
      grid, over its first five seconds. */
  lemma ExamplePositions()
    ensures var robot := Robot((2, 4), (2, -3));
      PositionAfter(robot, 1, ExampleGrid) == (4, 1) &&
      PositionAfter(robot, 2, ExampleGrid) == (6, 5) &&
      PositionAfter(robot, 3, ExampleGrid) == (8, 2) &&
      PositionAfter(robot, 4, ExampleGrid) == (10, 6) &&
      PositionAfter(robot, 5, ExampleGrid) == (1, 3)
  {
  }

  /** The position and velocity halves of the parsing test ... */
  lemma ExampleHalves()
    ensures Text.SplitOnce("p=7,6 v=-1,-3", " ") == Some(("p=7,6", "v=-1,-3"))
  {
    var line := "p=7,6 v=-1,-3";
    assert line[0..1] == "p" && line[1..2] == "=" && line[2..3] == "7" && line[3..4] == ",";
    assert line[4..5] == "6" && line[5..6] == " ";
    assert Text.FindFrom(line, " ", 0) == Some(5);
    assert line[..5] == "p=7,6" && line[6..] == "v=-1,-3";
  }

  /** ... what follows their `=` signs ... */
  lemma ExampleSplit()
    ensures Text.SplitOnce("p=7,6", "=") == Some(("p", "7,6"))
    ensures Text.SplitOnce("v=-1,-3", "=") == Some(("v", "-1,-3"))
  {
    var p, v := "p=7,6", "v=-1,-3";
    assert p[0..1] == "p" && p[1..2] == "=" && Text.FindFrom(p, "=", 0) == Some(1);
    assert p[..1] == "p" && p[2..] == "7,6";
    assert v[0..1] == "v" && v[1..2] == "=" && Text.FindFrom(v, "=", 0) == Some(1);
    assert v[..1] == "v" && v[2..] == "-1,-3";
  }

  /** ... the numbers they hold ... */
  lemma ExampleNumbers()
    ensures Text.ParseNat("7") == Some(7) && Text.ParseNat("6") == Some(6)
    ensures Text.ParseInt("-1") == Some(-1) && Text.ParseInt("-3") == Some(-3)
  {
    assert Text.DigitsFrom("-1", 1, 0) == Some(1) && Text.DigitsFrom("-3", 1, 0) == Some(3);
  }

  /** ... the coordinates after them ... */
  lemma ExampleCoordinates()
    ensures Text.SplitOnce("7,6", ",") == Some(("7", "6"))
    ensures Text.SplitOnce("-1,-3", ",") == Some(("-1", "-3"))
  {
    var p, v := "7,6", "-1,-3";
    assert p[0..1] == "7" && p[1..2] == "," && Text.FindFrom(p, ",", 0) == Some(1);
    assert p[..1] == "7" && p[2..] == "6";
    assert v[0..1] == "-" && v[1..2] == "1" && v[2..3] == "," && Text.FindFrom(v, ",", 0) == Some(2);
    assert v[..2] == "-1" && v[3..] == "-3";
  }

  /** ... the robot those coordinates make ... */
  lemma ExampleRobot()
    ensures ParseCoordinates(Fields("p", "7", "6", "v", "-1", "-3")) == Some(Robot((7, 6), (-1, -3)))
  {
    ExampleCoordinates();
    ExampleNumbers();
  }

  /** ... and so the robot the line makes: at (7, 6), moving by (-1, -3). */
  lemma ExampleParse()
    ensures ParseRobot("p=7,6 v=-1,-3") == Some(Robot((7, 6), (-1, -3)))
  {
    var f := Fields("p", "7", "6", "v", "-1", "-3");
    assert "p=7,6 v=-1,-3" == PositionText(f) + " " + VelocityText(f);
    FieldsUnique("p=7,6 v=-1,-3", f);
    ExampleRobot();
  }
}
