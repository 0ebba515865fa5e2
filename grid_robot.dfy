/**
 * A robot that moves along the four cardinal directions (gridsim/grid_robot.py).
 *
 * Its movement command is one of five direction names and persists until it is
 * changed; `Move` only computes the cell the robot wants to go to. Two robots
 * may talk when the squared distance between them is at most the square of the
 * communication range.
 */
module GridRobots {
  import opened Wrappers

  const Stay: string := "stay"
  const Up: string := "up"
  const Down: string := "down"
  const Left: string := "left"
  const Right: string := "right"

  /** `GridRobot.DIRS`: the accepted movement commands. */
  const Dirs: seq<string> := [Stay, Up, Down, Left, Right]

  datatype DirError = InvalidDirection(dir: string)   // ValueError from set_direction

  /**
   * The text of the `ValueError` as the source builds it: the literal has no `f`
   * prefix, so `{dir}` is never replaced by the offending direction.
   */
  function ErrorTextAsWritten(e: DirError): string
  {
    "Invalid movement direction \"{dir}\""
  }

  /** The as-written text is the same whatever direction was refused. */
  lemma ErrorTextAsWrittenLosesDirection(d1: string, d2: string)
    ensures ErrorTextAsWritten(InvalidDirection(d1)) == ErrorTextAsWritten(InvalidDirection(d2))
  {
  }

  const ErrorPrefix: string := "Invalid movement direction \""

  /** The text the message evidently means: the refused direction, quoted. */
  function ErrorText(e: DirError): (t: string)
    ensures |t| == |ErrorPrefix| + |e.dir| + 1
    ensures t[..|ErrorPrefix|] == ErrorPrefix && t[|ErrorPrefix|..|t| - 1] == e.dir && t[|t| - 1] == '"'
  {
    ErrorPrefix + e.dir + "\""
  }

  /** Different refused directions give different messages. */
  lemma ErrorTextNamesDirection(a: DirError, b: DirError)
    requires a != b
    ensures ErrorText(a) != ErrorText(b)
  {
  }

  /** The command that leads from `p` to `q`, if `q` is `p` or one of its four neighbours. */
  function DirectionBetween(p: (int, int), q: (int, int)): Option<string>
  {
    if q == p then Some(Stay)
    else if q == (p.0, p.1 - 1) then Some(Up)
    else if q == (p.0, p.1 + 1) then Some(Down)
    else if q == (p.0 + 1, p.1) then Some(Right)
    else if q == (p.0 - 1, p.1) then Some(Left)
    else None
  }

  function Abs(n: int): nat
  {
    if n < 0 then -n else n
  }

  class GridRobot {
    /** The robot's id: 32 random bits in the source, handed in here. */
    const id: nat
    var x: int
    var y: int
    const commRange: real
    var moveCmd: string

    predicate Valid()
      reads this
    {
      moveCmd in Dirs
    }

    /** `GridRobot(x, y, comm_range=5)`: the robot starts out staying where it is. */
    constructor (id: nat, x: int, y: int, commRange: real := 5.0)
      requires id < 0x1_0000_0000
      ensures Valid()
      ensures this.id == id && this.x == x && this.y == y && this.commRange == commRange
      ensures moveCmd == Stay
    {
      this.id := id;
      this.x := x;
      this.y := y;
      this.commRange := commRange;
      moveCmd := Stay;
    }

    /** `set_direction(dir)`: a listed direction becomes the command; anything else is refused and changes nothing. */
    method SetDirection(dir: string) returns (r: Outcome<DirError>)
      requires Valid()
      modifies this`moveCmd
      ensures Valid()
      ensures dir in Dirs ==> r == Pass && moveCmd == dir
      ensures dir !in Dirs ==> r == Fail(InvalidDirection(dir)) && moveCmd == old(moveCmd)
    {
      if dir in Dirs {
        moveCmd := dir;
        r := Pass;
      } else {
        r := Fail(InvalidDirection(dir));
      }
    }

    /** `move()`: the target cell is at most one cardinal step away, and is the current cell exactly when staying. */
    function Move(): (t: (int, int))
      reads this
      requires Valid()
      ensures Abs(t.0 - x) + Abs(t.1 - y) <= 1
      ensures t == (x, y) <==> moveCmd == Stay
      ensures DirectionBetween((x, y), t) == Some(moveCmd)
    {
      if moveCmd == Up then (x, y - 1)
      else if moveCmd == Down then (x, y + 1)
      else if moveCmd == Right then (x + 1, y)
      else if moveCmd == Left then (x - 1, y)
      else (x, y)
    }

    /** `comm_criteria(dist_sqr)`: within range when the squared distance is at most the squared range. */
    predicate CommCriteria(distSqr: int)
      ensures distSqr <= 0 ==> CommCriteria(distSqr)
    {
      distSqr as real <= commRange * commRange
    }
  }

  /** The target of each command: up and down change y, right and left change x. */
  lemma MoveTargets(r: GridRobot)
    requires r.Valid()
    ensures r.moveCmd == Up ==> r.Move() == (r.x, r.y - 1)
    ensures r.moveCmd == Down ==> r.Move() == (r.x, r.y + 1)
    ensures r.moveCmd == Right ==> r.Move() == (r.x + 1, r.y)
    ensures r.moveCmd == Left ==> r.Move() == (r.x - 1, r.y)
    ensures r.moveCmd == Stay ==> r.Move() == (r.x, r.y)
  {
  }

  /** Different commands lead to different cells: the target determines the command. */
  lemma MoveInjective(r: GridRobot, s: GridRobot)
    requires r.Valid() && s.Valid()
    requires (r.x, r.y) == (s.x, s.y) && r.Move() == s.Move()
    ensures r.moveCmd == s.moveCmd
  {
  }

  /** `comm_criteria` is a distance threshold: accepting a distance means accepting every smaller one. */
  lemma CommCriteriaMonotone(r: GridRobot, d1: int, d2: int)
    requires d1 <= d2 && r.CommCriteria(d2)
    ensures r.CommCriteria(d1)
  {
  }

  /** The default range of 5 accepts a squared distance of 25 and refuses 26. */
  lemma DefaultRangeThreshold(r: GridRobot)
    requires r.commRange == 5.0
    ensures r.CommCriteria(25) && !r.CommCriteria(26)
  {
  }

  /** A command persists: moving changes nothing, and a refused command leaves the old one in force. */
  method DirectionScenario(r: GridRobot)
    requires r.Valid()
    modifies r
  {
    var ok := r.SetDirection(Up);
    assert ok == Pass;
    var first := r.Move();
    var second := r.Move();
    assert first == second == (r.x, r.y - 1);
    var refused := r.SetDirection("north");
    assert refused.Fail? && r.moveCmd == Up;
  }
}
