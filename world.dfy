/**
 * The simulated grid world (gridsim/world.py).
 *
 * A world owns its grid dimensions, its robots, its environment, a tick counter
 * and the tag overlay. `Step` updates every robot, runs the broadcast pass and
 * advances the clock by one tick.
 */
module Worlds {
  import opened Wrappers
  import opened Kinds
  import opened Messages
  import opened Environments
  import opened Communication
  import opened Tags
  import GridRobots

  /** `add_to_world` as the world sees it: the robot is bound to the grid and the current environment. */
  function Bind(r: RobotState, w: nat, h: nat, env: Environment): RobotState
  {
    r.(dims := Some((w, h)), env := Some(env))
  }

  /** Where the robot with the given id sits in the world, if it is there. */
  function IndexOf(rs: seq<RobotState>, id: int): (k: Option<nat>)
    ensures k.Some? ==> k.value < |rs| && rs[k.value].id == id
    ensures k.None? ==> forall j :: 0 <= j < |rs| ==> rs[j].id != id
  {
    if rs == [] then None
    else if rs[|rs| - 1].id == id then Some(|rs| - 1)
    else IndexOf(rs[..|rs| - 1], id)
  }

  /**
   * `add_robot(robot)`: the robot group is a set, so a robot already in the world is
   * not added again and keeps its state; either way it is then bound to the world.
   */
  function Added(rs: seq<RobotState>, r: RobotState, w: nat, h: nat, env: Environment): (out: seq<RobotState>)
    ensures |out| == |rs| + (if IndexOf(rs, r.id).None? then 1 else 0)
    ensures DistinctIds(rs) ==> DistinctIds(out)
    ensures IndexOf(rs, r.id).None? ==> out[|rs|] == Bind(r, w, h, env)
    ensures IndexOf(rs, r.id).Some? ==>
              var k := IndexOf(rs, r.id).value; out[k] == Bind(rs[k], w, h, env)
    ensures forall k :: 0 <= k < |rs| && rs[k].id != r.id ==> out[k] == rs[k]
    ensures exists k :: 0 <= k < |out| && out[k].id == r.id && out[k].dims == Some((w, h)) && out[k].env == Some(env)
  {
    match IndexOf(rs, r.id)
    case Some(k) =>
      var out := rs[k := Bind(rs[k], w, h, env)];
      assert out[k].id == r.id;
      out
    case None =>
      var out := rs + [Bind(r, w, h, env)];
      assert out[|rs|] == Bind(r, w, h, env);
      out
  }

  /** Adding a robot that is already in the world, and already bound to it, changes nothing. */
  lemma ReAddChangesNothing(rs: seq<RobotState>, r: RobotState, w: nat, h: nat, env: Environment)
    requires IndexOf(rs, r.id).Some?
    requires forall k :: 0 <= k < |rs| ==> rs[k].dims == Some((w, h)) && rs[k].env == Some(env)
    ensures Added(rs, r, w, h, env) == rs
  {
  }

  /** Adding robots one after the other, as the constructor does with its `robots` list. */
  function AddedAll(rs: seq<RobotState>, more: seq<RobotState>, w: nat, h: nat, env: Environment): seq<RobotState>
  {
    if more == [] then rs
    else Added(AddedAll(rs, more[..|more| - 1], w, h, env), more[|more| - 1], w, h, env)
  }

  /** A robot after its `update()`; the engine keeps its id, its kind and its binding. */
  function Apply(update: RobotState -> RobotState, r: RobotState): RobotState
  {
    update(r).(id := r.id, kind := r.kind, dims := r.dims, env := r.env)
  }

  function Updated(rs: seq<RobotState>, update: RobotState -> RobotState): (out: seq<RobotState>)
    ensures |out| == |rs|
    ensures forall k :: 0 <= k < |rs| ==> out[k] == Apply(update, rs[k])
  {
    seq(|rs|, k requires 0 <= k < |rs| => Apply(update, rs[k]))
  }

  class World {
    const width: nat
    const height: nat
    const allowCollisions: bool
    /** `_tagged_pos`: one RGBA cell per grid cell, indexed `[y, x]`. */
    const tagged: array2<Rgba>
    var robots: seq<RobotState>
    var tick: nat
    var environment: Environment

    predicate Valid()
      reads this
    {
      && tagged.Length0 == height && tagged.Length1 == width
      && FieldOk(environment.field)
      && (environment.field.ImageField? ==> environment.field.width == width && environment.field.height == height)
      && DistinctIds(robots)
      && forall k :: 0 <= k < |robots| ==> robots[k].dims == Some((width, height)) && robots[k].env == Some(environment)
    }

    /** The tag overlay as a grid of rows. */
    function Overlay(): (g: seq<seq<Rgba>>)
      reads tagged
      ensures IsGrid(g, tagged.Length1, tagged.Length0)
      ensures forall y, x :: 0 <= y < tagged.Length0 && 0 <= x < tagged.Length1 ==> g[y][x] == tagged[y, x]
    {
      seq(tagged.Length0, y requires 0 <= y < tagged.Length0 reads tagged =>
        seq(tagged.Length1, x requires 0 <= x < tagged.Length1 reads tagged => tagged[y, x]))
    }

    /**
     * `World(width, height, robots, environment, allow_collisions)`, given the environment
     * image already scaled to the grid: the clock is at 0, no cell is tagged, and the
     * robots are added in order after the environment is set.
     */
    constructor (width: nat, height: nat, initial: seq<RobotState> := [],
                 image: Option<seq<seq<RGB>>> := None, allowCollisions: bool := true)
      requires image.Some? ==> IsImage(image.value, width, height)
      ensures Valid()
      ensures this.width == width && this.height == height && this.allowCollisions == allowCollisions
      ensures tick == 0
      ensures fresh(tagged) && Overlay() == Blank(width, height)
      ensures fresh(environment) && !environment.isInViewer && HasNewEnvironment()
      ensures environment.field == if image.Some? then ImageField(width, height, image.value) else NoField
      ensures robots == AddedAll([], initial, width, height, environment)
    {
      this.width := width;
      this.height := height;
      this.allowCollisions := allowCollisions;
      tagged := new Rgba[height, width]((y, x) => Untagged);
      robots := [];
      tick := 0;
      var env := new Environment.Null();
      environment := env;
      new;
      GridsEqual(Overlay(), Blank(width, height), width, height);
      if image.Some? {
        AddEnvironment(image.value);
      }
      AddRobots(initial);
    }

    /** The constructor's `[self.add_robot(r) for r in robots]`. */
    method AddRobots(more: seq<RobotState>)
      requires Valid()
      modifies this`robots
      ensures Valid()
      ensures robots == AddedAll(old(robots), more, width, height, environment)
    {
      var i := 0;
      while i < |more|
        invariant 0 <= i <= |more|
        invariant Valid()
        invariant robots == AddedAll(old(robots), more[..i], width, height, environment)
      {
        assert more[..i + 1][..i] == more[..i];
        AddRobot(more[i]);
        i := i + 1;
      }
      assert more[..i] == more;
    }

    /** `add_robot(robot)`. */
    method AddRobot(r: RobotState)
      requires Valid()
      modifies this`robots
      ensures Valid()
      ensures robots == Added(old(robots), r, width, height, environment)
      ensures IndexOf(old(robots), r.id).Some? ==> robots == old(robots)
    {
      var k := IndexOf(robots, r.id);
      if k.Some? {
        robots := robots[k.value := Bind(robots[k.value], width, height, environment)];
        ReAddChangesNothing(old(robots), r, width, height, environment);
      } else {
        robots := robots + [Bind(r, width, height, environment)];
      }
    }

    /**
     * `add_environment(image)`: a fresh image environment replaces the old one, and every
     * robot in the world now refers to it; nothing else about the robots changes.
     */
    method AddEnvironment(image: seq<seq<RGB>>)
      requires Valid() && IsImage(image, width, height)
      modifies this
      ensures Valid()
      ensures fresh(environment) && environment.field == ImageField(width, height, image) && !environment.isInViewer
      ensures HasNewEnvironment()
      ensures |robots| == |old(robots)|
      ensures forall k :: 0 <= k < |robots| ==> robots[k] == old(robots[k]).(env := Some(environment))
      ensures tick == old(tick)
    {
      var env := new Environment.Image(image, width, height);
      environment := env;
      var i := 0;
      while i < |robots|
        invariant 0 <= i <= |robots| == |old(robots)|
        invariant environment == env && tick == old(tick) && !env.isInViewer
        invariant forall k :: 0 <= k < i ==> robots[k] == old(robots[k]).(env := Some(env))
        invariant forall k :: i <= k < |robots| ==> robots[k] == old(robots[k])
      {
        robots := robots[i := robots[i].(env := Some(env))];
        i := i + 1;
      }
    }

    /**
     * `_communicate()`: every robot's inbox gains exactly the deliveries addressed to it
     * and every sender gets one ack per robot it reached (see `Communication`).
     */
    method Communicate()
      requires Valid()
      modifies this`robots
      ensures Valid()
      ensures robots == Communicated(old(robots))
    {
      // Only inboxes and ack counters change during the pass, so the positions,
      // messages and criteria are read from the robots as they were at its start.
      var rs := robots;
      PartwayStart(rs);
      var current := rs;
      var tx := 0;
      while tx < |rs|
        invariant 0 <= tx <= |rs| && current == Partway(rs, tx, 0)
      {
        if Truthy(rs[tx].txMsg) {
          current := Broadcast(rs, tx, current);
          PartwayNext(rs, tx);
        } else {
          PartwaySilent(rs, tx);
        }
        tx := tx + 1;
      }
      PartwayDone(rs);
      robots := current;
    }

    /**
     * `has_new_environment()`: the environment has not been handed to a viewer yet.
     * The constructor and `AddEnvironment` leave it true; the viewer's `add_to_viewer`
     * on the environment makes it false.
     */
    function HasNewEnvironment(): (b: bool)
      reads this, environment
      ensures b <==> !environment.isInViewer
    {
      !environment.isInViewer
    }

    /**
     * `step()`: every robot runs its `update()`, then the broadcast pass runs on the
     * updated robots, then the clock advances by exactly one tick.
     */
    method Step(update: RobotState -> RobotState)
      requires Valid()
      modifies this`robots, this`tick
      ensures Valid()
      ensures robots == Communicated(Updated(old(robots), update))
      ensures tick == old(tick) + 1
    {
      var i := 0;
      while i < |robots|
        invariant 0 <= i <= |robots| == |old(robots)|
        invariant tick == old(tick)
        invariant forall k :: 0 <= k < |robots| ==>
                    robots[k] == if k < i then Apply(update, old(robots[k])) else old(robots[k])
      {
        robots := robots[i := Apply(update, robots[i])];
        i := i + 1;
      }
      assert robots == Updated(old(robots), update);
      Communicate();
      tick := tick + 1;
    }

    /**
     * `get_time()`: the number of ticks since the world was created; the constructor
     * sets it to 0 and each `Step` adds exactly one.
     */
    function GetTime(): (t: nat)
      reads this
      ensures t == tick
    {
      tick
    }

    /** `get_dimensions()`: the width and height, which are also the overlay's shape. */
    function GetDimensions(): (d: (nat, nat))
      reads this
      requires Valid()
      ensures d == (tagged.Length1, tagged.Length0)
    {
      (width, height)
    }

    /**
     * `tag(pos, color)`: only the addressed cell of the overlay changes, and an invalid
     * colour or an out-of-bounds position raises and changes nothing (see `TagGrid`).
     */
    method Tag(x: int, y: int, color: Option<seq<int>>) returns (r: Outcome<TagError>)
      requires Valid()
      requires color.None? ==> InBounds(width, height, x, y)
      modifies tagged
      ensures TagGrid(old(Overlay()), width, height, x, y, color).Success? ==>
                r == Pass && Overlay() == TagGrid(old(Overlay()), width, height, x, y, color).value
      ensures TagGrid(old(Overlay()), width, height, x, y, color).Failure? ==>
                r == Fail(TagGrid(old(Overlay()), width, height, x, y, color).error) && Overlay() == old(Overlay())
    {
      ghost var before := Overlay();
      match color {
        case None =>
          tagged[y, x] := Untagged;
          r := Pass;
        case Some(c) =>
          if !(|c| == 3 && 0 <= c[0] <= 255 && 0 <= c[1] <= 255 && 0 <= c[2] <= 255) {
            r := Fail(InvalidColor);
          } else if !(0 <= x < width && 0 <= y < height) {
            r := Fail(OutOfBounds);
          } else {
            tagged[y, x] := Rgba(c[0] as byte, c[1] as byte, c[2] as byte, 255);
            r := Pass;
          }
      }
      var result := TagGrid(before, width, height, x, y, color);
      if result.Success? {
        GridsEqual(Overlay(), result.value, width, height);
      } else {
        GridsEqual(Overlay(), before, width, height);
      }
    }

    /** `count_tags()`: the number of tagged cells, never more than the grid has, and zero exactly when none is tagged. */
    function CountTags(): (n: nat)
      reads this, tagged
      requires Valid()
      ensures n <= width * height
      ensures n == 0 <==> forall y, x :: 0 <= y < height && 0 <= x < width ==> !IsTagged(tagged[y, x])
    {
      CountBound(Overlay(), width, height);
      CountZero(Overlay());
      Count(Overlay())
    }
  }

  /**
   * The inner loop of `_communicate()`: robot `tx` offers its message to every robot in
   * turn, given the robots as they were when the pass started and as they are now.
   */
  method Broadcast(rs: seq<RobotState>, tx: nat, current: seq<RobotState>) returns (next: seq<RobotState>)
    requires tx < |rs| && Truthy(rs[tx].txMsg) && current == Partway(rs, tx, 0)
    ensures next == Partway(rs, tx, |rs|)
  {
    var msg := rs[tx].txMsg;
    next := current;
    var rx := 0;
    while rx < |rs|
      invariant 0 <= rx <= |rs| && next == Partway(rs, tx, rx)
    {
      if tx != rx && IsSubKind(rs[rx].kind, msg.rxType.value) {
        var dist := DistSqr(rs[tx].pos, rs[rx].pos);
        if rs[tx].accepts(dist) && rs[rx].accepts(dist) {
          PartwayStepDelivers(rs, tx, rx);
          // receive_msg on the receiver, then msg_received on the sender
          next := next[rx := next[rx].(inbox := next[rx].inbox + [Delivery(rs[tx].id, msg, dist)])];
          next := next[tx := next[tx].(acks := next[tx].acks + 1)];
        } else {
          PartwayStepSkips(rs, tx, rx);
        }
      } else {
        PartwayStepSkips(rs, tx, rx);
      }
      rx := rx + 1;
    }
  }

  /**
   * A pair of `GridRobot`s: when both robots' `comm_criteria` are those of `GridRobot`,
   * a non-null broadcast reaches the other robot of the right kind exactly when the
   * squared distance is within both squared ranges.
   */
  lemma GridRobotsReachWithinRange(rs: seq<RobotState>, tx: nat, rx: nat, gTx: GridRobots.GridRobot, gRx: GridRobots.GridRobot)
    requires tx < |rs| && rx < |rs|
    requires forall d :: rs[tx].accepts(d) == gTx.CommCriteria(d)
    requires forall d :: rs[rx].accepts(d) == gRx.CommCriteria(d)
    requires Truthy(rs[tx].txMsg) && tx != rx && IsSubKind(rs[rx].kind, rs[tx].txMsg.rxType.value)
    ensures Delivers(rs, tx, rx) <==>
              && DistSqr(rs[tx].pos, rs[rx].pos) as real <= gTx.commRange * gTx.commRange
              && DistSqr(rs[tx].pos, rs[rx].pos) as real <= gRx.commRange * gRx.commRange
  {
  }

  /** A new world's clock reads 0 and every step advances it by exactly one tick. */
  method ClockScenario()
  {
    var w := new World(8, 6);
    assert w.GetTime() == 0 && w.HasNewEnvironment();
    w.Step(r => r);
    assert w.GetTime() == 1;
    w.Step((r: RobotState) => r.(pos := (r.pos.0 + 1, r.pos.1)));
    assert w.GetTime() == 2;
  }

  /**
   * Tagging (2, 2) of a 5 x 5 world with (10, 20, 30) counts one tag and leaves the
   * neighbours alone; clearing it again brings the count back to 0.
   */
  method TagScenario()
  {
    var w := new World(5, 5);
    var g0 := w.Overlay();
    var n := w.CountTags();
    assert n == 0;

    var r := w.Tag(2, 2, Some([10, 20, 30]));
    TagUntaggedCountsOne(g0, 5, 5, 2, 2, [10, 20, 30]);
    assert r == Pass;
    assert w.tagged[2, 2] == Rgba(10, 20, 30, 255);
    assert w.tagged[2, 3] == Untagged && w.tagged[1, 2] == Untagged;
    n := w.CountTags();
    assert n == 1;

    var g1 := w.Overlay();
    r := w.Tag(2, 2, None);
    ClearCount(g1, 5, 5, 2, 2);
    assert r == Pass && !IsTagged(w.tagged[2, 2]);
    n := w.CountTags();
    assert n == 0;
  }

  /** A bad colour raises whatever the position, and a good colour outside the world raises too: nothing is tagged. */
  method TagErrorScenario()
  {
    var w := new World(5, 5);
    var r := w.Tag(5, 0, Some([1, 2, 3]));
    assert r == Fail(OutOfBounds);
    r := w.Tag(0, 0, Some([256, 0, 0]));
    assert r == Fail(InvalidColor);
    r := w.Tag(9, 9, Some([1, 2]));
    assert r == Fail(InvalidColor);
    var n := w.CountTags();
    assert n == 0;
  }
}
