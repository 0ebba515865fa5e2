/**
 * The pairwise broadcast pass of a world tick (`World._communicate` in gridsim/world.py),
 * stated over robots as values.
 *
 * For every ordered pair (transmitter, receiver) of distinct robots, the transmitter's
 * message reaches the receiver when the message is not null, the receiver is of the
 * message's receiver kind, and both robots' `comm_criteria` accept the squared distance
 * between them. Each delivery is one `receive_msg` call on the receiver and one
 * `msg_received` call on the transmitter.
 */
module Communication {
  import opened Counting
  import opened Wrappers
  import opened Kinds
  import opened Messages
  import opened Environments

  type Pos = (int, int)

  /** One `receive_msg(msg, dist)` call, noted with the id of the robot whose broadcast it delivered. */
  datatype Delivery = Delivery(from: int, msg: ValidMsg, distSqr: int)

  /**
   * A robot as the world sees it. `accepts` is its `comm_criteria`; `inbox` and `acks`
   * record the `receive_msg` and `msg_received` calls it has had; `dims` and `env` are
   * what `add_to_world` and `add_environment` bind it to.
   */
  datatype RobotState = RobotState(
    id: int,
    kind: Kind,
    pos: Pos,
    txMsg: ValidMsg,
    accepts: int -> bool,
    inbox: seq<Delivery>,
    acks: nat,
    dims: Option<(nat, nat)>,
    env: Option<Environment>)

  /** Squared Euclidean distance between two cells. */
  function DistSqr(p: Pos, q: Pos): int
  {
    (p.0 - q.0) * (p.0 - q.0) + (p.1 - q.1) * (p.1 - q.1)
  }

  /** Robots are told apart by their ids. */
  predicate DistinctIds(rs: seq<RobotState>)
  {
    forall a, b :: 0 <= a < |rs| && 0 <= b < |rs| && a != b ==> rs[a].id != rs[b].id
  }

  /** Whether the pass delivers the broadcast of robot `tx` to robot `rx`. */
  predicate Delivers(rs: seq<RobotState>, tx: nat, rx: nat)
    requires tx < |rs| && rx < |rs|
  {
    var m := rs[tx].txMsg;
    var d := DistSqr(rs[tx].pos, rs[rx].pos);
    && Truthy(m)
    && tx != rx
    && IsSubKind(rs[rx].kind, m.rxType.value)
    && rs[tx].accepts(d)
    && rs[rx].accepts(d)
  }

  /** The `receive_msg` call a delivery from `tx` to `rx` makes. */
  function DeliveryOf(rs: seq<RobotState>, tx: nat, rx: nat): Delivery
    requires tx < |rs| && rx < |rs|
  {
    Delivery(rs[tx].id, rs[tx].txMsg, DistSqr(rs[tx].pos, rs[rx].pos))
  }

  /** The deliveries `rx` gets from the transmitters `0 .. n-1`, in transmitter order. */
  function InboundFrom(rs: seq<RobotState>, rx: nat, n: nat): seq<Delivery>
    requires rx < |rs| && n <= |rs|
  {
    if n == 0 then []
    else InboundFrom(rs, rx, n - 1) + (if Delivers(rs, n - 1, rx) then [DeliveryOf(rs, n - 1, rx)] else [])
  }

  /** How many of the receivers `0 .. n-1` the broadcast of `tx` reaches. */
  function ReceiverCount(rs: seq<RobotState>, tx: nat, n: nat): nat
    requires tx < |rs| && n <= |rs|
  {
    if n == 0 then 0
    else ReceiverCount(rs, tx, n - 1) + (if Delivers(rs, tx, n - 1) then 1 else 0)
  }

  /** The robots after the pass: every inbox gains its deliveries and every sender one ack per receiver. */
  function Communicated(rs: seq<RobotState>): (out: seq<RobotState>)
    ensures |out| == |rs|
    ensures forall k :: 0 <= k < |rs| ==>
              out[k] == rs[k].(inbox := rs[k].inbox + InboundFrom(rs, k, |rs|),
                               acks := rs[k].acks + ReceiverCount(rs, k, |rs|))
  {
    seq(|rs|, k requires 0 <= k < |rs| =>
      rs[k].(inbox := rs[k].inbox + InboundFrom(rs, k, |rs|),
             acks := rs[k].acks + ReceiverCount(rs, k, |rs|)))
  }

  /**
   * The robots part-way through the pass: the transmitters before `tx` are done, and
   * `tx` has been tried against the receivers before `rx`.
   */
  function Partway(rs: seq<RobotState>, tx: nat, rx: nat): (out: seq<RobotState>)
    requires tx <= |rs| && rx <= |rs|
    ensures |out| == |rs|
  {
    seq(|rs|, k requires 0 <= k < |rs| => PartwayAt(rs, tx, rx, k))
  }

  /** Robot `k` part-way through the pass. */
  function PartwayAt(rs: seq<RobotState>, tx: nat, rx: nat, k: nat): RobotState
    requires tx <= |rs| && rx <= |rs| && k < |rs|
  {
    rs[k].(
      inbox := rs[k].inbox + InboundFrom(rs, k, tx)
               + (if tx < |rs| && k < rx && Delivers(rs, tx, k) then [DeliveryOf(rs, tx, k)] else []),
      acks := rs[k].acks + (if k < tx then ReceiverCount(rs, k, |rs|) else 0)
              + (if k == tx then ReceiverCount(rs, tx, rx) else 0))
  }

  lemma PartwayStart(rs: seq<RobotState>)
    ensures Partway(rs, 0, 0) == rs
  {
    var p := Partway(rs, 0, 0);
    forall k | 0 <= k < |rs|
      ensures p[k] == rs[k]
    {
      assert InboundFrom(rs, k, 0) == [];
      assert rs[k].inbox + [] + [] == rs[k].inbox;
      assert k == 0 ==> ReceiverCount(rs, 0, 0) == 0;
    }
  }

  /** Trying `tx` against a receiver it reaches adds that delivery and one ack. */
  lemma PartwayStepDelivers(rs: seq<RobotState>, tx: nat, rx: nat)
    requires tx < |rs| && rx < |rs| && Delivers(rs, tx, rx)
    ensures var p := Partway(rs, tx, rx);
            var p1 := p[rx := p[rx].(inbox := p[rx].inbox + [DeliveryOf(rs, tx, rx)])];
            Partway(rs, tx, rx + 1) == p1[tx := p1[tx].(acks := p1[tx].acks + 1)]
  {
    var p, q := Partway(rs, tx, rx), Partway(rs, tx, rx + 1);
    var p1 := p[rx := p[rx].(inbox := p[rx].inbox + [DeliveryOf(rs, tx, rx)])];
    var p2 := p1[tx := p1[tx].(acks := p1[tx].acks + 1)];
    forall k | 0 <= k < |rs|
      ensures q[k] == p2[k]
    {
      PartwayStepAt(rs, tx, rx, k);
    }
    assert |q| == |p2|;
  }

  /** Trying `tx` against a receiver it does not reach changes nothing. */
  lemma PartwayStepSkips(rs: seq<RobotState>, tx: nat, rx: nat)
    requires tx < |rs| && rx < |rs| && !Delivers(rs, tx, rx)
    ensures Partway(rs, tx, rx + 1) == Partway(rs, tx, rx)
  {
    var p, q := Partway(rs, tx, rx), Partway(rs, tx, rx + 1);
    forall k | 0 <= k < |rs|
      ensures q[k] == p[k]
    {
      PartwayStepAt(rs, tx, rx, k);
    }
    assert |q| == |p|;
  }

  lemma PartwayStepAt(rs: seq<RobotState>, tx: nat, rx: nat, k: nat)
    requires tx < |rs| && rx < |rs| && k < |rs|
    ensures var p, q := Partway(rs, tx, rx), Partway(rs, tx, rx + 1);
            q[k].id == p[k].id && q[k].kind == p[k].kind && q[k].pos == p[k].pos
            && q[k].txMsg == p[k].txMsg && q[k].accepts == p[k].accepts
            && q[k].dims == p[k].dims && q[k].env == p[k].env
            && q[k].inbox == p[k].inbox + (if k == rx && Delivers(rs, tx, rx) then [DeliveryOf(rs, tx, rx)] else [])
            && q[k].acks == p[k].acks + (if k == tx && Delivers(rs, tx, rx) then 1 else 0)
  {
    var p, q := Partway(rs, tx, rx), Partway(rs, tx, rx + 1);
    if k == rx {
      assert !Delivers(rs, tx, tx);
    }
    if k == tx {
      assert ReceiverCount(rs, tx, rx + 1)
               == ReceiverCount(rs, tx, rx) + (if Delivers(rs, tx, rx) then 1 else 0);
    }
  }

  /** Once `tx` has been tried against every receiver, the next transmitter starts. */
  lemma PartwayNext(rs: seq<RobotState>, tx: nat)
    requires tx < |rs|
    ensures Partway(rs, tx, |rs|) == Partway(rs, tx + 1, 0)
  {
    var p, q := Partway(rs, tx, |rs|), Partway(rs, tx + 1, 0);
    forall k | 0 <= k < |rs|
      ensures p[k] == q[k]
    {
      PartwayNextAt(rs, tx, k);
    }
    assert |p| == |q|;
  }

  lemma PartwayNextAt(rs: seq<RobotState>, tx: nat, k: nat)
    requires tx < |rs| && k < |rs|
    ensures Partway(rs, tx, |rs|)[k] == Partway(rs, tx + 1, 0)[k]
  {
    var p, q := Partway(rs, tx, |rs|), Partway(rs, tx + 1, 0);
    var extra := if Delivers(rs, tx, k) then [DeliveryOf(rs, tx, k)] else [];
    assert InboundFrom(rs, k, tx + 1) == InboundFrom(rs, k, tx) + extra;
    assert p[k].inbox == rs[k].inbox + InboundFrom(rs, k, tx) + extra;
    assert q[k].inbox == rs[k].inbox + InboundFrom(rs, k, tx + 1) + [];
    assert tx + 1 < |rs| ==> ReceiverCount(rs, tx + 1, 0) == 0;
  }

  /** A transmitter with the null message is skipped without effect. */
  lemma PartwaySilent(rs: seq<RobotState>, tx: nat)
    requires tx < |rs| && !Truthy(rs[tx].txMsg)
    ensures Partway(rs, tx, 0) == Partway(rs, tx + 1, 0)
  {
    SilentSenderReachesNone(rs, tx, |rs|);
    var p, q := Partway(rs, tx, 0), Partway(rs, tx + 1, 0);
    forall k | 0 <= k < |rs|
      ensures p[k] == q[k]
    {
      assert !Delivers(rs, tx, k);
      assert InboundFrom(rs, k, tx + 1) == InboundFrom(rs, k, tx);
    }
  }

  lemma PartwayDone(rs: seq<RobotState>)
    ensures Partway(rs, |rs|, 0) == Communicated(rs)
  {
    var p, c := Partway(rs, |rs|, 0), Communicated(rs);
    forall k | 0 <= k < |rs|
      ensures p[k] == c[k]
    {
      assert rs[k].inbox + InboundFrom(rs, k, |rs|) + [] == rs[k].inbox + InboundFrom(rs, k, |rs|);
    }
  }

  /** How many of the deliveries `ds` carry the broadcast of robot `id`. */
  function CountFrom(ds: seq<Delivery>, id: int): nat
  {
    if ds == [] then 0
    else CountFrom(ds[..|ds| - 1], id) + (if ds[|ds| - 1].from == id then 1 else 0)
  }

  lemma CountFromAppend(ds: seq<Delivery>, es: seq<Delivery>, id: int)
    ensures CountFrom(ds + es, id) == CountFrom(ds, id) + CountFrom(es, id)
    decreases |es|
  {
    if es == [] {
      assert ds + es == ds;
    } else {
      assert (ds + es)[..|ds + es| - 1] == ds + es[..|es| - 1];
      assert (ds + es)[|ds + es| - 1] == es[|es| - 1];
      CountFromAppend(ds, es[..|es| - 1], id);
    }
  }

  /**
   * Exactly once: among the deliveries `rx` gets from the transmitters `0 .. n-1`,
   * the transmitter `tx` accounts for one if it is among them and delivers to `rx`, and none otherwise.
   */
  lemma {:induction false} InboundFromOnce(rs: seq<RobotState>, tx: nat, rx: nat, n: nat)
    requires DistinctIds(rs) && tx < |rs| && rx < |rs| && n <= |rs|
    ensures CountFrom(InboundFrom(rs, rx, n), rs[tx].id) == if tx < n && Delivers(rs, tx, rx) then 1 else 0
  {
    if n > 0 {
      InboundFromOnce(rs, tx, rx, n - 1);
      var last := if Delivers(rs, n - 1, rx) then [DeliveryOf(rs, n - 1, rx)] else [];
      CountFromAppend(InboundFrom(rs, rx, n - 1), last, rs[tx].id);
      assert last != [] ==> last[..0] == [];
    }
  }

  /**
   * The delivered pairs: after the pass, robot `rx` holds exactly one delivery of the
   * broadcast of `tx` when the pair qualifies, and none when it does not.
   */
  lemma DeliveredIff(rs: seq<RobotState>, tx: nat, rx: nat)
    requires DistinctIds(rs) && tx < |rs| && rx < |rs|
    ensures CountFrom(Communicated(rs)[rx].inbox, rs[tx].id)
              == CountFrom(rs[rx].inbox, rs[tx].id) + (if Delivers(rs, tx, rx) then 1 else 0)
    ensures Delivers(rs, tx, rx) ==>
              Delivery(rs[tx].id, rs[tx].txMsg, DistSqr(rs[tx].pos, rs[rx].pos)) in Communicated(rs)[rx].inbox[|rs[rx].inbox|..]
    ensures forall d :: d in Communicated(rs)[rx].inbox[|rs[rx].inbox|..] && d.from == rs[tx].id ==>
              d == Delivery(rs[tx].id, rs[tx].txMsg, DistSqr(rs[tx].pos, rs[rx].pos))
  {
    InboundFromOnce(rs, tx, rx, |rs|);
    CountFromAppend(rs[rx].inbox, InboundFrom(rs, rx, |rs|), rs[tx].id);
    assert Communicated(rs)[rx].inbox[|rs[rx].inbox|..] == InboundFrom(rs, rx, |rs|);
    InboundFromHas(rs, tx, rx, |rs|);
    InboundFromEntries(rs, rx, |rs|);
  }

  /** A qualifying transmitter's `receive_msg` entry is among the deliveries from `0 .. n-1`. */
  lemma {:induction false} InboundFromHas(rs: seq<RobotState>, tx: nat, rx: nat, n: nat)
    requires rx < |rs| && tx < n <= |rs|
    ensures Delivers(rs, tx, rx) ==> DeliveryOf(rs, tx, rx) in InboundFrom(rs, rx, n)
  {
    if tx < n - 1 {
      InboundFromHas(rs, tx, rx, n - 1);
    }
  }

  /** Every delivery from `0 .. n-1` is the `receive_msg` entry of a qualifying transmitter. */
  lemma {:induction false} InboundFromEntries(rs: seq<RobotState>, rx: nat, n: nat)
    requires rx < |rs| && n <= |rs|
    ensures forall d :: d in InboundFrom(rs, rx, n) ==>
              exists t :: 0 <= t < n && Delivers(rs, t, rx) && d == DeliveryOf(rs, t, rx)
  {
    if n > 0 {
      InboundFromEntries(rs, rx, n - 1);
    }
  }

  /** A robot never receives its own broadcast. */
  lemma NoSelfDelivery(rs: seq<RobotState>, r: nat)
    requires DistinctIds(rs) && r < |rs|
    ensures CountFrom(InboundFrom(rs, r, |rs|), rs[r].id) == 0
  {
    InboundFromOnce(rs, r, r, |rs|);
  }

  /** Whether the broadcast of `tx` reaches robot `rx`. */
  function Reaches(rs: seq<RobotState>, tx: nat): nat -> bool
    requires tx < |rs|
  {
    (rx: nat) => rx < |rs| && Delivers(rs, tx, rx)
  }

  /** The receivers of `tx` among `0 .. n-1`. */
  function ReceiversOf(rs: seq<RobotState>, tx: nat, n: nat): (r: set<nat>)
    requires tx < |rs| && n <= |rs|
    ensures forall rx: nat :: rx in r <==> rx < n && Delivers(rs, tx, rx)
  {
    Below(Reaches(rs, tx), n)
  }

  lemma {:induction false} ReceiverCountIsCountBelow(rs: seq<RobotState>, tx: nat, n: nat)
    requires tx < |rs| && n <= |rs|
    ensures ReceiverCount(rs, tx, n) == CountBelow(Reaches(rs, tx), n)
  {
    if n > 0 {
      ReceiverCountIsCountBelow(rs, tx, n - 1);
      assert Reaches(rs, tx)(n - 1) == Delivers(rs, tx, n - 1);
    }
  }

  /** The running ack count of `tx` is the number of robots it reaches. */
  lemma ReceiverCountIsCardinality(rs: seq<RobotState>, tx: nat, n: nat)
    requires tx < |rs| && n <= |rs|
    ensures ReceiverCount(rs, tx, n) == |ReceiversOf(rs, tx, n)|
  {
    ReceiverCountIsCountBelow(rs, tx, n);
    CountBelowIsCardinality(Reaches(rs, tx), n);
  }

  /**
   * One ack per receiver: the acks the pass gives robot `tx` number the robots its
   * broadcast reaches, each of which gains exactly one delivery of it (`DeliveredIff`).
   */
  lemma AcksCountReceivers(rs: seq<RobotState>, tx: nat)
    requires tx < |rs|
    ensures Communicated(rs)[tx].acks - rs[tx].acks == |ReceiversOf(rs, tx, |rs|)|
  {
    ReceiverCountIsCardinality(rs, tx, |rs|);
  }

  lemma {:induction false} SilentSenderReachesNone(rs: seq<RobotState>, tx: nat, n: nat)
    requires tx < |rs| && n <= |rs| && !Truthy(rs[tx].txMsg)
    ensures ReceiverCount(rs, tx, n) == 0
  {
    if n > 0 {
      SilentSenderReachesNone(rs, tx, n - 1);
    }
  }

  lemma {:induction false} SilentWorldDeliversNothing(rs: seq<RobotState>, rx: nat, n: nat)
    requires rx < |rs| && n <= |rs|
    requires forall k :: 0 <= k < |rs| ==> !Truthy(rs[k].txMsg)
    ensures InboundFrom(rs, rx, n) == []
  {
    if n > 0 {
      SilentWorldDeliversNothing(rs, rx, n - 1);
    }
  }

  /** When no robot broadcasts, the pass makes no `receive_msg` and no `msg_received` call. */
  lemma NullMessagesAreSilent(rs: seq<RobotState>)
    requires forall k :: 0 <= k < |rs| ==> !Truthy(rs[k].txMsg)
    ensures Communicated(rs) == rs
  {
    forall k | 0 <= k < |rs|
      ensures Communicated(rs)[k] == rs[k]
    {
      SilentSenderReachesNone(rs, k, |rs|);
      SilentWorldDeliversNothing(rs, k, |rs|);
    }
  }

  /** The broadcast of the scenarios below: robot 0 sends {"k": "v"} to any robot. */
  const GreetingMsg: ValidMsg := Msg(Some(0), Some(Robot), map["k" := StrDatum("v")], false)

  /** A robot of the top kind that has not been called back yet. */
  function NewRobot(id: int, pos: Pos, txMsg: ValidMsg, accepts: int -> bool): RobotState
  {
    RobotState(id, Robot, pos, txMsg, accepts, [], 0, None, None)
  }

  /** Two robots three cells apart, both accepting up to a squared distance of 25: one delivery, one ack. */
  lemma MutualRangeScenario()
    ensures var rs := [NewRobot(0, (0, 0), GreetingMsg, d => d <= 25), NewRobot(1, (3, 0), NullMsg, d => d <= 25)];
            && Communicated(rs)[1].inbox == [Delivery(0, GreetingMsg, 9)]
            && Communicated(rs)[0].inbox == []
            && Communicated(rs)[0].acks == 1
            && Communicated(rs)[1].acks == 0
  {
    var rs := [NewRobot(0, (0, 0), GreetingMsg, d => d <= 25), NewRobot(1, (3, 0), NullMsg, d => d <= 25)];
    assert DistSqr((0, 0), (3, 0)) == 9;
    assert Delivers(rs, 0, 1);
    assert !Delivers(rs, 1, 0) && !Delivers(rs, 0, 0) && !Delivers(rs, 1, 1);
    assert DeliveryOf(rs, 0, 1) == Delivery(0, GreetingMsg, 9);
    assert InboundFrom(rs, 0, 0) == [] && InboundFrom(rs, 1, 0) == [];
    assert InboundFrom(rs, 1, 1) == InboundFrom(rs, 1, 0) + [Delivery(0, GreetingMsg, 9)];
    assert InboundFrom(rs, 1, 2) == InboundFrom(rs, 1, 1) + [];
    assert InboundFrom(rs, 0, 1) == InboundFrom(rs, 0, 0) + [];
    assert InboundFrom(rs, 0, 2) == InboundFrom(rs, 0, 1) + [];
    assert ReceiverCount(rs, 0, 0) == 0 && ReceiverCount(rs, 1, 0) == 0;
    assert ReceiverCount(rs, 0, 1) == 0 && ReceiverCount(rs, 1, 1) == 0;
    assert ReceiverCount(rs, 0, 2) == 1 && ReceiverCount(rs, 1, 2) == 0;
  }

  /** The same pair when the receiver only accepts up to 4: its refusal alone stops the delivery. */
  lemma OneSidedRefusalScenario()
    ensures var rs := [NewRobot(0, (0, 0), GreetingMsg, d => d <= 25), NewRobot(1, (3, 0), NullMsg, d => d <= 4)];
            Communicated(rs) == rs
  {
    var rs := [NewRobot(0, (0, 0), GreetingMsg, d => d <= 25), NewRobot(1, (3, 0), NullMsg, d => d <= 4)];
    assert DistSqr((0, 0), (3, 0)) == 9;
    assert !Delivers(rs, 0, 1) && !Delivers(rs, 1, 0) && !Delivers(rs, 0, 0) && !Delivers(rs, 1, 1);
    assert InboundFrom(rs, 0, 0) == [] && InboundFrom(rs, 1, 0) == [];
    assert InboundFrom(rs, 0, 1) == InboundFrom(rs, 0, 0) + [];
    assert InboundFrom(rs, 1, 1) == InboundFrom(rs, 1, 0) + [];
    assert InboundFrom(rs, 0, 2) == InboundFrom(rs, 0, 1) + [];
    assert InboundFrom(rs, 1, 2) == InboundFrom(rs, 1, 1) + [];
    assert ReceiverCount(rs, 0, 0) == 0 && ReceiverCount(rs, 1, 0) == 0;
    assert ReceiverCount(rs, 0, 1) == 0 && ReceiverCount(rs, 1, 1) == 0;
    assert Communicated(rs)[0] == rs[0] && Communicated(rs)[1] == rs[1];
  }
}
