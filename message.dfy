/**
 * Messages broadcast by robots (gridsim/message.py).
 *
 * A message is either the null message ("not broadcasting") or a populated one
 * carrying the sender's id, a string-keyed payload and the kind of robot that
 * may receive it. The pure functions here describe a message's value; the class
 * `Message` is the object whose payload `Set` changes in place.
 */
module Messages {
  import opened Wrappers
  import opened Kinds

  /** A payload key as handed to the constructor: a string, or a key of another type. */
  datatype Key = StrKey(s: string) | IntKey(i: int)

  /** A payload value; the source allows any Python object, and these stand for the usual ones. */
  datatype Datum = NoneDatum | BoolDatum(b: bool) | IntDatum(i: int) | StrDatum(s: string) | ListDatum(items: seq<Datum>)

  /** The constructor's `content` argument: a dictionary, or some other object of the given truthiness. */
  datatype ContentArg = Dict(entries: map<Key, Datum>) | NotDict(truthy: bool)

  datatype MsgError =
    | RxTypeNotRobot          // TypeError: rx_type is not a subclass of Robot
    | ContentNotStringKeyed   // TypeError: content is not a dictionary with string keys
    | SetOnNullMessage        // ValueError: set on a null message
    | MissingKey(key: string) // KeyError from get

  /** What `get` returns: the whole payload, or the value under one key. */
  datatype Payload = Whole(content: map<string, Datum>) | Entry(value: Datum)

  /** The state of a message object: `_tx_id`, `_rx_type`, `_content` and `_is_null`. */
  datatype Msg = Msg(txId: Option<int>, rxType: Option<Kind>, content: map<string, Datum>, isNull: bool)

  /** The shapes the constructor and `set` can produce. */
  predicate WellFormed(m: Msg)
  {
    if m.isNull then m.txId.None? && m.rxType.None? && m.content == map[]
    else m.rxType.Some? && (m.txId.Some? || m.content != map[])
  }

  type ValidMsg = m: Msg | WellFormed(m) witness Msg(None, None, map[], true)

  const NullMsg: ValidMsg := Msg(None, None, map[], true)

  /** The default `rx_type`: any robot. */
  const DefaultRxType: TypeArg := KindArg(Robot)

  /** Python truthiness of the `content` argument. */
  predicate ArgTruthy(c: ContentArg)
  {
    match c
    case Dict(entries) => entries != map[]
    case NotDict(truthy) => truthy
  }

  predicate StringKeyed(entries: map<Key, Datum>)
  {
    forall k :: k in entries ==> k.StrKey?
  }

  /** The payload of a string-keyed dictionary, indexed by the strings themselves. */
  function StringEntries(entries: map<Key, Datum>): (r: map<string, Datum>)
    requires StringKeyed(entries)
    ensures forall s :: s in r <==> StrKey(s) in entries
    ensures forall s :: s in r ==> r[s] == entries[StrKey(s)]
  {
    map k | k in entries :: k.s := entries[k]
  }

  /**
   * `Message.__init__`: a missing sender with a falsy payload gives the null message,
   * whatever `rx_type` is; otherwise `rx_type` is checked first, then the payload.
   */
  function Construct(txId: Option<int>, content: ContentArg, rxType: TypeArg): (r: Result<ValidMsg, MsgError>)
    ensures txId.None? && !ArgTruthy(content) ==> r == Success(NullMsg)
    ensures r.Success? ==> (r.value.isNull <==> txId.None? && !ArgTruthy(content))
    ensures (txId.Some? || ArgTruthy(content)) && !IsRobotClass(rxType) ==> r == Failure(RxTypeNotRobot)
    ensures (txId.Some? || ArgTruthy(content)) && IsRobotClass(rxType) ==>
              (r.Failure? <==> !(content.Dict? && StringKeyed(content.entries)))
    ensures r.Failure? ==> r.error == RxTypeNotRobot || r.error == ContentNotStringKeyed
    ensures r.Success? && !r.value.isNull ==>
              && r.value.txId == txId
              && r.value.rxType == Some(rxType.kind)
              && content.Dict?
              && (forall s :: s in r.value.content <==> StrKey(s) in content.entries)
              && (forall s :: s in r.value.content ==> r.value.content[s] == content.entries[StrKey(s)])
  {
    if txId.None? && !ArgTruthy(content) then
      Success(NullMsg)
    else if !rxType.KindArg? then
      Failure(RxTypeNotRobot)
    else if !(content.Dict? && StringKeyed(content.entries)) then
      RobotIsTop(rxType.kind);
      Failure(ContentNotStringKeyed)
    else
      RobotIsTop(rxType.kind);
      Success(Msg(txId, Some(rxType.kind), StringEntries(content.entries), false))
  }

  /** `__bool__`: a valid message is truthy exactly when it has a sender or a non-empty payload. */
  function Truthy(m: ValidMsg): (b: bool)
    ensures b <==> m.txId.Some? || m.content != map[]
    ensures !b ==> m == NullMsg
  {
    !m.isNull
  }

  /** `sender`: the id given to the constructor. */
  function Sender(m: ValidMsg): (id: Option<int>)
    ensures !Truthy(m) ==> id.None?
  {
    m.txId
  }

  /** `get`: the whole payload for no key, the value under a present key, a KeyError otherwise. */
  function Get(m: ValidMsg, key: Option<string>): (r: Result<Payload, MsgError>)
    ensures key.None? ==> r == Success(Whole(m.content))
    ensures key.Some? ==> (r.Success? <==> key.value in m.content)
    ensures key.Some? && r.Success? ==> r.value == Entry(m.content[key.value])
    ensures key.Some? && r.Failure? ==> r.error == MissingKey(key.value)
  {
    match key
    case None => Success(Whole(m.content))
    case Some(k) => if k in m.content then Success(Entry(m.content[k])) else Failure(MissingKey(k))
  }

  /** `set`: refused on the null message; otherwise the key reads back as the value and nothing else changes. */
  function Put(m: ValidMsg, key: string, v: Datum): (r: Result<ValidMsg, MsgError>)
    ensures r.Failure? <==> !Truthy(m)
    ensures r.Failure? ==> r.error == SetOnNullMessage
    ensures r.Success? ==>
              && Truthy(r.value)
              && Sender(r.value) == Sender(m)
              && r.value.rxType == m.rxType
              && Get(r.value, Some(key)) == Success(Entry(v))
              && (forall k :: k != key ==> Get(r.value, Some(k)) == Get(m, Some(k)))
  {
    if !Truthy(m) then Failure(SetOnNullMessage)
    else Success(m.(content := m.content[key := v]))
  }

  /** A populated message keeps the sender it was built with. */
  lemma SenderRoundTrip(txId: Option<int>, content: ContentArg, rxType: TypeArg)
    requires Construct(txId, content, rxType).Success?
    ensures Sender(Construct(txId, content, rxType).value) == txId
  {
  }

  /** A populated message with the default `rx_type` may be received by a robot of any kind. */
  lemma DefaultReachesEveryKind(txId: Option<int>, content: ContentArg, k: Kind)
    requires Construct(txId, content, DefaultRxType).Success?
    requires Truthy(Construct(txId, content, DefaultRxType).value)
    ensures IsSubKind(k, Construct(txId, content, DefaultRxType).value.rxType.value)
  {
    RobotIsTop(k);
  }

  /** A message object; `Set` changes its payload in place. */
  class Message {
    var txId: Option<int>
    var rxType: Option<Kind>
    var content: map<string, Datum>
    var isNull: bool

    function Snapshot(): Msg
      reads this
    {
      Msg(txId, rxType, content, isNull)
    }

    predicate Valid()
      reads this
    {
      WellFormed(Snapshot())
    }

    constructor FromValue(m: ValidMsg)
      ensures Valid() && Snapshot() == m
    {
      txId, rxType, content, isNull := m.txId, m.rxType, m.content, m.isNull;
    }

    /** `Message(tx_id, content, rx_type)`: a fresh object, or the TypeError the constructor raises. */
    static method Create(txId: Option<int>, content: ContentArg, rxType: TypeArg) returns (r: Result<Message, MsgError>)
      ensures Construct(txId, content, rxType).Failure? ==> r == Failure(Construct(txId, content, rxType).error)
      ensures Construct(txId, content, rxType).Success? ==>
                r.Success? && fresh(r.value) && r.value.Valid() && r.value.Snapshot() == Construct(txId, content, rxType).value
    {
      var built := Construct(txId, content, rxType);
      if built.Failure? {
        return Failure(built.error);
      }
      var obj := new Message.FromValue(built.value);
      return Success(obj);
    }

    /** `set(key, value)` on this object. */
    method Set(key: string, value: Datum) returns (r: Outcome<MsgError>)
      requires Valid()
      modifies this
      ensures Valid()
      ensures Put(old(Snapshot()), key, value).Failure? ==> r == Fail(SetOnNullMessage) && Snapshot() == old(Snapshot())
      ensures Put(old(Snapshot()), key, value).Success? ==> r == Pass && Snapshot() == Put(old(Snapshot()), key, value).value
    {
      if isNull {
        r := Fail(SetOnNullMessage);
      } else {
        content := content[key := value];
        r := Pass;
      }
    }
  }
}
