/**
 * Robot kinds: the class hierarchy that `isinstance` and `issubclass` inspect.
 * Every robot class derives, directly or through other classes, from `Robot`,
 * so a kind is a chain of subclass names ending at the top kind `Robot`. Only
 * single inheritance is represented: each subclass names one base.
 */
module Kinds {

  datatype Kind = Robot | Subclass(name: string, base: Kind)

  /** `issubclass(k, of)`: `of` is `k` itself or one of its ancestors. */
  predicate IsSubKind(k: Kind, of: Kind)
  {
    k == of || (k.Subclass? && IsSubKind(k.base, of))
  }

  /** A class object handed in where a robot class is expected: a robot kind, or some other class. */
  datatype TypeArg = KindArg(kind: Kind) | OtherClass(name: string)

  /** `issubclass(t, Robot)`: only robot kinds qualify. */
  predicate IsRobotClass(t: TypeArg)
  {
    t.KindArg? && IsSubKind(t.kind, Robot)
  }

  /** `Robot` is the top kind: every robot is an instance of `Robot`. */
  lemma {:induction false} RobotIsTop(k: Kind)
    ensures IsSubKind(k, Robot)
  {
    if k.Subclass? {
      RobotIsTop(k.base);
    }
  }

  /** Every kind handed in as `KindArg` passes the `issubclass(rx_type, Robot)` check, and nothing else does. */
  lemma RobotClassIff(t: TypeArg)
    ensures IsRobotClass(t) <==> t.KindArg?
  {
    if t.KindArg? {
      RobotIsTop(t.kind);
    }
  }
}
