/**
 * The transition rule shared by the four status-changing operations: which
 * stored status each one requires (its WHERE clause) and which status it sets.
 * `refunded` is a status no transition sets.
 */
module Lifecycle {
  import opened OrderModel

  datatype Transition = Pay | Ship | Deliver | Cancel

  /** The statuses the conditional update accepts as the order's current one. */
  function RequiredPrior(t: Transition): (prior: set<Status>)
    ensures prior != {} && prior <= {Pending, Paid, Shipped}
  {
    match t
    case Pay => {Pending}
    case Ship => {Paid}
    case Deliver => {Shipped}
    case Cancel => {Pending, Paid}
  }

  /** The status the conditional update writes. */
  function Target(t: Transition): (s: Status)
    ensures s != Pending && s != Refunded
    ensures s !in RequiredPrior(t)
  {
    match t
    case Pay => Paid
    case Ship => Shipped
    case Deliver => Delivered
    case Cancel => Cancelled
  }

  predicate Admits(t: Transition, s: Status) {
    s in RequiredPrior(t)
  }

  /** Delivered, cancelled and refunded orders accept no transition. */
  predicate Terminal(s: Status) {
    s in {Delivered, Cancelled, Refunded}
  }

  /** Progress along the order's life: every admitted transition strictly increases it. */
  function Rank(s: Status): nat {
    match s
    case Pending => 0
    case Paid => 1
    case Shipped => 2
    case Delivered => 3
    case Cancelled => 3
    case Refunded => 3
  }

  /** The edges of the order life cycle, as a table. */
  predicate Edge(from: Status, to: Status) {
    || (from == Pending && to in {Paid, Cancelled})
    || (from == Paid && to in {Shipped, Cancelled})
    || (from == Shipped && to == Delivered)
  }

  /**
   * The four conditional updates realise exactly the edge table: an admitted
   * transition follows an edge, every edge is some admitted transition, and the
   * terminal statuses admit nothing.
   */
  lemma TransitionsAreEdges(from: Status, to: Status)
    ensures Edge(from, to) <==> exists t :: Admits(t, from) && Target(t) == to
    ensures Terminal(from) <==> forall t :: !Admits(t, from)
  {
    if Edge(from, to) {
      var t := match to
        case Paid => Pay
        case Shipped => Ship
        case Delivered => Deliver
        case _ => Cancel;
      assert Admits(t, from) && Target(t) == to;
    }
    if !Terminal(from) {
      var t := match from
        case Pending => Pay
        case Paid => Ship
        case _ => Deliver;
      assert Admits(t, from);
    }
  }

  /** The status after attempting `t`: the target when admitted, otherwise unchanged. */
  function Step(s: Status, t: Transition): (s': Status)
    ensures Rank(s) <= Rank(s')
    ensures s' != s ==> Rank(s) < Rank(s') && Edge(s, s')
  {
    if Admits(t, s) then Target(t) else s
  }

  /** The status after attempting the transitions `ts` in order. */
  function Run(s: Status, ts: seq<Transition>): Status
    decreases |ts|
  {
    if ts == [] then s else Run(Step(s, ts[0]), ts[1..])
  }

  /** Status only moves forward. */
  lemma {:induction false} RunNeverGoesBack(s: Status, ts: seq<Transition>)
    ensures Rank(s) <= Rank(Run(s, ts))
    decreases |ts|
  {
    if ts != [] {
      RunNeverGoesBack(Step(s, ts[0]), ts[1..]);
    }
  }

  /** An order that has left `pending` never returns to it. */
  lemma {:induction false} NeverBackToPending(s: Status, ts: seq<Transition>)
    requires s != Pending
    ensures Run(s, ts) != Pending
  {
    RunNeverGoesBack(s, ts);
  }

  /** Terminal statuses are final. */
  lemma {:induction false} TerminalIsFinal(s: Status, ts: seq<Transition>)
    requires Terminal(s)
    ensures Run(s, ts) == s
    decreases |ts|
  {
    if ts != [] {
      TerminalIsFinal(Step(s, ts[0]), ts[1..]);
    }
  }

  /** No status is reached from `pending` except through the edges, so `refunded` is never reached. */
  lemma {:induction false} RefundedUnreachable(s: Status, ts: seq<Transition>)
    requires s != Refunded
    ensures Run(s, ts) != Refunded
    decreases |ts|
  {
    if ts != [] {
      RefundedUnreachable(Step(s, ts[0]), ts[1..]);
    }
  }

  /** The same transition twice in a row: the second attempt is refused. */
  lemma RepeatIsRefused(s: Status, t: Transition)
    requires Admits(t, s)
    ensures !Admits(t, Step(s, t))
  {
  }

  /**
   * The three forward steps from `pending` deliver the order; skipping a step is
   * refused.
   */
  lemma HappyPath()
    ensures Run(Pending, [Pay, Ship, Deliver]) == Delivered
    ensures Run(Pending, [Ship]) == Pending && Run(Pending, [Deliver]) == Pending
    ensures Run(Paid, [Deliver]) == Paid
  {
  }

  /**
   * The row a successful transition writes: the new status, `updatedAt = now`,
   * and the transition's own field (payment method and `paidAt`, `shippedAt`
   * or `deliveredAt`); no other column changes.
   */
  function Apply(o: Order, t: Transition, now: int, paymentMethod: string): (o': Order)
    ensures o'.status == Target(t) && o'.updatedAt == now
    ensures o'.paidAt == (if t == Pay then Some(now) else o.paidAt)
    ensures o'.paymentMethod == (if t == Pay then paymentMethod else o.paymentMethod)
    ensures o'.shippedAt == (if t == Ship then Some(now) else o.shippedAt)
    ensures o'.deliveredAt == (if t == Deliver then Some(now) else o.deliveredAt)
    ensures SameOrderData(o, o')
  {
    match t
    case Pay => o.(status := Paid, paymentMethod := paymentMethod, paidAt := Some(now), updatedAt := now)
    case Ship => o.(status := Shipped, shippedAt := Some(now), updatedAt := now)
    case Deliver => o.(status := Delivered, deliveredAt := Some(now), updatedAt := now)
    case Cancel => o.(status := Cancelled, updatedAt := now)
  }

  /** An admitted transition keeps a well-formed row well formed. */
  lemma ApplyKeepsWellFormed(o: Order, t: Transition, now: int, paymentMethod: string)
    requires WellFormed(o) && Admits(t, o.status)
    ensures WellFormed(Apply(o, t, now, paymentMethod))
  {
  }
}
