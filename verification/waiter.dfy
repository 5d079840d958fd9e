/**
  The one-shot message waiter `waitForMsgOfType` (inpage/index.ts): a listener on the
  message bus with its own timer. A waiter is generic in the role its caller gives it.
 */
module Waiter {
  import opened Basics
  import opened Envelope

  /** The predicate of a waiter: the default accepts everything. */
  datatype Filter = AnyAction | OnlyAction(actionHash: string)

  /**
    Pending: neither matched nor timed out. Matched(m): resolved with the data of `m`.
    Expired: the timer fired and the promise rejected with "Timeout".
   */
  datatype Status = Pending | Matched(msg: Msg) | Expired

  /**
    `attached` tells whether the message listener is still registered: only a match
    removes it, so an expired waiter keeps listening (and matching) forever.
   */
  datatype Waiter<R> = Waiter(role: R, tag: string, filter: Filter, deadline: nat, status: Status, attached: bool)

  predicate Holds(f: Filter, m: Msg) {
    match f
    case AnyAction => true
    case OnlyAction(h) => HashOf(m) == Some(h)
  }

  /** The handler's test: the exact type and the predicate. */
  predicate Accepts<R>(w: Waiter<R>, m: Msg) {
    TypeOf(m) == w.tag && Holds(w.filter, m)
  }

  /** Hearing `m` resolves the waiter now: it is listening, still pending, and accepts `m`. */
  predicate Settles<R>(w: Waiter<R>, m: Msg) {
    w.attached && w.status.Pending? && Accepts(w, m)
  }

  /** A fresh waiter: listener registered, timer armed for `delay` ms after `now`. */
  function Arm<R>(role: R, tag: string, filter: Filter, now: nat, delay: nat): (w: Waiter<R>)
    ensures w.status.Pending? && w.attached && w.deadline == now + delay
    ensures forall m :: Accepts(w, m) <==> TypeOf(m) == tag && Holds(filter, m)
  {
    Waiter(role, tag, filter, now + delay, Pending, true)
  }

  /**
    The handler run on one delivered message. An accepted message removes the listener and
    clears the timer; the promise takes its value only if it had not settled before.
   */
  function Hear<R>(w: Waiter<R>, m: Msg): (w': Waiter<R>)
    ensures w'.role == w.role && w'.tag == w.tag && w'.filter == w.filter && w'.deadline == w.deadline
    ensures w.attached && Accepts(w, m) ==> !w'.attached
    ensures !(w.attached && Accepts(w, m)) ==> w' == w
    ensures Settles(w, m) ==> w'.status == Matched(m)
    ensures !Settles(w, m) ==> w'.status == w.status
  {
    if w.attached && Accepts(w, m) then
      w.(attached := false, status := if w.status.Pending? then Matched(m) else w.status)
    else w
  }

  /** The timer callback: the promise rejects; the listener stays registered. */
  function Expire<R>(w: Waiter<R>): (w': Waiter<R>)
    requires w.status.Pending?
    ensures w'.status == Expired && w'.attached == w.attached
    ensures w'.role == w.role && w'.tag == w.tag && w'.filter == w.filter && w'.deadline == w.deadline
  {
    w.(status := Expired)
  }

  /** A sequence of deliveries to one waiter, in order. */
  function HearAll<R>(w: Waiter<R>, ms: seq<Msg>): Waiter<R>
    decreases |ms|
  {
    if ms == [] then w else HearAll(Hear(w, ms[0]), ms[1..])
  }

  /** The index of the first accepted message, if any. */
  function FirstAccepted<R>(w: Waiter<R>, ms: seq<Msg>): (k: Option<nat>)
    ensures k.Some? ==> k.value < |ms| && Accepts(w, ms[k.value])
    ensures k.Some? ==> forall i :: 0 <= i < k.value ==> !Accepts(w, ms[i])
    ensures k.None? ==> forall i :: 0 <= i < |ms| ==> !Accepts(w, ms[i])
    decreases |ms|
  {
    if ms == [] then None
    else if Accepts(w, ms[0]) then Some(0)
    else match FirstAccepted(w, ms[1..])
      case None => None
      case Some(k) => Some(k + 1)
  }

  /**
    A listening pending waiter resolves with the first accepted message and with nothing
    else: later deliveries never change its value. With no accepted message it stays
    pending and listening.
   */
  lemma {:induction false} SettlesOnFirstMatch<R>(w: Waiter<R>, ms: seq<Msg>)
    requires w.status.Pending? && w.attached
    ensures var k := FirstAccepted(w, ms);
      && (k.Some? ==> HearAll(w, ms).status == Matched(ms[k.value]) && !HearAll(w, ms).attached)
      && (k.None? ==> HearAll(w, ms) == w)
    decreases |ms|
  {
    if ms != [] {
      if Accepts(w, ms[0]) {
        KeepsSettlement(Hear(w, ms[0]), ms[1..]);
      } else {
        SettlesOnFirstMatch(w, ms[1..]);
      }
    }
  }

  /**
    A settled waiter keeps its settlement whatever it hears, and once detached it stays
    detached.
   */
  lemma {:induction false} KeepsSettlement<R>(w: Waiter<R>, ms: seq<Msg>)
    requires !w.status.Pending?
    ensures HearAll(w, ms).status == w.status
    ensures !w.attached ==> HearAll(w, ms) == w
    decreases |ms|
  {
    if ms != [] {
      KeepsSettlement(Hear(w, ms[0]), ms[1..]);
    }
  }

  /**
    An expired waiter still removes its listener on the first accepted message, yet its
    status stays Expired: a timeout does not stop it from consuming a late answer.
   */
  lemma {:induction false} ExpiredStillDetaches<R>(w: Waiter<R>, ms: seq<Msg>)
    requires w.status == Expired && w.attached
    ensures var k := FirstAccepted(w, ms);
      && HearAll(w, ms).status == Expired
      && HearAll(w, ms).attached == k.None?
    decreases |ms|
  {
    if ms != [] {
      if Accepts(w, ms[0]) {
        KeepsSettlement(Hear(w, ms[0]), ms[1..]);
      } else {
        ExpiredStillDetaches(w, ms[1..]);
      }
    }
  }
}
