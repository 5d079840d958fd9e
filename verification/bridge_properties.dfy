/**
  What the page observes: how each call of the bridge is decided, by which message or
  timer, what is posted along the way, and that a decided call stays decided.
 */
module BridgeProperties {
  import opened Basics
  import opened Envelope
  import opened Waiter
  import opened Protocol
  import opened Facade
  import opened Bridge
  import opened BridgeInvariant
  import opened BridgePreservation
  import opened BridgeFold

  /** Call `c` is racing its approval against its rejection for capability `k`. */
  predicate DecidingAs(s: Page, c: nat, k: Kind) {
    && c < |s.calls| && s.calls[c].Deciding?
    && s.calls[c].approve < |s.waiters| && s.calls[c].reject < |s.waiters|
    && s.waiters[s.calls[c].approve].role == Approve(c, k)
  }

  /** Call `c` waits for the acknowledgement of a `k` request. */
  predicate AwaitingAs(s: Page, c: nat, k: Kind) {
    && c < |s.calls| && s.calls[c].AwaitAck?
    && s.calls[c].ack < |s.waiters| && s.waiters[s.calls[c].ack].role == Ack(c, k)
  }

  /** The page after the global listener and the `enable` listeners heard `m`. */
  function Prelude(s: Page, m: Msg): Page {
    var r := OnWalletConnected(s.conn, s.present, s.handlers, m);
    ConnectFrom(s.(conn := r.conn, notified := s.notified + r.calls), m, 0)
  }

  lemma PreludeFacts(s: Page, m: Msg)
    requires Valid(s)
    ensures var s2 := Prelude(s, m);
      && Dispatch(s, m) == OfferFrom(s2, m, 0, |s2.waiters|)
      && s2.waiters == s.waiters && |s2.calls| == |s.calls| && s2.now == s.now && s2.sent == s.sent
      && s2.extId == s.extId && s2.present == s.present
      && (forall c :: 0 <= c < |s.calls| && s.calls[c] != Connecting ==> s2.calls[c] == s.calls[c])
      && Valid(s2)
  {
    var r := OnWalletConnected(s.conn, s.present, s.handlers, m);
    var s1 := s.(conn := r.conn, notified := s.notified + r.calls);
    forall c' | 0 <= c' < |s1.calls| ensures CallOk(s1, c') { assert CallOk(s, c'); }
    forall u | 0 <= u < |s1.waiters| ensures WaiterOk(s1, u) { assert WaiterOk(s, u); }
    ConnectFromValid(s1, m, 0);
    ConnectFromEffect(s1, m, 0);
  }

  /** The race is decided by the approval waiter `ap` of call `c`. */
  lemma ApprovalWins(s2: Page, m: Msg, c: nat, k: Kind)
    requires DecidingAs(s2, c, k)
    requires var p := s2.calls[c];
      && p.approve != p.reject
      && Settles(s2.waiters[p.approve], m) && !Settles(s2.waiters[p.reject], m)
    ensures OfferFrom(s2, m, 0, |s2.waiters|).calls[c] == Settled(Approved(ApprovedValue(k, m)))
  {
    var p := s2.calls[c];
    var ap := p.approve;
    DecidedAt(s2, m, |s2.waiters|, c, ap);
    var sx := OfferFrom(s2, m, 0, ap);
    var v := sx.waiters[ap];
    assert v == s2.waiters[ap] && sx.calls[c] == p;
    var s1 := sx.(waiters := sx.waiters[ap := Hear(v, m)]);
    assert s1.waiters[ap].role == Approve(c, k);
    var r := Resume(s1, ap, m);
    assert r == SetPhase(s1, c, Settled(Approved(ApprovedValue(k, m))));
    assert Offer(sx, m, ap).calls[c] == r.calls[c];
  }

  /** The race is decided by the rejection waiter of call `c`. */
  lemma RejectionWins(s2: Page, m: Msg, c: nat, k: Kind, h: string)
    requires c < |s2.calls| && s2.calls[c].Deciding?
    requires var p := s2.calls[c];
      && p.reject < |s2.waiters| && p.approve != p.reject
      && s2.waiters[p.reject].role == Reject(c, k, h)
      && Settles(s2.waiters[p.reject], m) && (p.approve < |s2.waiters| ==> !Settles(s2.waiters[p.approve], m))
    ensures OfferFrom(s2, m, 0, |s2.waiters|).calls[c] == Settled(UserAbort)
  {
    var rj := s2.calls[c].reject;
    DecidedAt(s2, m, |s2.waiters|, c, rj);
    var sx := OfferFrom(s2, m, 0, rj);
    var v := sx.waiters[rj];
    var s1 := sx.(waiters := sx.waiters[rj := Hear(v, m)]);
    assert Offer(sx, m, rj) == Resume(s1, rj, m);
  }

  /** Before the waiters hear `m`, a racing call is untouched and its two waiters settle on their own types. */
  lemma RaceFacts(s: Page, m: Msg, c: nat, k: Kind)
    requires Valid(s) && DecidingAs(s, c, k)
    ensures var p := s.calls[c];
      var s2 := Prelude(s, m);
      var scoped := Holds(Scope(k, p.actionHash), m);
      && Dispatch(s, m) == OfferFrom(s2, m, 0, |s2.waiters|)
      && DecidingAs(s2, c, k) && s2.calls[c] == p && s2.waiters == s.waiters && p.approve != p.reject
      && s2.waiters[p.reject].role == Reject(c, k, p.actionHash)
      && s2.waiters[p.reject].status.Pending? && s2.waiters[p.reject].attached
      && (Settles(s2.waiters[p.approve], m) <==> scoped && TypeOf(m) == ApproveType(k))
      && (Settles(s2.waiters[p.reject], m) <==> scoped && TypeOf(m) == RejectType(k))
      && ApproveType(k) != RejectType(k)
  {
    var p := s.calls[c];
    assert CallOk(s, c);
    assert WaiterOk(s, p.approve) && WaiterOk(s, p.reject);
    PreludeFacts(s, m);
  }

  /**
    One message decides a racing call exactly when it has the capability's approval or
    rejection type and, for add-token only, the acknowledged action hash. The approval
    resolves the call with the capability's value and leaves the rejection wait armed;
    the rejection aborts it. Any other message leaves the call racing.
   */
  lemma DispatchDecides(s: Page, m: Msg, c: nat, k: Kind)
    requires Valid(s) && DecidingAs(s, c, k)
    ensures var p := s.calls[c];
      var d := Dispatch(s, m);
      var scoped := Holds(Scope(k, p.actionHash), m);
      && |d.calls| == |s.calls| && p.reject < |d.waiters|
      && (scoped && TypeOf(m) == ApproveType(k) ==>
            d.calls[c] == Settled(Approved(ApprovedValue(k, m))) && d.waiters[p.reject] == s.waiters[p.reject])
      && (scoped && TypeOf(m) == RejectType(k) ==> d.calls[c] == Settled(UserAbort))
      && (!(scoped && (TypeOf(m) == ApproveType(k) || TypeOf(m) == RejectType(k))) ==> d.calls[c] == p)
  {
    var p := s.calls[c];
    RaceFacts(s, m, c, k);
    var s2 := Prelude(s, m);
    var n := |s2.waiters|;
    var scoped := Holds(Scope(k, p.actionHash), m);
    if scoped && TypeOf(m) == ApproveType(k) {
      ApprovalWins(s2, m, c, k);
      OfferFromWaiter(s2, m, 0, n, p.reject);
    } else if scoped && TypeOf(m) == RejectType(k) {
      RejectionWins(s2, m, c, k, p.actionHash);
    } else {
      OfferFromKeepsCall(s2, m, 0, n, c);
    }
  }

  /** Call `c` waits for an acknowledgement its waiter settles on `m`, which carries a hash. */
  predicate AckReady(s: Page, m: Msg, c: nat, k: Kind) {
    AwaitingAs(s, c, k) && Settles(s.waiters[s.calls[c].ack], m) && HashOf(m).Some?
  }

  /**
    Call `c` races for action `h` since `t`, its approval waiter `base` registered for it
    and its rejection waiter right after, both at or past `base`.
   */
  predicate Raced(s: Page, c: nat, k: Kind, h: string, t: nat, base: nat) {
    && c < |s.calls| && s.calls[c] == Deciding(h, base, base + 1, t)
    && base + 1 < |s.waiters| && s.waiters[base].role == Approve(c, k)
  }

  /**
    The acknowledgement waiter of call `c` hears `m`: the race starts and `OPEN_UI` goes out;
    `r` is the page after that offer, from which the dispatch goes on.
   */
  lemma AckHead(sx: Page, m: Msg, c: nat, k: Kind, n: nat) returns (r: Page)
    requires AckReady(sx, m, c, k) && sx.calls[c].ack < n <= |sx.waiters|
    ensures Raced(r, c, k, HashOf(m).value, sx.now, |sx.waiters|)
    ensures |r.sent| == |sx.sent| + 1 && r.sent[|sx.sent|] == Outbound(c, Envelope(OpenUi, sx.extId))
    ensures n <= |r.waiters| && OfferFrom(sx, m, sx.calls[c].ack, n) == OfferFrom(r, m, sx.calls[c].ack + 1, n)
  {
    var a := sx.calls[c].ack;
    var v := sx.waiters[a];
    var s1 := sx.(waiters := sx.waiters[a := Hear(v, m)]);
    assert Offer(sx, m, a) == Resume(s1, a, m);
    r := Offer(sx, m, a);
  }

  /** The waiters registered before the race's own leave the race and post `j` alone. */
  lemma AckTail(r: Page, m: Msg, i: nat, n: nat, c: nat, k: Kind, h: string, t: nat, base: nat, j: nat)
    requires n <= base && n <= |r.waiters| && Raced(r, c, k, h, t, base) && j < |r.sent|
    ensures var d := OfferFrom(r, m, i, n);
      && Raced(d, c, k, h, t, base) && j < |d.sent| && d.sent[j] == r.sent[j]
  {
    OfferFromKeepsCall(r, m, i, n, c);
    OfferFromWaiter(r, m, i, n, base);
    OfferFromFrame(r, m, i, n);
    var d := OfferFrom(r, m, i, n);
    assert d.sent[j] == d.sent[..|r.sent|][j];
  }

  /**
    The dispatch of `m` that started at `s` has moved call `c` to its race for the
    message's hash, started at `s.now` with waiters registered during the dispatch,
    and has posted `OPEN_UI` for it.
   */
  ghost predicate Opened(d: Page, s: Page, m: Msg, c: nat, k: Kind) {
    && HashOf(m).Some?
    && (exists base :: |s.waiters| <= base && Raced(d, c, k, HashOf(m).value, s.now, base))
    && exists j :: |s.sent| <= j < |d.sent| && d.sent[j] == Outbound(c, Envelope(OpenUi, s.extId))
  }

  /** The offer to the acknowledgement waiter alone opens the race. */
  lemma AckLast(s: Page, m: Msg, c: nat, k: Kind)
    requires AckReady(s, m, c, k)
    ensures Opened(OfferFrom(s, m, s.calls[c].ack, s.calls[c].ack + 1), s, m, c, k)
  {
    var a := s.calls[c].ack;
    var r := AckHead(s, m, c, k, a + 1);
    assert OfferFrom(s, m, a, a + 1) == r;
    assert Raced(r, c, k, HashOf(m).value, s.now, |s.waiters|);
  }

  /**
    The waiters before the acknowledgement waiter leave call `c` waiting on it, so the
    dispatch up to and including that waiter opens the race.
   */
  lemma {:induction false} AckUpTo(s: Page, m: Msg, i: nat, c: nat, k: Kind)
    requires AckReady(s, m, c, k) && i <= s.calls[c].ack
    ensures Opened(OfferFrom(s, m, i, s.calls[c].ack + 1), s, m, c, k)
    decreases s.calls[c].ack - i
  {
    var a := s.calls[c].ack;
    if i == a {
      AckLast(s, m, c, k);
    } else {
      var s1 := Offer(s, m, i);
      OfferFacts(s, m, i);
      assert s1.calls[c] == s.calls[c] && s1.waiters[a] == s.waiters[a];
      AckUpTo(s1, m, i + 1, c, k);
      var d := OfferFrom(s1, m, i + 1, a + 1);
      assert OfferFrom(s, m, i, a + 1) == d;
      var j :| |s1.sent| <= j < |d.sent| && d.sent[j] == Outbound(c, Envelope(OpenUi, s1.extId));
      assert |s.sent| <= j;
    }
  }

  /** The whole dispatch opens the race: the waiters after the acknowledgement leave it alone. */
  lemma AckOpens(s: Page, m: Msg, c: nat, k: Kind)
    requires AckReady(s, m, c, k)
    ensures Opened(OfferFrom(s, m, 0, |s.waiters|), s, m, c, k)
  {
    var a, n := s.calls[c].ack, |s.waiters|;
    AckUpTo(s, m, 0, c, k);
    var sx := OfferFrom(s, m, 0, a + 1);
    OfferFromSplit(s, m, 0, a + 1, n);
    var base :| |s.waiters| <= base && Raced(sx, c, k, HashOf(m).value, s.now, base);
    var j :| |s.sent| <= j < |sx.sent| && sx.sent[j] == Outbound(c, Envelope(OpenUi, s.extId));
    AckTail(sx, m, a + 1, n, c, k, HashOf(m).value, s.now, base, j);
  }

  /**
    A message of the capability's acknowledgement type moves a waiting call to its race,
    with the message's action hash and the current time, and posts `OPEN_UI` for it; the
    acknowledgement wait has no predicate, so every call of that capability still waiting
    moves on the same message. Any other message leaves the call waiting.
   */
  lemma DispatchAcknowledges(s: Page, m: Msg, c: nat, k: Kind)
    requires Valid(s) && AwaitingAs(s, c, k)
    ensures var d := Dispatch(s, m);
      && |d.calls| == |s.calls|
      && (TypeOf(m) == AckType(k) ==>
            && DecidingAs(d, c, k) && HashOf(m) == Some(d.calls[c].actionHash) && d.calls[c].since == s.now
            && exists j :: |s.sent| <= j < |d.sent| && d.sent[j] == Outbound(c, Envelope(OpenUi, s.extId)))
      && (TypeOf(m) != AckType(k) ==> d.calls[c] == s.calls[c])
  {
    var a := s.calls[c].ack;
    assert CallOk(s, c) && WaiterOk(s, a);
    PreludeFacts(s, m);
    var s2 := Prelude(s, m);
    assert s2.calls[c] == s.calls[c];
    if TypeOf(m) == AckType(k) {
      AckCarriesHash(k, m);
      AckOpens(s2, m, c, k);
      DispatchValid(s, m);
      assert CallOk(Dispatch(s, m), c);
    } else {
      OfferFromKeepsCall(s2, m, 0, |s2.waiters|, c);
    }
  }

  /** A message from anyone, whatever its `extensionId`, decides a racing call as `DispatchDecides` says. */
  lemma DeliverDecides(s: Page, t: nat, env: Envelope, c: nat, k: Kind)
    requires Valid(s) && DecidingAs(s, c, k) && Admissible(s, Deliver(t, env))
    ensures var p := s.calls[c];
      var d := Step(s, Deliver(t, env));
      var m := env.msg;
      var scoped := Holds(Scope(k, p.actionHash), m);
      && |d.calls| == |s.calls|
      && (scoped && TypeOf(m) == ApproveType(k) ==> d.calls[c] == Settled(Approved(ApprovedValue(k, m))))
      && (scoped && TypeOf(m) == RejectType(k) ==> d.calls[c] == Settled(UserAbort))
      && (!(scoped && (TypeOf(m) == ApproveType(k) || TypeOf(m) == RejectType(k))) ==> d.calls[c] == p)
  {
    var s1 := s.(now := t);
    RetimeValid(s, s1);
    DispatchDecides(s1, env.msg, c, k);
  }

  /**
    The page hears its own posts, and the transaction race takes any `FAILED_TX`: the
    cleanup an add-token call posts when its rejection wait lapses aborts every pending
    transaction, whatever its action hash.
   */
  lemma CleanupAbortsTransactions(s: Page, t: nat, c: nat, contract: string, h: string)
    requires Valid(s) && DecidingAs(s, c, TxFlow(contract)) && Admissible(s, Echo(t))
    requires s.echo[0].msg == Cleanup(TokenFlow, h)
    ensures Step(s, Echo(t)).calls[c] == Settled(UserAbort)
  {
    var s1 := s.(now := t, echo := s.echo[1..]);
    RetimeValid(s, s1);
    DispatchDecides(s1, s.echo[0].msg, c, TxFlow(contract));
  }

  /** The acknowledgement timer of a waiting call rejects it with "Timeout", 1000 ms after it started, posting nothing. */
  lemma AckTimesOut(s: Page, c: nat)
    requires Valid(s) && c < |s.calls| && s.calls[c].AwaitAck? && NextDue(s, s.calls[c].ack)
    ensures var d := Step(s, TimerFires(s.calls[c].ack));
      && |d.calls| == |s.calls| && d.calls[c] == Settled(AckTimeout)
      && d.now == s.calls[c].since + AckTimeoutMs && d.sent == s.sent
      && Rejection(d.calls[c].outcome) == Some("Timeout")
  {
    assert CallOk(s, c);
  }

  /**
    The rejection timer of a racing call ends it with "User action timed out" 600000 ms
    after the acknowledgement, and posts exactly one cleanup envelope carrying the action
    hash: `FAILED_SIGN` for signing, `FAILED_TX` otherwise.
   */
  lemma RejectTimesOut(s: Page, c: nat, k: Kind)
    requires Valid(s) && DecidingAs(s, c, k) && NextDue(s, s.calls[c].reject)
    ensures var p := s.calls[c];
      var d := Step(s, TimerFires(p.reject));
      && |d.calls| == |s.calls| && d.calls[c] == Settled(UserTimedOut)
      && d.now == p.since + RejectTimeoutMs
      && d.sent == s.sent + [Outbound(c, Envelope(Cleanup(k, p.actionHash), s.extId))]
      && Rejection(d.calls[c].outcome) == Some("User action timed out")
  {
    assert CallOk(s, c);
  }

  /**
    A racing call is always ended by its rejection timer, never by its approval timer:
    the approval wait outlasts the rejection wait by a minute.
   */
  lemma RaceNeverTimesOutApproval(s: Page, c: nat, k: Kind)
    requires Valid(s) && DecidingAs(s, c, k)
    ensures !NextDue(s, s.calls[c].approve)
    ensures s.waiters[s.calls[c].reject].deadline < s.waiters[s.calls[c].approve].deadline
  {
    assert CallOk(s, c);
    ApprovalNeverDue(s, c);
  }

  /**
    The losing rejection wait of an approved call stays armed; when its timer fires it
    still posts the cleanup envelope, and the call's outcome does not change.
   */
  lemma LateCleanup(s: Page, w: nat, c: nat, k: Kind, h: string)
    requires Valid(s) && NextDue(s, w) && s.waiters[w].role == Reject(c, k, h)
    requires c < |s.calls| && s.calls[c].Settled?
    ensures var d := Step(s, TimerFires(w));
      && d.calls == s.calls
      && d.sent == s.sent + [Outbound(c, Envelope(Cleanup(k, h), s.extId))]
  {
  }

  /** The page a delivered or echoed message is dispatched on. */
  function Retimed(s: Page, e: Event): Page
    requires e.Deliver? || (e.Echo? && s.echo != [])
  {
    if e.Echo? then s.(now := e.at, echo := s.echo[1..]) else s.(now := e.at)
  }

  /** The message a delivery or echo carries. */
  function Heard(s: Page, e: Event): Msg
    requires e.Deliver? || (e.Echo? && s.echo != [])
  {
    if e.Echo? then s.echo[0].msg else e.env.msg
  }

  /** A delivery or an echo is a dispatch on the retimed page, which is still valid. */
  lemma HearStep(s: Page, e: Event)
    requires Valid(s) && Admissible(s, e) && (e.Deliver? || e.Echo?)
    ensures Step(s, e) == Dispatch(Retimed(s, e), Heard(s, e))
    ensures Valid(Retimed(s, e)) && Retimed(s, e).calls == s.calls && Retimed(s, e).sent == s.sent
    ensures Retimed(s, e).waiters == s.waiters
  {
    RetimeValid(s, Retimed(s, e));
  }

  /** A dispatch only appends posts and never touches a decided call. */
  lemma DispatchKeeps(s: Page, m: Msg, c: nat)
    requires Valid(s)
    ensures var d := Dispatch(s, m);
      && |d.calls| == |s.calls| && |d.sent| >= |s.sent| && d.sent[..|s.sent|] == s.sent
      && (c < |s.calls| && s.calls[c].Settled? ==> d.calls[c] == s.calls[c])
      && (c < |s.calls| && s.calls[c].Settled? ==> forall j :: |s.sent| <= j < |d.sent| ==> d.sent[j].call != c)
  {
    PreludeFacts(s, m);
    var s2 := Prelude(s, m);
    OfferFromFrame(s2, m, 0, |s.waiters|);
    if c < |s.calls| && s.calls[c].Settled? {
      OfferFromKeepsCall(s2, m, 0, |s.waiters|, c);
      OfferFromSilent(s2, m, 0, |s.waiters|, c);
    }
  }

  /** A page call, a subscription change or a presence change only appends and never touches a decided call. */
  lemma LocalStep(s: Page, e: Event, c: nat)
    requires Admissible(s, e) && !(e.Deliver? || e.Echo? || e.TimerFires?)
    ensures var d := Step(s, e);
      && |d.calls| >= |s.calls| && (c < |s.calls| ==> d.calls[c] == s.calls[c])
      && |d.sent| >= |s.sent| && d.sent[..|s.sent|] == s.sent
      && forall j :: |s.sent| <= j < |d.sent| ==> d.sent[j].call == |s.calls|
  {
    if e.Request? || e.AddTx? || e.Sign? {
      CallingStep(s, e, c);
    } else {
      ConfiguringStep(s, e, c);
    }
  }

  /** A page call adds one call and posts, if anything, only on its behalf. */
  lemma CallingStep(s: Page, e: Event, c: nat)
    requires Admissible(s, e) && (e.Request? || e.AddTx? || e.Sign?)
    ensures var d := Step(s, e);
      && |d.calls| == |s.calls| + 1 && (c < |s.calls| ==> d.calls[c] == s.calls[c])
      && |d.sent| >= |s.sent| && d.sent[..|s.sent|] == s.sent
      && forall j :: |s.sent| <= j < |d.sent| ==> d.sent[j].call == |s.calls|
  {
    var s1 := s.(now := e.at);
    match e {
      case Request(t, call) =>
        StartAppends(s1, TokenFlow, AddToken(TokenPayload(call.options)));
      case AddTx(t, tx) =>
        StartAppends(s1, TxFlow(tx.contractAddress), AddTransaction(tx));
      case Sign(t, data) =>
        StartAppends(s1, SignFlow, AddSign(data));
    }
  }

  /** Starting a flow adds its call and posts its request on its behalf, and nothing else. */
  lemma StartAppends(s: Page, k: Kind, request: Msg)
    ensures var d := Start(s, k, request);
      && d.calls == s.calls + [AwaitAck(|s.waiters|, s.now)]
      && d.sent == s.sent + [Outbound(|s.calls|, Envelope(request, s.extId))]
  {
  }

  /** `enable` adds one call and posts only on its behalf; subscriptions and presence post nothing. */
  lemma ConfiguringStep(s: Page, e: Event, c: nat)
    requires Admissible(s, e) && (e.Enable? || e.Subscribe? || e.Unsubscribe? || e.SetPresent?)
    ensures var d := Step(s, e);
      && |d.calls| >= |s.calls| && (c < |s.calls| ==> d.calls[c] == s.calls[c])
      && |d.sent| >= |s.sent| && d.sent[..|s.sent|] == s.sent
      && forall j :: |s.sent| <= j < |d.sent| ==> d.sent[j].call == |s.calls|
  {
  }

  /** A timer only appends, never touches a decided call, and posts only for a call past its acknowledgement. */
  lemma TimerStep(s: Page, w: nat, c: nat)
    requires Valid(s) && NextDue(s, w)
    ensures var d := Step(s, TimerFires(w));
      && |d.calls| == |s.calls| && |d.sent| >= |s.sent| && d.sent[..|s.sent|] == s.sent
      && (c < |s.calls| && s.calls[c].Settled? ==> d.calls[c] == s.calls[c])
      && (c < |s.calls| && !PastAck(s.calls[c]) ==> forall j :: |s.sent| <= j < |d.sent| ==> d.sent[j].call != c)
  {
    assert WaiterOk(s, w);
  }

  /** A step only adds calls and only appends to what was posted. */
  lemma StepGrows(s: Page, e: Event)
    requires Valid(s) && Admissible(s, e)
    ensures var d := Step(s, e);
      |d.calls| >= |s.calls| && |d.sent| >= |s.sent| && d.sent[..|s.sent|] == s.sent
  {
    if e.Deliver? || e.Echo? {
      HearStep(s, e);
      DispatchKeeps(Retimed(s, e), Heard(s, e), 0);
    } else if e.TimerFires? {
      TimerStep(s, e.waiter, 0);
    } else {
      LocalStep(s, e, 0);
    }
  }

  /** A decided call stays decided with the same outcome, whatever happens next. */
  lemma SettledIsFinal(s: Page, e: Event, c: nat)
    requires Valid(s) && Admissible(s, e) && c < |s.calls| && s.calls[c].Settled?
    ensures c < |Step(s, e).calls| && Step(s, e).calls[c] == s.calls[c]
  {
    if e.Deliver? || e.Echo? {
      HearStep(s, e);
      DispatchKeeps(Retimed(s, e), Heard(s, e), c);
    } else if e.TimerFires? {
      TimerStep(s, e.waiter, c);
    } else {
      LocalStep(s, e, c);
    }
  }

  /**
    A call that ended without reaching its race (acknowledgement timeout, refusal,
    delegation, or a resolved `enable`) never has anything posted on its behalf again.
   */
  lemma QuietAfterFailure(s: Page, e: Event, c: nat)
    requires Valid(s) && Admissible(s, e) && c < |s.calls| && s.calls[c].Settled? && !PastAck(s.calls[c])
    ensures var d := Step(s, e);
      forall j :: |s.sent| <= j < |d.sent| ==> d.sent[j].call != c
  {
    if e.Deliver? || e.Echo? {
      HearStep(s, e);
      DispatchKeeps(Retimed(s, e), Heard(s, e), c);
    } else if e.TimerFires? {
      TimerStep(s, e.waiter, c);
    } else {
      LocalStep(s, e, c);
    }
  }

  /** Along any admissible trace, a decided call keeps its outcome. */
  lemma {:induction false} RunKeepsOutcome(s: Page, tr: seq<Event>, c: nat)
    requires Valid(s) && Admits(s, tr) && c < |s.calls| && s.calls[c].Settled?
    ensures c < |Run(s, tr).calls| && Run(s, tr).calls[c] == s.calls[c]
    decreases |tr|
  {
    if tr != [] {
      SettledIsFinal(s, tr[0], c);
      StepValid(s, tr[0]);
      RunKeepsOutcome(Step(s, tr[0]), tr[1..], c);
    }
  }

  /** Along any admissible trace, calls are only added and posts only appended. */
  lemma {:induction false} RunGrows(s: Page, tr: seq<Event>)
    requires Valid(s) && Admits(s, tr)
    ensures var d := Run(s, tr);
      |d.calls| >= |s.calls| && |d.sent| >= |s.sent| && d.sent[..|s.sent|] == s.sent
    decreases |tr|
  {
    if tr != [] {
      var s1 := Step(s, tr[0]);
      StepGrows(s, tr[0]);
      StepValid(s, tr[0]);
      RunGrows(s1, tr[1..]);
      var d := Run(s, tr);
      assert d.sent[..|s.sent|] == d.sent[..|s1.sent|][..|s.sent|];
    }
  }

  /** Along any admissible trace, a call that failed before its race stays silent. */
  lemma {:induction false} RunQuietAfterFailure(s: Page, tr: seq<Event>, c: nat)
    requires Valid(s) && Admits(s, tr) && c < |s.calls| && s.calls[c].Settled? && !PastAck(s.calls[c])
    ensures var d := Run(s, tr);
      |d.sent| >= |s.sent| && forall j :: |s.sent| <= j < |d.sent| ==> d.sent[j].call != c
    decreases |tr|
  {
    if tr != [] {
      var s1 := Step(s, tr[0]);
      QuietAfterFailure(s, tr[0], c);
      SettledIsFinal(s, tr[0], c);
      StepGrows(s, tr[0]);
      StepValid(s, tr[0]);
      RunQuietAfterFailure(s1, tr[1..], c);
      RunGrows(s1, tr[1..]);
      var d := Run(s, tr);
      forall j | |s.sent| <= j < |d.sent| ensures d.sent[j].call != c {
        if j < |s1.sent| {
          assert d.sent[j] == d.sent[..|s1.sent|][j];
        }
      }
    }
  }

  /**
    `enable` registers a listener and posts `CONNECT` with the page's host; it arms no
    timer, so nothing but a `CONNECT_RES` ever settles it.
   */
  lemma EnableStep(s: Page, t: nat)
    requires Admissible(s, Enable(t))
    ensures var d := Step(s, Enable(t));
      && d.calls == s.calls + [Connecting] && d.waiters == s.waiters
      && d.sent == s.sent + [Outbound(|s.calls|, Envelope(Connect(s.host), s.extId))]
  {
  }

  /**
    A pending `enable` resolves with the reported address exactly when the response
    carries data and `window.starknet` is still present; the provider then adopts the
    account. Otherwise it stays pending and the connection is unchanged.
   */
  lemma ConnectResolves(s: Page, t: nat, a: Option<Account>, x: Option<string>, c: nat)
    requires Valid(s) && Admissible(s, Deliver(t, Envelope(ConnectRes(a), x)))
    requires c < |s.calls| && s.calls[c] == Connecting
    ensures var d := Step(s, Deliver(t, Envelope(ConnectRes(a), x)));
      && |d.calls| == |s.calls|
      && d.calls[c] == (if s.present && a.Some? then Settled(Connected([a.value.address])) else Connecting)
      && d.conn == (if s.present && a.Some? then Adopt(s.conn, a.value) else s.conn)
  {
    var m := ConnectRes(a);
    var s1 := s.(now := t);
    RetimeValid(s, s1);
    var r := OnWalletConnected(s1.conn, s1.present, s1.handlers, m);
    assert r == Reaction(s1.conn, []);
    var s0 := s1.(conn := r.conn, notified := s1.notified + r.calls);
    ConnectFromEffect(s0, m, 0);
    var s2 := Prelude(s1, m);
    OfferFromKeepsCall(s2, m, 0, |s2.waiters|, c);
    OfferFromFrame(s2, m, 0, |s2.waiters|);
  }

  /**
    A `WALLET_CONNECTED` message affects only the provider's connection and the
    `accountsChanged` listeners, exactly as the global listener prescribes; no call moves.
   */
  lemma WalletConnectedStep(s: Page, t: nat, env: Envelope)
    requires Valid(s) && Admissible(s, Deliver(t, env)) && env.msg.WalletConnected?
    ensures var d := Step(s, Deliver(t, env));
      var r := OnWalletConnected(s.conn, s.present, s.handlers, env.msg);
      && d.conn == r.conn && d.notified == s.notified + r.calls && d.calls == s.calls
  {
    var m := env.msg;
    var s1 := s.(now := t);
    RetimeValid(s, s1);
    WalletConnectedPrelude(s1, m);
    WalletConnectedFold(Prelude(s1, m), m);
  }

  /** Before the waiters hear it, `WALLET_CONNECTED` has run the global listener and moved no call. */
  lemma WalletConnectedPrelude(s: Page, m: Msg)
    requires Valid(s) && m.WalletConnected?
    ensures var s2 := Prelude(s, m);
      var r := OnWalletConnected(s.conn, s.present, s.handlers, m);
      && Dispatch(s, m) == OfferFrom(s2, m, 0, |s2.waiters|) && Valid(s2)
      && s2.conn == r.conn && s2.notified == s.notified + r.calls && s2.calls == s.calls
  {
    var r := OnWalletConnected(s.conn, s.present, s.handlers, m);
    var s0 := s.(conn := r.conn, notified := s.notified + r.calls);
    ConnectFromEffect(s0, m, 0);
    PreludeFacts(s, m);
  }

  /** No waiter settles on `WALLET_CONNECTED` in a way that moves a call. */
  lemma WalletConnectedFold(s2: Page, m: Msg)
    requires Valid(s2) && m.WalletConnected?
    ensures OfferFrom(s2, m, 0, |s2.waiters|) == s2
  {
    forall w | 0 <= w < |s2.waiters| ensures !Accepts(s2.waiters[w], m) {
      assert WaiterOk(s2, w);
    }
    OfferFromUnheard(s2, m, 0, |s2.waiters|);
  }

  /** The outcome of a call the page refuses before posting anything. */
  predicate Refused(s: Page, d: Page, o: Outcome) {
    d.calls == s.calls + [Settled(o)] && d.sent == s.sent && d.waiters == s.waiters
  }

  /**
    The outcome of a call that went out: `request` posted stamped with the extension id,
    the call waiting for its acknowledgement, the acknowledgement wait registered with no
    predicate and a 1000 ms timer.
   */
  predicate Posted(s: Page, d: Page, k: Kind, request: Msg) {
    var c, w := |s.calls|, |s.waiters|;
    && d.calls == s.calls + [AwaitAck(w, d.now)]
    && d.sent == s.sent + [Outbound(c, Envelope(request, s.extId))]
    && |d.waiters| == w + 1 && d.waiters[..w] == s.waiters
    && Settles(d.waiters[w], AckMsg(k)) && d.waiters[w].filter == AnyAction
    && d.waiters[w].role == Ack(c, k) && d.waiters[w].deadline == d.now + AckTimeoutMs
  }

  /** A representative acknowledgement of kind `k`. */
  function AckMsg(k: Kind): (m: Msg)
    ensures TypeOf(m) == AckType(k) && HashOf(m).Some?
  {
    match k
    case TokenFlow => AddTokenRes("")
    case TxFlow(_) => AddTransactionRes("")
    case SignFlow => AddSignRes("")
  }

  /**
    `request` supports exactly `wallet_watchAsset` with an `ERC20` asset, and posts
    `ADD_TOKEN` with the options (decimals as a decimal string); anything else rejects
    with "Not implemented".
   */
  lemma RequestRouting(s: Page, t: nat, call: RpcCall)
    requires Admissible(s, Request(t, call))
    ensures var d := Step(s, Request(t, call));
      && d.now == t
      && (call.callType == "wallet_watchAsset" && call.assetType == "ERC20" ==>
            Posted(s, d, TokenFlow, AddToken(TokenPayload(call.options))))
      && (!(call.callType == "wallet_watchAsset" && call.assetType == "ERC20") ==>
            Refused(s, d, NotImplemented) && Rejection(NotImplemented) == Some("Not implemented"))
  {
  }

  /**
    `addTransaction` hands `DEPLOY` to the provider, refuses a transaction that already
    carries a signature, and otherwise posts `ADD_TRANSACTION` with the transaction.
   */
  lemma AddTxRouting(s: Page, t: nat, tx: Transaction)
    requires Admissible(s, AddTx(t, tx))
    ensures var d := Step(s, AddTx(t, tx));
      var signed := tx.signature.Some? && |tx.signature.value| > 0;
      && (tx.txType == "DEPLOY" ==> Refused(s, d, Delegated))
      && (tx.txType != "DEPLOY" && signed ==> Refused(s, d, SignatureUnsupported))
      && (tx.txType != "DEPLOY" && !signed ==> Posted(s, d, TxFlow(tx.contractAddress), AddTransaction(tx)))
  {
  }

  /** `signMessage` posts `ADD_SIGN` with the typed data. */
  lemma SignRouting(s: Page, t: nat, data: string)
    requires Admissible(s, Sign(t, data))
    ensures Posted(s, Step(s, Sign(t, data)), SignFlow, AddSign(data))
  {
  }

  /** The first half of the add-token exchange: requested, then acknowledged with `h`. */
  lemma AddTokenAcknowledged(s: Page, o: AssetOptions, t0: nat, t1: nat, h: string, x1: Option<string>)
    requires Valid(s)
    requires Admissible(s, Request(t0, RpcCall("wallet_watchAsset", "ERC20", o)))
    requires var s1 := Step(s, Request(t0, RpcCall("wallet_watchAsset", "ERC20", o)));
      Admissible(s1, Deliver(t1, Envelope(AddTokenRes(h), x1)))
    ensures var s1 := Step(s, Request(t0, RpcCall("wallet_watchAsset", "ERC20", o)));
      var s2 := Step(s1, Deliver(t1, Envelope(AddTokenRes(h), x1)));
      Valid(s2) && DecidingAs(s2, |s.calls|, TokenFlow) && s2.calls[|s.calls|].actionHash == h
  {
    var c := |s.calls|;
    var s1 := Step(s, Request(t0, RpcCall("wallet_watchAsset", "ERC20", o)));
    RequestRouting(s, t0, RpcCall("wallet_watchAsset", "ERC20", o));
    StepValid(s, Request(t0, RpcCall("wallet_watchAsset", "ERC20", o)));
    assert AwaitingAs(s1, c, TokenFlow);
    var r1 := s1.(now := t1);
    RetimeValid(s1, r1);
    DispatchAcknowledges(r1, AddTokenRes(h), c, TokenFlow);
    StepValid(s1, Deliver(t1, Envelope(AddTokenRes(h), x1)));
  }

  /**
    The add-token exchange end to end: the page asks to watch an ERC20 asset, the
    extension acknowledges with action hash `h` within the second and later approves
    that hash; the call resolves, and its rejection wait is still armed for its cleanup.
   */
  lemma AddTokenApproved(s: Page, o: AssetOptions, t0: nat, t1: nat, t2: nat, h: string, x1: Option<string>, x2: Option<string>)
    requires Valid(s)
    requires Admissible(s, Request(t0, RpcCall("wallet_watchAsset", "ERC20", o)))
    requires var s1 := Step(s, Request(t0, RpcCall("wallet_watchAsset", "ERC20", o)));
      Admissible(s1, Deliver(t1, Envelope(AddTokenRes(h), x1)))
    requires var s1 := Step(s, Request(t0, RpcCall("wallet_watchAsset", "ERC20", o)));
      var s2 := Step(s1, Deliver(t1, Envelope(AddTokenRes(h), x1)));
      Admissible(s2, Deliver(t2, Envelope(ApproveAddToken(h), x2)))
    ensures var s1 := Step(s, Request(t0, RpcCall("wallet_watchAsset", "ERC20", o)));
      var s2 := Step(s1, Deliver(t1, Envelope(AddTokenRes(h), x1)));
      var s3 := Step(s2, Deliver(t2, Envelope(ApproveAddToken(h), x2)));
      && |s2.calls| > |s.calls| && s2.calls[|s.calls|].Deciding?
      && |s3.calls| > |s.calls| && s3.calls[|s.calls|] == Settled(Approved(NoValue))
      && s2.calls[|s.calls|].reject < |s3.waiters| && s3.waiters[s2.calls[|s.calls|].reject].status.Pending?
  {
    var c := |s.calls|;
    AddTokenAcknowledged(s, o, t0, t1, h, x1);
    var s1 := Step(s, Request(t0, RpcCall("wallet_watchAsset", "ERC20", o)));
    var s2 := Step(s1, Deliver(t1, Envelope(AddTokenRes(h), x1)));
    var r2 := s2.(now := t2);
    RetimeValid(s2, r2);
    DispatchDecides(r2, ApproveAddToken(h), c, TokenFlow);
    assert CallOk(s2, c);
  }
}
