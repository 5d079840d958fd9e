/**
  The cleanup envelope (`FAILED_TX` or `FAILED_SIGN`) that a rejection timer posts is sent
  at most once per call over the whole life of the page: never while the call is racing,
  once when its rejection timer fires, and never again after that. `OPEN_UI` and the
  cleanup are only ever posted for a call that got past its acknowledgement, so a call
  whose acknowledgement timed out never has either posted for it.
 */
module BridgeCleanup {
  import opened Basics
  import opened Envelope
  import opened Waiter
  import opened Protocol
  import opened Facade
  import opened Bridge
  import opened BridgeInvariant
  import opened BridgePreservation
  import opened BridgeFold
  import opened BridgeProperties

  /** A posted cleanup envelope: `FAILED_TX` or `FAILED_SIGN`. */
  predicate IsCleanup(o: Outbound) {
    o.env.msg.FailedTx? || o.env.msg.FailedSign?
  }

  /** No two posted cleanups are for the same call. */
  predicate CleanupOnce(s: Page) {
    forall i, j :: 0 <= i < j < |s.sent| && IsCleanup(s.sent[i]) && IsCleanup(s.sent[j]) ==>
      s.sent[i].call != s.sent[j].call
  }

  /** No two rejection waits belong to the same call. */
  predicate OneRejectWait(s: Page) {
    forall v, u :: 0 <= v < u < |s.waiters| && s.waiters[v].role.Reject? && s.waiters[u].role.Reject? ==>
      s.waiters[v].role.call != s.waiters[u].role.call
  }

  /** A rejection wait whose timer is still armed has not had its cleanup posted. */
  predicate ArmedUncleaned(s: Page) {
    forall w, j ::
      && 0 <= w < |s.waiters| && 0 <= j < |s.sent| && s.waiters[w].role.Reject?
      && s.waiters[w].status.Pending? && IsCleanup(s.sent[j])
      ==> s.sent[j].call != s.waiters[w].role.call
  }

  /** A post that only a call past its acknowledgement makes: `OPEN_UI` or a cleanup. */
  predicate Announces(o: Outbound) {
    o.env.msg.OpenUi? || IsCleanup(o)
  }

  /** Every `OPEN_UI` and cleanup posted is for an existing call that got past its acknowledgement. */
  predicate AnnouncedPastAck(s: Page) {
    forall j :: 0 <= j < |s.sent| && Announces(s.sent[j]) ==>
      s.sent[j].call < |s.calls| && PastAck(s.calls[s.sent[j].call])
  }

  predicate CleanupOk(s: Page) {
    CleanupOnce(s) && OneRejectWait(s) && ArmedUncleaned(s) && AnnouncedPastAck(s)
  }

  /** Cleanups posted for call `c`, as indices into the outbound log. */
  function CleanupsOf(s: Page, c: nat): (r: set<nat>)
    ensures forall j: nat :: j in r <==> j < |s.sent| && IsCleanup(s.sent[j]) && s.sent[j].call == c
  {
    set j: nat | j < |s.sent| && IsCleanup(s.sent[j]) && s.sent[j].call == c
  }

  lemma InitCleanupOk(extId: Option<string>, host: string)
    ensures CleanupOk(Init(extId, host))
  {
  }

  /** Only one waiter changes, keeping its role and never becoming armed again; no call loses `PastAck`. */
  lemma ReplaceCleanupOk(s: Page, w: nat, v': Waiter<Role>, calls': seq<Phase>)
    requires CleanupOk(s) && w < |s.waiters| && |calls'| == |s.calls|
    requires v'.role == s.waiters[w].role && (v'.status.Pending? ==> s.waiters[w].status.Pending?)
    requires forall c :: 0 <= c < |s.calls| && PastAck(s.calls[c]) ==> PastAck(calls'[c])
    ensures CleanupOk(s.(waiters := s.waiters[w := v'], calls := calls'))
  {
    var s' := s.(waiters := s.waiters[w := v'], calls := calls');
    assert forall u :: 0 <= u < |s.waiters| ==> s'.waiters[u].role == s.waiters[u].role;
  }

  /** The acknowledgement continuation registers the call's only rejection wait, and posts `OPEN_UI` as the call gets past its acknowledgement. */
  lemma AcknowledgeCleanupOk(s: Page, c: nat, k: Kind, h: string)
    requires CleanupOk(s) && c < |s.calls| && s.calls[c].AwaitAck?
    requires forall v :: 0 <= v < |s.waiters| && s.waiters[v].role.Reject? ==> s.waiters[v].role.call != c
    ensures CleanupOk(Acknowledge(s, c, k, h))
  {
    var d := Acknowledge(s, c, k, h);
    AcknowledgeFacts(s, c, k, h);
    assert forall u :: 0 <= u < |s.waiters| ==> d.waiters[u] == s.waiters[u];
    assert !IsCleanup(d.sent[|s.sent|]) && d.sent[|s.sent|].call == c && PastAck(d.calls[c]);
    assert forall j :: 0 <= j < |s.sent| ==> d.sent[j] == s.sent[j];
  }

  /** One waiter hearing a message keeps the cleanup bookkeeping. */
  lemma OfferCleanupOk(s: Page, m: Msg, w: nat)
    requires Valid(s) && CleanupOk(s) && w < |s.waiters|
    ensures CleanupOk(Offer(s, m, w))
  {
    var v := s.waiters[w];
    if v.attached && Accepts(v, m) {
      var s1 := s.(waiters := s.waiters[w := Hear(v, m)]);
      ReplaceCleanupOk(s, w, Hear(v, m), s.calls);
      assert s1 == s.(waiters := s.waiters[w := Hear(v, m)], calls := s.calls);
      if v.status.Pending? {
        assert WaiterOk(s, w);
        var c := v.role.call;
        match v.role {
          case Ack(_, k) =>
            if s.calls[c].AwaitAck? && s.calls[c].ack == w && HashOf(m).Some? {
              forall u | 0 <= u < |s1.waiters| && s1.waiters[u].role.Reject? ensures s1.waiters[u].role.call != c {
                assert WaiterOk(s, u);
              }
              AcknowledgeCleanupOk(s1, c, k, HashOf(m).value);
            }
          case Approve(_, k) =>
            if s.calls[c].Deciding? && s.calls[c].approve == w {
              ReplaceCleanupOk(s, w, Hear(v, m), s.calls[c := Settled(Approved(ApprovedValue(k, m)))]);
            }
          case Reject(_, _, _) =>
            if s.calls[c].Deciding? && s.calls[c].reject == w {
              ReplaceCleanupOk(s, w, Hear(v, m), s.calls[c := Settled(UserAbort)]);
            }
        }
      }
    }
  }

  lemma {:induction false} OfferFromCleanupOk(s: Page, m: Msg, i: nat, n: nat)
    requires Valid(s) && CleanupOk(s) && n <= |s.waiters|
    ensures CleanupOk(OfferFrom(s, m, i, n))
    decreases n - i
  {
    if i < n {
      OfferCleanupOk(s, m, i);
      OfferValid(s, m, i);
      OfferFromCleanupOk(Offer(s, m, i), m, i + 1, n);
    }
  }

  lemma DispatchCleanupOk(s: Page, m: Msg)
    requires Valid(s) && CleanupOk(s)
    ensures CleanupOk(Dispatch(s, m))
  {
    PreludeFacts(s, m);
    var s2 := Prelude(s, m);
    var r := OnWalletConnected(s.conn, s.present, s.handlers, m);
    ConnectFromEffect(s.(conn := r.conn, notified := s.notified + r.calls), m, 0);
    assert CleanupOk(s2);
    OfferFromCleanupOk(s2, m, 0, |s2.waiters|);
  }

  /** The rejection timer posts the only cleanup of its call. */
  lemma RejectLapseCleanupOk(s: Page, w: nat)
    requires Valid(s) && CleanupOk(s) && NextDue(s, w) && s.waiters[w].role.Reject?
    ensures CleanupOk(Step(s, TimerFires(w)))
  {
    var v := s.waiters[w];
    assert WaiterOk(s, w);
    var c, k, h := v.role.call, v.role.kind, v.role.actionHash;
    var s1 := s.(now := v.deadline, waiters := s.waiters[w := Expire(v)]);
    var d := Step(s, TimerFires(w));
    LapseFacts(s1, w);
    assert d.sent == s.sent + [Outbound(c, Envelope(Cleanup(k, h), s.extId))];
    assert d.waiters == s1.waiters;
    assert forall c' :: 0 <= c' < |s.calls| && c' != c ==> d.calls[c'] == s.calls[c'];
    assert PastAck(d.calls[c]);
    forall u | 0 <= u < |d.waiters| && d.waiters[u].role.Reject? && d.waiters[u].status.Pending?
      ensures d.waiters[u].role.call != c
    {
      assert u != w;
      assert d.waiters[u] == s.waiters[u];
    }
  }

  lemma TimerCleanupOk(s: Page, w: nat)
    requires Valid(s) && CleanupOk(s) && NextDue(s, w)
    ensures CleanupOk(Step(s, TimerFires(w)))
  {
    var v := s.waiters[w];
    if v.role.Reject? {
      RejectLapseCleanupOk(s, w);
    } else {
      var s1 := s.(now := v.deadline, waiters := s.waiters[w := Expire(v)]);
      var d := Step(s, TimerFires(w));
      LapseFacts(s1, w);
      var c := v.role.call;
      if c < |s.calls| && s.calls[c].Deciding? {
        ApprovalNeverDue(s, c);
      }
      ReplaceCleanupOk(s, w, Expire(v), d.calls);
      assert d == s.(waiters := s.waiters[w := Expire(v)], calls := d.calls).(now := v.deadline);
    }
  }

  /** Adding calls, waiters that are not rejection waits and posts that announce nothing keeps the bookkeeping. */
  lemma GrowCleanupOk(s: Page, d: Page)
    requires CleanupOk(s)
    requires |d.waiters| >= |s.waiters| && d.waiters[..|s.waiters|] == s.waiters
    requires forall u :: |s.waiters| <= u < |d.waiters| ==> !d.waiters[u].role.Reject?
    requires |d.sent| >= |s.sent| && d.sent[..|s.sent|] == s.sent
    requires forall j :: |s.sent| <= j < |d.sent| ==> !Announces(d.sent[j])
    requires |d.calls| >= |s.calls| && d.calls[..|s.calls|] == s.calls
    ensures CleanupOk(d)
  {
    assert forall u :: 0 <= u < |s.waiters| ==> d.waiters[u] == d.waiters[..|s.waiters|][u];
    assert forall j :: 0 <= j < |s.sent| ==> d.sent[j] == d.sent[..|s.sent|][j];
    assert forall c :: 0 <= c < |s.calls| ==> d.calls[c] == d.calls[..|s.calls|][c];
  }

  /** Starting a flow adds a call waiting for its acknowledgement, its acknowledgement wait and its request. */
  lemma StartCleanupOk(s: Page, k: Kind, request: Msg)
    requires CleanupOk(s) && !(request.FailedTx? || request.FailedSign? || request.OpenUi?)
    ensures CleanupOk(Start(s, k, request))
  {
    var d := Start(s, k, request);
    StartAppends(s, k, request);
    assert d.waiters == s.waiters + [Arm(Ack(|s.calls|, k), AckType(k), AnyAction, s.now, AckTimeoutMs)];
    GrowCleanupOk(s, d);
  }

  lemma RefuseCleanupOk(s: Page, o: Outcome)
    requires CleanupOk(s)
    ensures CleanupOk(Refuse(s, o))
  {
    GrowCleanupOk(s, Refuse(s, o));
  }

  lemma CallingCleanupOk(s: Page, e: Event)
    requires CleanupOk(s) && Admissible(s, e) && (e.Request? || e.AddTx? || e.Sign?)
    ensures CleanupOk(Step(s, e))
  {
    var s1 := s.(now := e.at);
    assert CleanupOk(s1);
    match e {
      case Request(t, call) =>
        StartCleanupOk(s1, TokenFlow, AddToken(TokenPayload(call.options)));
        RefuseCleanupOk(s1, NotImplemented);
      case AddTx(t, tx) =>
        StartCleanupOk(s1, TxFlow(tx.contractAddress), AddTransaction(tx));
        RefuseCleanupOk(s1, Delegated);
        RefuseCleanupOk(s1, SignatureUnsupported);
      case Sign(t, data) =>
        StartCleanupOk(s1, SignFlow, AddSign(data));
    }
  }

  lemma ConfiguringCleanupOk(s: Page, e: Event)
    requires CleanupOk(s) && Admissible(s, e) && (e.Enable? || e.Subscribe? || e.Unsubscribe? || e.SetPresent?)
    ensures CleanupOk(Step(s, e))
  {
    if e.Enable? {
      var d := Step(s, e);
      assert d.sent == s.sent + [Outbound(|s.calls|, Envelope(Connect(s.host), s.extId))];
      assert d.calls == s.calls + [Connecting];
      GrowCleanupOk(s, d);
    } else {
      assert Step(s, e).sent == s.sent && Step(s, e).waiters == s.waiters && Step(s, e).calls == s.calls;
    }
  }

  lemma StepCleanupOk(s: Page, e: Event)
    requires Valid(s) && CleanupOk(s) && Admissible(s, e)
    ensures CleanupOk(Step(s, e))
  {
    if e.Deliver? || e.Echo? {
      HearStep(s, e);
      DispatchCleanupOk(Retimed(s, e), Heard(s, e));
    } else if e.TimerFires? {
      TimerCleanupOk(s, e.waiter);
    } else if e.Request? || e.AddTx? || e.Sign? {
      CallingCleanupOk(s, e);
    } else {
      ConfiguringCleanupOk(s, e);
    }
  }

  /** While a call races, its rejection wait is armed, so no cleanup has been posted for it. */
  lemma RacingUncleaned(s: Page, c: nat)
    requires Valid(s) && CleanupOk(s) && c < |s.calls| && s.calls[c].Deciding?
    ensures CleanupsOf(s, c) == {}
  {
    assert CallOk(s, c);
    var rj := s.calls[c].reject;
    assert s.waiters[rj].role.Reject? && s.waiters[rj].status.Pending? && s.waiters[rj].role.call == c;
  }

  /** Cleanups of distinct calls leave at most one for each call. */
  lemma OnceMeansAtMostOne(s: Page, c: nat)
    requires CleanupOnce(s)
    ensures |CleanupsOf(s, c)| <= 1
  {
    var r := CleanupsOf(s, c);
    if r != {} {
      var i :| i in r;
      assert r == {i};
    }
  }

  /**
    Along any admissible trace from a well-formed page, each call has at most one cleanup
    envelope in the outbound log, and a call still racing has none.
   */
  lemma {:induction false} RunCleansOnce(s: Page, tr: seq<Event>)
    requires Valid(s) && CleanupOk(s) && Admits(s, tr)
    ensures var d := Run(s, tr);
      && CleanupOk(d)
      && (forall c :: 0 <= c < |d.calls| ==> |CleanupsOf(d, c)| <= 1)
      && (forall c :: 0 <= c < |d.calls| && d.calls[c].Deciding? ==> CleanupsOf(d, c) == {})
    decreases |tr|
  {
    if tr != [] {
      StepCleanupOk(s, tr[0]);
      StepValid(s, tr[0]);
      RunCleansOnce(Step(s, tr[0]), tr[1..]);
    } else {
      forall c | 0 <= c < |s.calls| ensures |CleanupsOf(s, c)| <= 1 { OnceMeansAtMostOne(s, c); }
      forall c | 0 <= c < |s.calls| && s.calls[c].Deciding? ensures CleanupsOf(s, c) == {} {
        RacingUncleaned(s, c);
      }
    }
  }

  /** From the freshly installed page, no call ever gets two cleanup envelopes. */
  lemma CleanupAtMostOnce(extId: Option<string>, host: string, tr: seq<Event>)
    requires Admits(Init(extId, host), tr)
    ensures var d := Run(Init(extId, host), tr);
      forall c :: 0 <= c < |d.calls| ==> |CleanupsOf(d, c)| <= 1
  {
    InitValid(extId, host);
    InitCleanupOk(extId, host);
    RunCleansOnce(Init(extId, host), tr);
  }

  /**
    From the freshly installed page, a call that never got past its acknowledgement (one
    whose acknowledgement timed out in particular) has had no `OPEN_UI` and no cleanup
    posted for it, at any time.
   */
  lemma AckTimeoutNeverAnnounced(extId: Option<string>, host: string, tr: seq<Event>)
    requires Admits(Init(extId, host), tr)
    ensures var d := Run(Init(extId, host), tr);
      forall j :: 0 <= j < |d.sent| && d.sent[j].call < |d.calls| && !PastAck(d.calls[d.sent[j].call]) ==>
        !d.sent[j].env.msg.OpenUi? && !d.sent[j].env.msg.FailedTx? && !d.sent[j].env.msg.FailedSign?
    ensures var d := Run(Init(extId, host), tr);
      forall j :: 0 <= j < |d.sent| && d.sent[j].call < |d.calls| && d.calls[d.sent[j].call] == Settled(AckTimeout) ==>
        !d.sent[j].env.msg.OpenUi? && !d.sent[j].env.msg.FailedTx? && !d.sent[j].env.msg.FailedSign?
  {
    InitValid(extId, host);
    InitCleanupOk(extId, host);
    RunCleansOnce(Init(extId, host), tr);
  }
}
