/**
  The well-formedness invariant of a page: every pending wait of a call is a registered,
  armed waiter with the call's role, type, predicate and deadline, and a call settles only
  with an outcome the protocol can produce. `Step` preserves it.
 */
module BridgeInvariant {
  import opened Basics
  import opened Envelope
  import opened Waiter
  import opened Protocol
  import opened Facade
  import opened Bridge

  /** The call got past its acknowledgement: a race was started for it. */
  predicate PastAck(p: Phase) {
    || p.Deciding?
    || (p.Settled? && (p.outcome.Approved? || p.outcome == UserAbort || p.outcome == UserTimedOut))
  }

  /** The message type a waiter of role `r` listens for. */
  function Listens(r: Role): string {
    match r
    case Ack(_, k) => AckType(k)
    case Approve(_, k) => ApproveType(k)
    case Reject(_, k, _) => RejectType(k)
  }

  predicate WaiterOk(s: Page, w: nat)
    requires w < |s.waiters|
  {
    var v := s.waiters[w];
    && v.role.call < |s.calls|
    && v.tag == Listens(v.role)
    && (v.status.Pending? ==> v.attached)
    && (!v.role.Ack? ==> PastAck(s.calls[v.role.call]))
  }

  predicate CallOk(s: Page, c: nat)
    requires c < |s.calls|
  {
    match s.calls[c]
    case AwaitAck(a, since) =>
      && a < |s.waiters|
      && s.waiters[a].role.Ack? && s.waiters[a].role.call == c
      && s.waiters[a].tag == AckType(s.waiters[a].role.kind) && s.waiters[a].filter == AnyAction
      && s.waiters[a].status.Pending?
      && s.waiters[a].deadline == since + AckTimeoutMs
    case Deciding(h, ap, rj, since) =>
      && ap < |s.waiters| && rj < |s.waiters|
      && var k := s.waiters[ap].role.kind;
      && s.waiters[ap].role == Approve(c, k)
      && s.waiters[rj].role == Reject(c, k, h)
      && s.waiters[ap].tag == ApproveType(k) && s.waiters[rj].tag == RejectType(k)
      && s.waiters[ap].filter == Scope(k, h) && s.waiters[rj].filter == Scope(k, h)
      && s.waiters[ap].status.Pending? && s.waiters[rj].status.Pending?
      && s.waiters[ap].deadline == since + ApproveTimeoutMs
      && s.waiters[rj].deadline == since + RejectTimeoutMs
    case Connecting => true
    case Settled(o) => o != ApprovalTimeout
  }

  /** Every posted envelope carries the page's stamp and names an existing call. */
  predicate Stamped(s: Page) {
    forall j :: 0 <= j < |s.sent| ==> s.sent[j].env.extensionId == s.extId && s.sent[j].call < |s.calls|
  }

  predicate Valid(s: Page) {
    && (forall c :: 0 <= c < |s.calls| ==> CallOk(s, c))
    && (forall w :: 0 <= w < |s.waiters| ==> WaiterOk(s, w))
    && Coherent(s.conn)
    && Stamped(s)
  }

  lemma InitValid(extId: Option<string>, host: string)
    ensures Valid(Init(extId, host))
  {
  }

  /** A waiter named by a call's phase belongs to that call. */
  lemma NamedBelongs(s: Page, c: nat, w: nat)
    requires Valid(s) && c < |s.calls| && Names(s.calls[c], w)
    ensures w < |s.waiters| && s.waiters[w].role.call == c && s.waiters[w].status.Pending?
    ensures s.calls[c].AwaitAck? ==> s.waiters[w].role.Ack?
    ensures s.calls[c].Deciding? && w == s.calls[c].approve ==> s.waiters[w].role.Approve?
    ensures s.calls[c].Deciding? && w == s.calls[c].reject ==> s.waiters[w].role.Reject?
  {
    assert CallOk(s, c);
  }

  /** An acknowledgement message always carries a hash. */
  lemma AckCarriesHash(k: Kind, m: Msg)
    requires TypeOf(m) == AckType(k)
    ensures HashOf(m).Some?
  {
  }
}

module BridgePreservation {
  import opened Basics
  import opened Envelope
  import opened Waiter
  import opened Protocol
  import opened Facade
  import opened Bridge
  import opened BridgeInvariant

  /** Replacing waiter `w` and settling call `c`, the only call waiting on `w`, keeps the invariant. */
  lemma SettleValid(s: Page, c: nat, o: Outcome, w: nat, v': Waiter<Role>)
    requires Valid(s) && c < |s.calls| && w < |s.waiters|
    requires forall c' :: 0 <= c' < |s.calls| && Names(s.calls[c'], w) ==> c' == c
    requires v'.role == s.waiters[w].role && v'.tag == s.waiters[w].tag && (v'.status.Pending? ==> v'.attached)
    requires o != ApprovalTimeout
    requires PastAck(s.calls[c]) ==> PastAck(Settled(o))
    ensures Valid(s.(waiters := s.waiters[w := v'], calls := s.calls[c := Settled(o)]))
  {
    var s' := s.(waiters := s.waiters[w := v'], calls := s.calls[c := Settled(o)]);
    forall c' | 0 <= c' < |s'.calls| ensures CallOk(s', c') {
      assert CallOk(s, c');
      if c' != c {
        assert !Names(s.calls[c'], w);
        match s.calls[c'] {
          case AwaitAck(a, _) => assert a != w && s'.waiters[a] == s.waiters[a];
          case Deciding(_, ap, rj, _) =>
            assert ap != w && rj != w;
            assert s'.waiters[ap] == s.waiters[ap] && s'.waiters[rj] == s.waiters[rj];
          case Connecting =>
          case Settled(_) =>
        }
      }
    }
    forall v | 0 <= v < |s'.waiters| ensures WaiterOk(s', v) {
      assert WaiterOk(s, v);
    }
  }

  /** Replacing a waiter no call waits on, keeping its role, keeps the invariant. */
  lemma UnnamedValid(s: Page, w: nat, v': Waiter<Role>)
    requires Valid(s) && w < |s.waiters|
    requires forall c' :: 0 <= c' < |s.calls| ==> !Names(s.calls[c'], w)
    requires v'.role == s.waiters[w].role && v'.tag == s.waiters[w].tag && (v'.status.Pending? ==> v'.attached)
    ensures Valid(s.(waiters := s.waiters[w := v']))
  {
    var s' := s.(waiters := s.waiters[w := v']);
    forall c' | 0 <= c' < |s'.calls| ensures CallOk(s', c') {
      assert CallOk(s, c');
      match s.calls[c'] {
        case AwaitAck(a, _) => assert a != w && s'.waiters[a] == s.waiters[a];
        case Deciding(_, ap, rj, _) =>
          assert ap != w && rj != w;
          assert s'.waiters[ap] == s.waiters[ap] && s'.waiters[rj] == s.waiters[rj];
        case Connecting =>
        case Settled(_) =>
      }
    }
    forall v | 0 <= v < |s'.waiters| ensures WaiterOk(s', v) {
      assert WaiterOk(s, v);
    }
  }

  lemma SendValid(s: Page, c: nat, m: Msg)
    requires Valid(s) && c < |s.calls|
    ensures Valid(Send(s, c, m))
  {
    var s' := Send(s, c, m);
    forall c' | 0 <= c' < |s'.calls| ensures CallOk(s', c') {
      assert CallOk(s, c');
    }
    forall v | 0 <= v < |s'.waiters| ensures WaiterOk(s', v) {
      assert WaiterOk(s, v);
    }
  }

  /** The acknowledgement continuation starts a well-formed race. */
  lemma AcknowledgeValid(s: Page, c: nat, w: nat, v': Waiter<Role>, h: string)
    requires Valid(s) && c < |s.calls| && s.calls[c].AwaitAck? && s.calls[c].ack == w
    requires w < |s.waiters| && v'.role == s.waiters[w].role && v'.tag == s.waiters[w].tag && !v'.status.Pending?
    ensures Valid(Acknowledge(s.(waiters := s.waiters[w := v']), c, s.waiters[w].role.kind, h))
  {
    NamedBelongs(s, c, w);
    var k := s.waiters[w].role.kind;
    var s1 := s.(waiters := s.waiters[w := v']);
    var s' := Acknowledge(s1, c, k, h);
    var ap := |s.waiters|;
    assert s'.waiters == s1.waiters + [Arm(Approve(c, k), ApproveType(k), Scope(k, h), s.now, ApproveTimeoutMs),
                                       Arm(Reject(c, k, h), RejectType(k), Scope(k, h), s.now, RejectTimeoutMs)];
    assert s'.calls == s.calls[c := Deciding(h, ap, ap + 1, s.now)];
    forall c' | 0 <= c' < |s'.calls| ensures CallOk(s', c') {
      if c' != c {
        assert CallOk(s, c');
        assert !Names(s.calls[c'], w) by {
          if Names(s.calls[c'], w) { NamedBelongs(s, c', w); }
        }
        match s.calls[c'] {
          case AwaitAck(a, _) => assert s'.waiters[a] == s.waiters[a];
          case Deciding(_, ap', rj', _) =>
            assert s'.waiters[ap'] == s.waiters[ap'] && s'.waiters[rj'] == s.waiters[rj'];
          case Connecting =>
          case Settled(_) =>
        }
      }
    }
    forall v | 0 <= v < |s'.waiters| ensures WaiterOk(s', v) {
      if v < ap {
        assert WaiterOk(s, v);
      }
    }
    assert Stamped(s') by {
      assert Stamped(s);
      assert s'.sent == s.sent + [Outbound(c, Envelope(OpenUi, s.extId))];
    }
  }

  /** A waiter that the calls do not wait on as its role says is waited on by no call. */
  lemma OnlyOwnerNames(s: Page, w: nat)
    requires Valid(s) && w < |s.waiters|
    requires var r := s.waiters[w].role;
      r.call < |s.calls| ==> match r
        case Ack(c, _) => !(s.calls[c].AwaitAck? && s.calls[c].ack == w)
        case Approve(c, _) => !(s.calls[c].Deciding? && s.calls[c].approve == w)
        case Reject(c, _, _) => !(s.calls[c].Deciding? && s.calls[c].reject == w)
    ensures forall c' :: 0 <= c' < |s.calls| ==> !Names(s.calls[c'], w)
  {
    forall c' | 0 <= c' < |s.calls| ensures !Names(s.calls[c'], w) {
      if Names(s.calls[c'], w) {
        NamedBelongs(s, c', w);
      }
    }
  }

  lemma OfferValid(s: Page, m: Msg, w: nat)
    requires Valid(s) && w < |s.waiters|
    ensures Valid(Offer(s, m, w))
  {
    var v := s.waiters[w];
    assert WaiterOk(s, w);
    if v.attached && Accepts(v, m) {
      var v' := Hear(v, m);
      if !v.status.Pending? {
        forall c' | 0 <= c' < |s.calls| ensures !Names(s.calls[c'], w) {
          if Names(s.calls[c'], w) { NamedBelongs(s, c', w); }
        }
        UnnamedValid(s, w, v');
      } else if v.role.Ack? {
        AckHeardValid(s, m, w);
      } else {
        DecisionHeardValid(s, m, w);
      }
    }
  }

  /** An acknowledgement waiter that settles keeps the page well formed. */
  lemma AckHeardValid(s: Page, m: Msg, w: nat)
    requires Valid(s) && w < |s.waiters| && Settles(s.waiters[w], m) && s.waiters[w].role.Ack?
    ensures Valid(Offer(s, m, w))
  {
    var v := s.waiters[w];
    var v' := Hear(v, m);
    assert WaiterOk(s, w);
    var c, k := v.role.call, v.role.kind;
    if s.calls[c].AwaitAck? && s.calls[c].ack == w {
      assert CallOk(s, c);
      AckCarriesHash(k, m);
      AcknowledgeValid(s, c, w, v', HashOf(m).value);
    } else {
      OnlyOwnerNames(s, w);
      UnnamedValid(s, w, v');
    }
  }

  /** A waiter of a race that settles keeps the page well formed. */
  lemma DecisionHeardValid(s: Page, m: Msg, w: nat)
    requires Valid(s) && w < |s.waiters| && Settles(s.waiters[w], m) && !s.waiters[w].role.Ack?
    ensures Valid(Offer(s, m, w))
  {
    var v := s.waiters[w];
    var v' := Hear(v, m);
    assert WaiterOk(s, w);
    var c := v.role.call;
    var named := if v.role.Approve? then s.calls[c].Deciding? && s.calls[c].approve == w
                 else s.calls[c].Deciding? && s.calls[c].reject == w;
    if named {
      forall c' | 0 <= c' < |s.calls| && Names(s.calls[c'], w) ensures c' == c {
        NamedBelongs(s, c', w);
      }
      var o := if v.role.Approve? then Approved(ApprovedValue(v.role.kind, m)) else UserAbort;
      SettleValid(s, c, o, w, v');
    } else {
      OnlyOwnerNames(s, w);
      UnnamedValid(s, w, v');
    }
  }

  lemma {:induction false} OfferFromValid(s: Page, m: Msg, i: nat, n: nat)
    requires Valid(s) && n <= |s.waiters|
    ensures Valid(OfferFrom(s, m, i, n))
    decreases n - i
  {
    if i < n {
      OfferValid(s, m, i);
      OfferFromValid(Offer(s, m, i), m, i + 1, n);
    }
  }

  /** While a race is open, its approval timer is never the next to fire. */
  lemma ApprovalNeverDue(s: Page, c: nat)
    requires Valid(s) && c < |s.calls| && s.calls[c].Deciding?
    ensures !NextDue(s, s.calls[c].approve)
  {
    assert CallOk(s, c);
    var rj := s.calls[c].reject;
    assert s.waiters[rj].status.Pending? && s.waiters[rj].deadline < s.waiters[s.calls[c].approve].deadline;
  }

  lemma TimerValid(s: Page, w: nat)
    requires Valid(s) && NextDue(s, w)
    ensures Valid(Step(s, TimerFires(w)))
  {
    var v := s.waiters[w];
    assert WaiterOk(s, w);
    var v' := Expire(v);
    var s0 := s.(now := v.deadline);
    assert Valid(s0) by {
      forall c' | 0 <= c' < |s0.calls| ensures CallOk(s0, c') { assert CallOk(s, c'); }
      forall u | 0 <= u < |s0.waiters| ensures WaiterOk(s0, u) { assert WaiterOk(s, u); }
    }
    var s1 := s0.(waiters := s0.waiters[w := v']);
    assert Step(s, TimerFires(w)) == Lapse(s1, w);
    match v.role {
      case Ack(c, k) =>
        if s.calls[c].AwaitAck? && s.calls[c].ack == w {
          forall c' | 0 <= c' < |s0.calls| && Names(s0.calls[c'], w) ensures c' == c {
            NamedBelongs(s0, c', w);
          }
          SettleValid(s0, c, AckTimeout, w, v');
        } else {
          OnlyOwnerNames(s0, w);
          UnnamedValid(s0, w, v');
        }
      case Approve(c, k) =>
        if s.calls[c].Deciding? && s.calls[c].approve == w {
          ApprovalNeverDue(s, c);
        } else {
          OnlyOwnerNames(s0, w);
          UnnamedValid(s0, w, v');
        }
      case Reject(c, k, h) =>
        RejectLapseValid(s, w);
    }
  }

  /** The rejection timer's cleanup post and settlement keep the page well formed. */
  lemma RejectLapseValid(s: Page, w: nat)
    requires Valid(s) && NextDue(s, w) && s.waiters[w].role.Reject?
    ensures Valid(Step(s, TimerFires(w)))
  {
    var v := s.waiters[w];
    assert WaiterOk(s, w);
    var v' := Expire(v);
    var c, k, h := v.role.call, v.role.kind, v.role.actionHash;
    var s0 := s.(now := v.deadline);
    assert Valid(s0) by {
      forall c' | 0 <= c' < |s0.calls| ensures CallOk(s0, c') { assert CallOk(s, c'); }
      forall u | 0 <= u < |s0.waiters| ensures WaiterOk(s0, u) { assert WaiterOk(s, u); }
    }
    var s1 := s0.(waiters := s0.waiters[w := v']);
    assert Step(s, TimerFires(w)) == Lapse(s1, w);
    var s2 := Send(s0, c, Cleanup(k, h));
    SendValid(s0, c, Cleanup(k, h));
    if s.calls[c].Deciding? && s.calls[c].reject == w {
      forall c' | 0 <= c' < |s2.calls| && Names(s2.calls[c'], w) ensures c' == c {
        NamedBelongs(s2, c', w);
      }
      SettleValid(s2, c, UserTimedOut, w, v');
      assert Lapse(s1, w) == s2.(waiters := s2.waiters[w := v'], calls := s2.calls[c := Settled(UserTimedOut)]);
    } else {
      OnlyOwnerNames(s2, w);
      UnnamedValid(s2, w, v');
      assert Lapse(s1, w) == s2.(waiters := s2.waiters[w := v']);
    }
  }

  lemma ConnectOneValid(s: Page, m: Msg, i: nat)
    requires Valid(s) && i < |s.calls|
    ensures Valid(ConnectOne(s, m, i))
  {
    var s' := ConnectOne(s, m, i);
    if s' != s {
      forall c' | 0 <= c' < |s'.calls| ensures CallOk(s', c') { assert CallOk(s, c'); }
      forall u | 0 <= u < |s'.waiters| ensures WaiterOk(s', u) { assert WaiterOk(s, u); }
    }
  }

  lemma {:induction false} ConnectFromValid(s: Page, m: Msg, i: nat)
    requires Valid(s)
    ensures Valid(ConnectFrom(s, m, i))
    decreases |s.calls| - i
  {
    if i < |s.calls| {
      ConnectOneValid(s, m, i);
      ConnectFromValid(ConnectOne(s, m, i), m, i + 1);
    }
  }

  lemma DispatchValid(s: Page, m: Msg)
    requires Valid(s)
    ensures Valid(Dispatch(s, m))
  {
    var r := OnWalletConnected(s.conn, s.present, s.handlers, m);
    var s1 := s.(conn := r.conn, notified := s.notified + r.calls);
    assert Valid(s1) by {
      forall c' | 0 <= c' < |s1.calls| ensures CallOk(s1, c') { assert CallOk(s, c'); }
      forall u | 0 <= u < |s1.waiters| ensures WaiterOk(s1, u) { assert WaiterOk(s, u); }
    }
    ConnectFromValid(s1, m, 0);
    var s2 := ConnectFrom(s1, m, 0);
    OfferFromValid(s2, m, 0, |s2.waiters|);
  }

  /** Only the clock moves, or one field outside the invariant changes. */
  lemma RetimeValid(s: Page, s': Page)
    requires Valid(s)
    requires s' == s.(now := s'.now, present := s'.present, handlers := s'.handlers, echo := s'.echo)
    ensures Valid(s')
  {
    forall c' | 0 <= c' < |s'.calls| ensures CallOk(s', c') { assert CallOk(s, c'); }
    forall u | 0 <= u < |s'.waiters| ensures WaiterOk(s', u) { assert WaiterOk(s, u); }
  }

  lemma StartValid(s: Page, k: Kind, request: Msg)
    requires Valid(s)
    ensures Valid(Start(s, k, request))
  {
    var s' := Start(s, k, request);
    var c := |s.calls|;
    forall c' | 0 <= c' < |s'.calls| ensures CallOk(s', c') {
      if c' < c { assert CallOk(s, c'); }
    }
    forall u | 0 <= u < |s'.waiters| ensures WaiterOk(s', u) {
      if u < |s.waiters| { assert WaiterOk(s, u); }
    }
  }

  lemma RefuseValid(s: Page, o: Outcome)
    requires Valid(s) && o != ApprovalTimeout
    ensures Valid(Refuse(s, o))
  {
    var s' := Refuse(s, o);
    forall c' | 0 <= c' < |s'.calls| ensures CallOk(s', c') {
      if c' < |s.calls| { assert CallOk(s, c'); }
    }
    forall u | 0 <= u < |s'.waiters| ensures WaiterOk(s', u) { assert WaiterOk(s, u); }
  }

  lemma StepValid(s: Page, e: Event)
    requires Valid(s) && Admissible(s, e)
    ensures Valid(Step(s, e))
  {
    if e.Deliver? || e.Echo? {
      HearingValid(s, e);
    } else if e.TimerFires? {
      TimerValid(s, e.waiter);
    } else if e.Request? || e.AddTx? || e.Sign? {
      CallingValid(s, e);
    } else {
      ConfiguringValid(s, e);
    }
  }

  lemma HearingValid(s: Page, e: Event)
    requires Valid(s) && Admissible(s, e) && (e.Deliver? || e.Echo?)
    ensures Valid(Step(s, e))
  {
    if e.Deliver? {
      RetimeValid(s, s.(now := e.at));
      DispatchValid(s.(now := e.at), e.env.msg);
    } else {
      RetimeValid(s, s.(now := e.at, echo := s.echo[1..]));
      DispatchValid(s.(now := e.at, echo := s.echo[1..]), s.echo[0].msg);
    }
  }

  lemma CallingValid(s: Page, e: Event)
    requires Valid(s) && Admissible(s, e) && (e.Request? || e.AddTx? || e.Sign?)
    ensures Valid(Step(s, e))
  {
    var s1 := s.(now := e.at);
    RetimeValid(s, s1);
    match e {
      case Request(t, call) =>
        StartValid(s1, TokenFlow, AddToken(TokenPayload(call.options)));
        RefuseValid(s1, NotImplemented);
      case AddTx(t, tx) =>
        RefuseValid(s1, Delegated);
        RefuseValid(s1, SignatureUnsupported);
        StartValid(s1, TxFlow(tx.contractAddress), AddTransaction(tx));
      case Sign(t, data) =>
        StartValid(s1, SignFlow, AddSign(data));
    }
  }

  lemma ConfiguringValid(s: Page, e: Event)
    requires Valid(s) && Admissible(s, e) && (e.Enable? || e.Subscribe? || e.Unsubscribe? || e.SetPresent?)
    ensures Valid(Step(s, e))
  {
    if e.Enable? {
      var s1 := s.(now := e.at, calls := s.calls + [Connecting]);
      assert Valid(s1) by {
        forall c' | 0 <= c' < |s1.calls| ensures CallOk(s1, c') {
          if c' < |s.calls| { assert CallOk(s, c'); }
        }
        forall u | 0 <= u < |s1.waiters| ensures WaiterOk(s1, u) { assert WaiterOk(s, u); }
      }
      SendValid(s1, |s.calls|, Connect(s.host));
    } else {
      RetimeValid(s, Step(s, e));
    }
  }

  /** Every page reachable by an admissible trace is well formed. */
  lemma {:induction false} RunValid(s: Page, tr: seq<Event>)
    requires Valid(s) && Admits(s, tr)
    ensures Valid(Run(s, tr))
    decreases |tr|
  {
    if tr != [] {
      StepValid(s, tr[0]);
      RunValid(Step(s, tr[0]), tr[1..]);
    }
  }
}
