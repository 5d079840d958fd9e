/**
  The page side of the request/response bridge (inpage/index.ts) as a transition system.
  A `Page` holds the provider's state, every message waiter ever created, every call the
  page made, and the envelopes posted so far. `Step` applies one timestamped event.

  Time is in milliseconds. At one instant a timer fires before any message or page call:
  an event at time `t` is admissible only once every timer due at or before `t` has fired,
  and timers fire in deadline order (creation order among equal deadlines).
 */
module Bridge {
  import opened Basics
  import opened Text
  import opened Envelope
  import opened Waiter
  import opened Protocol
  import opened Facade

  /** What a waiter is for: the acknowledgement, approval or rejection wait of one call. */
  datatype Role =
    | Ack(call: nat, kind: Kind)
    | Approve(call: nat, kind: Kind)
    | Reject(call: nat, kind: Kind, actionHash: string)

  /**
    The life of one page call. `since` is when the current wait began; `Connecting` is an
    `enable` whose listener is still registered; `Settled` is absorbing.
   */
  datatype Phase =
    | AwaitAck(ack: nat, since: nat)
    | Deciding(actionHash: string, approve: nat, reject: nat, since: nat)
    | Connecting
    | Settled(outcome: Outcome)

  /** A posted envelope and the call that posted it. */
  datatype Outbound = Outbound(call: nat, env: Envelope)

  datatype Page = Page(
    extId: Option<string>,           // `data-extension-id` of the injected element, if any
    host: string,                    // `window.location.host`
    now: nat,
    present: bool,                   // `window.starknet` is defined
    conn: Connection,
    handlers: seq<HandlerId>,        // `userEventHandlers`
    waiters: seq<Waiter<Role>>,      // indexed by creation order = registration order
    calls: seq<Phase>,               // indexed by call order
    sent: seq<Outbound>,             // everything posted, in order
    echo: seq<Envelope>,             // own posts not yet delivered back to the page
    notified: seq<Notification>)     // `accountsChanged` listener calls, in order

  /** The page right after the script ran: provider installed, nothing pending. */
  function Init(extId: Option<string>, host: string): Page {
    Page(extId, host, 0, true, Facade.Initial, [], [], [], [], [], [])
  }

  /**
    A JavaScript number the page passes. `Whole(n)` is a whole number below 10^21, which
    `toString()` renders as its decimal digits; `Rendered(text)` is any other number (a
    fraction, a negative number, 10^21 or more, NaN), kept as the text `toString()` gives.
   */
  datatype Number = Whole(n: nat) | Rendered(text: string)

  /** `x.toString()`. */
  function NumberText(x: Number): (r: string)
    ensures x.Whole? ==> ParseDecimal(r) == Some(x.n)
    ensures x.Rendered? ==> r == x.text
  {
    match x
    case Whole(n) =>
      DecimalRoundTrip(n);
      Show(n, 10)
    case Rendered(text) => text
  }

  /** `params.options` of a `wallet_watchAsset` call. */
  datatype AssetOptions = AssetOptions(address: string, symbol: string, decimals: Option<Number>, name: string)

  /** The argument of `request(call)`: `call.type`, `call.params.type`, `call.params.options`. */
  datatype RpcCall = RpcCall(callType: string, assetType: string, options: AssetOptions)

  datatype Event =
    | Deliver(at: nat, env: Envelope)          // a message posted by anyone else
    | Echo(at: nat)                            // the oldest own post comes back to the page
    | TimerFires(waiter: nat)
    | Request(at: nat, call: RpcCall)          // `starknet.request(call)`
    | AddTx(at: nat, tx: Transaction)          // `signer.addTransaction(tx)`
    | Sign(at: nat, typedData: string)         // `signer.signMessage(data)`
    | Enable(at: nat)                          // `starknet.enable()`
    | Subscribe(at: nat, event: string, handler: HandlerId)    // `starknet.on`
    | Unsubscribe(at: nat, event: string, handler: HandlerId)  // `starknet.off`
    | SetPresent(at: nat, present: bool)       // the page deletes or restores `window.starknet`

  /** No timer is due at or before `t`. */
  predicate Quiet(s: Page, t: nat) {
    forall w :: 0 <= w < |s.waiters| && s.waiters[w].status.Pending? ==> t < s.waiters[w].deadline
  }

  /** `w`'s timer is the next one to fire. */
  predicate NextDue(s: Page, w: nat) {
    && w < |s.waiters|
    && s.waiters[w].status.Pending?
    && s.now <= s.waiters[w].deadline
    && forall v :: 0 <= v < |s.waiters| && s.waiters[v].status.Pending? ==>
         s.waiters[w].deadline < s.waiters[v].deadline
         || (s.waiters[w].deadline == s.waiters[v].deadline && w <= v)
  }

  predicate Admissible(s: Page, e: Event) {
    match e
    case TimerFires(w) => NextDue(s, w)
    case Echo(t) => s.echo != [] && s.now <= t && Quiet(s, t)
    case AddTx(t, _) => s.conn.signer.Some? && s.now <= t && Quiet(s, t)
    case Sign(t, _) => s.conn.signer.Some? && s.now <= t && Quiet(s, t)
    case _ => s.now <= e.at && Quiet(s, e.at)
  }

  /** `sendMessage`: stamp with the extension id and post; the page will hear it too. */
  function Send(s: Page, c: nat, m: Msg): (s': Page)
    ensures s'.sent == s.sent + [Outbound(c, Envelope(m, s.extId))]
    ensures s'.echo == s.echo + [Envelope(m, s.extId)]
    ensures s'.calls == s.calls && s'.waiters == s.waiters && s'.conn == s.conn && s'.now == s.now
    ensures s'.handlers == s.handlers && s'.notified == s.notified && s'.present == s.present
  {
    var e := Envelope(m, s.extId);
    s.(sent := s.sent + [Outbound(c, e)], echo := s.echo + [e])
  }

  function SetPhase(s: Page, c: nat, p: Phase): Page
    requires c < |s.calls|
  {
    s.(calls := s.calls[c := p])
  }

  /**
    The `ADD_TOKEN` payload: options copied, decimals stringified when present; a whole
    number is sent as decimal digits that parse back to it.
   */
  function TokenPayload(o: AssetOptions): (t: TokenRequest)
    ensures t.address == o.address && t.symbol == o.symbol && t.name == o.name
    ensures o.decimals.None? <==> t.decimals.None?
    ensures o.decimals.Some? && o.decimals.value.Whole? ==> ParseDecimal(t.decimals.value) == Some(o.decimals.value.n)
    ensures o.decimals.Some? && o.decimals.value.Rendered? ==> t.decimals == Some(o.decimals.value.text)
  {
    match o.decimals
    case Some(x) => TokenRequest(o.address, o.symbol, Some(NumberText(x)), o.name)
    case None => TokenRequest(o.address, o.symbol, None, o.name)
  }

  /** A call that fails before posting anything. */
  function Refuse(s: Page, o: Outcome): Page {
    s.(calls := s.calls + [Settled(o)])
  }

  /** Post the request, then wait up to 1000 ms for its acknowledgement. */
  function Start(s: Page, k: Kind, request: Msg): (s': Page)
    ensures |s'.calls| == |s.calls| + 1
  {
    var c := |s.calls|;
    var s1 := Send(s.(calls := s.calls + [AwaitAck(|s.waiters|, s.now)]), c, request);
    s1.(waiters := s1.waiters + [Arm(Ack(c, k), AckType(k), AnyAction, s.now, AckTimeoutMs)])
  }

  /** After the acknowledgement: post `OPEN_UI` and race the approval wait against the rejection wait. */
  function Acknowledge(s: Page, c: nat, k: Kind, h: string): Page
    requires c < |s.calls|
  {
    var ap := |s.waiters|;
    var s1 := Send(s, c, OpenUi);
    s1.(waiters := s1.waiters + [Arm(Approve(c, k), ApproveType(k), Scope(k, h), s.now, ApproveTimeoutMs),
                                 Arm(Reject(c, k, h), RejectType(k), Scope(k, h), s.now, RejectTimeoutMs)],
        calls := s1.calls[c := Deciding(h, ap, ap + 1, s.now)])
  }

  /**
    The acknowledgement of call `c` for action `h` posts `OPEN_UI`, registers the approval
    wait (11 minutes) and then the rejection wait (10 minutes), both for the call's
    capability and, for add-token only, scoped to `h`, and moves the call to their race.
   */
  lemma AcknowledgeFacts(s: Page, c: nat, k: Kind, h: string)
    requires c < |s.calls|
    ensures var s', ap := Acknowledge(s, c, k, h), |s.waiters|;
      && s'.sent == s.sent + [Outbound(c, Envelope(OpenUi, s.extId))]
      && s'.calls == s.calls[c := Deciding(h, ap, ap + 1, s.now)]
      && |s'.waiters| == ap + 2 && s'.waiters[..ap] == s.waiters
      && s'.waiters[ap].role == Approve(c, k) && s'.waiters[ap].tag == ApproveType(k)
      && s'.waiters[ap + 1].role == Reject(c, k, h) && s'.waiters[ap + 1].tag == RejectType(k)
      && s'.waiters[ap].filter == s'.waiters[ap + 1].filter
      && (s'.waiters[ap].filter == OnlyAction(h) <==> k == TokenFlow)
      && (s'.waiters[ap].filter == AnyAction <==> k != TokenFlow)
      && s'.waiters[ap].deadline == s.now + 660000 && s'.waiters[ap + 1].deadline == s.now + 600000
      && s'.waiters[ap].status.Pending? && s'.waiters[ap].attached
      && s'.waiters[ap + 1].status.Pending? && s'.waiters[ap + 1].attached
      && s'.now == s.now && s'.conn == s.conn && s'.handlers == s.handlers
  {
  }

  /** Phase `p` is waiting on waiter `w`: its acknowledgement wait or one side of its race. */
  predicate Names(p: Phase, w: nat) {
    (p.AwaitAck? && p.ack == w) || (p.Deciding? && (p.approve == w || p.reject == w))
  }

  /**
    The continuation that runs when waiter `w` resolves with `m`: only the call whose phase
    names `w` moves, and only the acknowledgement of a waiting call posts or registers
    anything.
   */
  function Resume(s: Page, w: nat, m: Msg): (s': Page)
    requires w < |s.waiters|
    ensures |s'.waiters| >= |s.waiters| && |s'.calls| == |s.calls|
  {
    match s.waiters[w].role
    case Ack(c, k) =>
      if c < |s.calls| && s.calls[c].AwaitAck? && s.calls[c].ack == w && HashOf(m).Some?
      then Acknowledge(s, c, k, HashOf(m).value) else s
    case Approve(c, k) =>
      if c < |s.calls| && s.calls[c].Deciding? && s.calls[c].approve == w
      then SetPhase(s, c, Settled(Approved(ApprovedValue(k, m)))) else s
    case Reject(c, k, h) =>
      if c < |s.calls| && s.calls[c].Deciding? && s.calls[c].reject == w
      then SetPhase(s, c, Settled(UserAbort)) else s
  }

  /**
    Resuming changes no registered waiter and moves only the call whose phase names `w`;
    whatever it posts is for a call still waiting for its acknowledgement.
   */
  lemma ResumeFacts(s: Page, w: nat, m: Msg)
    requires w < |s.waiters|
    ensures var s' := Resume(s, w, m);
      && s'.waiters[..|s.waiters|] == s.waiters
      && (forall c :: 0 <= c < |s.calls| && !Names(s.calls[c], w) ==> s'.calls[c] == s.calls[c])
      && s'.now == s.now && s'.conn == s.conn && s'.present == s.present && s'.extId == s.extId
      && s'.handlers == s.handlers && s'.notified == s.notified && s'.host == s.host
      && |s'.sent| >= |s.sent| && s'.sent[..|s.sent|] == s.sent
      && (forall j :: |s.sent| <= j < |s'.sent| ==> s'.sent[j].call < |s.calls| && s.calls[s'.sent[j].call].AwaitAck?)
  {
  }

  /**
    The continuation that runs when waiter `w`'s timer fires. The rejection side's `catch`
    posts its cleanup envelope whether or not the race is still open.
   */
  function Lapse(s: Page, w: nat): (s': Page)
    requires w < |s.waiters|
    ensures |s'.calls| == |s.calls|
  {
    match s.waiters[w].role
    case Ack(c, k) =>
      if c < |s.calls| && s.calls[c].AwaitAck? && s.calls[c].ack == w
      then SetPhase(s, c, Settled(AckTimeout)) else s
    case Approve(c, k) =>
      if c < |s.calls| && s.calls[c].Deciding? && s.calls[c].approve == w
      then SetPhase(s, c, Settled(ApprovalTimeout)) else s
    case Reject(c, k, h) =>
      var s1 := Send(s, c, Cleanup(k, h));
      if c < |s.calls| && s.calls[c].Deciding? && s.calls[c].reject == w
      then SetPhase(s1, c, Settled(UserTimedOut)) else s1
  }

  /** Call `c`'s phase is waiting on waiter `w` in the role `r` that waiter plays for it. */
  predicate Waits(p: Phase, r: Role, w: nat) {
    match r
    case Ack(_, _) => p.AwaitAck? && p.ack == w
    case Approve(_, _) => p.Deciding? && p.approve == w
    case Reject(_, _, _) => p.Deciding? && p.reject == w
  }

  /** The outcome of a call whose wait in role `r` timed out. */
  function TimeoutOf(r: Role): Outcome {
    match r
    case Ack(_, _) => AckTimeout
    case Approve(_, _) => ApprovalTimeout
    case Reject(_, _, _) => UserTimedOut
  }

  /**
    A timer ends its call only while the call still waits on that side, with "Timeout"
    for the acknowledgement and approval waits and "User action timed out" for the
    rejection wait; the rejection side posts its cleanup whether or not the call still
    waits, and nothing else changes.
   */
  lemma LapseFacts(s: Page, w: nat)
    requires w < |s.waiters|
    ensures var s', r := Lapse(s, w), s.waiters[w].role;
      && s'.waiters == s.waiters && s'.now == s.now && s'.conn == s.conn && s'.handlers == s.handlers
      && (r.call < |s.calls| && Waits(s.calls[r.call], r, w) ==>
            s'.calls == s.calls[r.call := Settled(TimeoutOf(r))])
      && (!(r.call < |s.calls| && Waits(s.calls[r.call], r, w)) ==> s'.calls == s.calls)
      && (r.Reject? ==> s'.sent == s.sent + [Outbound(r.call, Envelope(Cleanup(r.kind, r.actionHash), s.extId))])
      && (!r.Reject? ==> s'.sent == s.sent)
  {
  }

  /** Waiter `w`'s handler hears `m`. */
  function Offer(s: Page, m: Msg, w: nat): (s': Page)
    requires w < |s.waiters|
    ensures |s'.waiters| >= |s.waiters| && |s'.calls| == |s.calls|
  {
    var v := s.waiters[w];
    if v.attached && Accepts(v, m) then
      var s1 := s.(waiters := s.waiters[w := Hear(v, m)]);
      if v.status.Pending? then Resume(s1, w, m) else s1
    else s
  }

  /**
    Hearing a message changes only the hearing waiter, and moves only a call whose phase
    names that waiter, and only when the waiter settles; it posts only for calls still
    open.
   */
  lemma OfferFacts(s: Page, m: Msg, w: nat)
    requires w < |s.waiters|
    ensures var s' := Offer(s, m, w);
      && s'.waiters[w] == Hear(s.waiters[w], m)
      && (forall v :: 0 <= v < |s.waiters| && v != w ==> s'.waiters[v] == s.waiters[v])
      && (forall c :: 0 <= c < |s.calls| && !(Names(s.calls[c], w) && Settles(s.waiters[w], m)) ==>
            s'.calls[c] == s.calls[c])
      && s'.now == s.now && s'.conn == s.conn && s'.present == s.present && s'.extId == s.extId
      && s'.handlers == s.handlers && s'.notified == s.notified && s'.host == s.host
      && |s'.sent| >= |s.sent| && s'.sent[..|s.sent|] == s.sent
      && (forall j :: |s.sent| <= j < |s'.sent| ==> s'.sent[j].call < |s.calls| && !s.calls[s'.sent[j].call].Settled?)
  {
    var v := s.waiters[w];
    if v.attached && Accepts(v, m) && v.status.Pending? {
      var s1 := s.(waiters := s.waiters[w := Hear(v, m)]);
      var r := Resume(s1, w, m);
      ResumeFacts(s1, w, m);
      assert forall v' :: 0 <= v' < |s.waiters| ==> r.waiters[v'] == r.waiters[..|s.waiters|][v'];
    }
  }

  /** The waiters registered when `m` was dispatched, `i` to `n - 1`, hear it in order. */
  function OfferFrom(s: Page, m: Msg, i: nat, n: nat): (s': Page)
    requires n <= |s.waiters|
    ensures |s'.waiters| >= |s.waiters| && |s'.calls| == |s.calls|
    decreases n - i
  {
    if i >= n then s else OfferFrom(Offer(s, m, i), m, i + 1, n)
  }

  /** `enable`'s listener of call `i` hears `m`. */
  function ConnectOne(s: Page, m: Msg, i: nat): (s': Page)
    requires i < |s.calls|
    ensures |s'.calls| == |s.calls| && s'.waiters == s.waiters
    ensures s'.calls[i] != s.calls[i] <==> s.calls[i] == Connecting && s.present && m.ConnectRes? && m.account.Some?
    ensures s'.calls[i] != s.calls[i] ==>
      && s'.calls == s.calls[i := Settled(Connected([m.account.value.address]))]
      && s'.conn == Adopt(s.conn, m.account.value)
    ensures s'.calls[i] == s.calls[i] ==> s' == s
  {
    if s.calls[i] == Connecting && s.present && m.ConnectRes? && m.account.Some? then
      var a := m.account.value;
      s.(conn := Adopt(s.conn, a), calls := s.calls[i := Settled(Connected([a.address]))])
    else s
  }

  /** Every pending `enable`, in call order, hears `m`. */
  function ConnectFrom(s: Page, m: Msg, i: nat): (s': Page)
    ensures |s'.calls| == |s.calls| && s'.waiters == s.waiters
    decreases |s.calls| - i
  {
    if i >= |s.calls| then s else ConnectFrom(ConnectOne(s, m, i), m, i + 1)
  }

  /**
    One message on the bus reaches every listener attached when it is dispatched: the global
    `WALLET_CONNECTED` listener, the `enable` listeners, then the waiters. These react to
    disjoint message types, so their relative order does not matter.
   */
  function Dispatch(s: Page, m: Msg): (s': Page)
    ensures |s'.calls| == |s.calls|
  {
    var r := OnWalletConnected(s.conn, s.present, s.handlers, m);
    var s1 := s.(conn := r.conn, notified := s.notified + r.calls);
    var s2 := ConnectFrom(s1, m, 0);
    OfferFrom(s2, m, 0, |s2.waiters|)
  }

  /**
    One event. Each page call records exactly one new call, whatever becomes of it;
    messages, timers and listener changes record none.
   */
  function Step(s: Page, e: Event): (s': Page)
    requires Admissible(s, e)
    ensures |s'.calls| == |s.calls| + (if e.Request? || e.AddTx? || e.Sign? || e.Enable? then 1 else 0)
  {
    match e
    case Deliver(t, env) => Dispatch(s.(now := t), env.msg)
    case Echo(t) => Dispatch(s.(now := t, echo := s.echo[1..]), s.echo[0].msg)
    case TimerFires(w) =>
      var v := s.waiters[w];
      Lapse(s.(now := v.deadline, waiters := s.waiters[w := Expire(v)]), w)
    case Request(t, call) =>
      var s1 := s.(now := t);
      if call.callType == "wallet_watchAsset" && call.assetType == "ERC20"
      then Start(s1, TokenFlow, AddToken(TokenPayload(call.options)))
      else Refuse(s1, NotImplemented)
    case AddTx(t, tx) =>
      var s1 := s.(now := t);
      if tx.txType == "DEPLOY" then Refuse(s1, Delegated)
      else if tx.signature.Some? && |tx.signature.value| > 0 then Refuse(s1, SignatureUnsupported)
      else Start(s1, TxFlow(tx.contractAddress), AddTransaction(tx))
    case Sign(t, data) => Start(s.(now := t), SignFlow, AddSign(data))
    case Enable(t) =>
      Send(s.(now := t, calls := s.calls + [Connecting]), |s.calls|, Connect(s.host))
    case Subscribe(t, ev, h) =>
      (match On(s.handlers, ev, h)
       case Success(hs) => s.(now := t, handlers := hs)
       case Failure(_) => s.(now := t))
    case Unsubscribe(t, ev, h) =>
      (match Off(s.handlers, ev, h)
       case Success(hs) => s.(now := t, handlers := hs)
       case Failure(_) => s.(now := t))
    case SetPresent(t, b) => s.(now := t, present := b)
  }

  /** A trace every event of which is admissible when it happens. */
  predicate Admits(s: Page, tr: seq<Event>)
    decreases |tr|
  {
    tr == [] || (Admissible(s, tr[0]) && Admits(Step(s, tr[0]), tr[1..]))
  }

  function Run(s: Page, tr: seq<Event>): Page
    requires Admits(s, tr)
    decreases |tr|
  {
    if tr == [] then s else Run(Step(s, tr[0]), tr[1..])
  }
}
