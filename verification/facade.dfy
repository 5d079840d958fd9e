/**
  The page-visible provider object `window.starknet` of inpage/index.ts: its connection
  state, its `accountsChanged` listener list, and the unsolicited `WALLET_CONNECTED` handler.
 */
module Facade {
  import opened Basics
  import opened Envelope

  /** A listener function, identified by reference. */
  type HandlerId = nat

  /** `defaultProvider` until a network is adopted, then `new Provider({ network })`. */
  datatype Provider = DefaultProvider | NetworkProvider(network: string)

  /** `new WalletSigner(address, provider)`. */
  datatype Signer = Signer(address: string, provider: Provider)

  datatype Connection = Connection(
    selectedAddress: Option<string>,
    signer: Option<Signer>,
    provider: Provider,
    isConnected: bool)

  /** The object as installed on `window`: nothing selected, no signer, not connected. */
  const Initial: Connection := Connection(None, None, DefaultProvider, false)

  /** The signer is always built from the selected address and the current provider. */
  predicate Coherent(c: Connection) {
    && (c.signer.Some? ==> c.selectedAddress == Some(c.signer.value.address) && c.provider == c.signer.value.provider)
    && (c.isConnected <==> c.signer.Some?)
  }

  /** A call of one `accountsChanged` listener with its argument `[address]`. */
  datatype Notification = Notification(handler: HandlerId, accounts: seq<string>)

  /** What `enable` does on the first `CONNECT_RES` with data. */
  function Adopt(c: Connection, a: Account): (r: Connection)
    ensures Coherent(r) && r.isConnected
    ensures r.selectedAddress == Some(a.address) && r.provider == NetworkProvider(a.network)
  {
    var p := NetworkProvider(a.network);
    Connection(Some(a.address), Some(Signer(a.address, p)), p, true)
  }

  /** The state after the `WALLET_CONNECTED` handler, and the listener calls it made. */
  datatype Reaction = Reaction(conn: Connection, calls: seq<Notification>)

  /**
    The global `WALLET_CONNECTED` listener: ignored while `window.starknet` is absent or has
    no signer, and a no-op for the already selected address (whatever the network). Otherwise
    it re-derives address, provider and signer and calls every listener in registration
    order with `[address]`; `isConnected` is left alone.
   */
  predicate Switches(c: Connection, present: bool, m: Msg) {
    present && c.signer.Some? && m.WalletConnected? && Some(m.connected.address) != c.selectedAddress
  }

  function OnWalletConnected(c: Connection, present: bool, handlers: seq<HandlerId>, m: Msg): (r: Reaction)
    ensures !Switches(c, present, m) ==> r == Reaction(c, [])
    ensures Switches(c, present, m) ==>
      && r.conn.selectedAddress == Some(m.connected.address)
      && r.conn.provider == NetworkProvider(m.connected.network)
      && r.conn.isConnected == c.isConnected
      && |r.calls| == |handlers|
      && forall i :: 0 <= i < |handlers| ==> r.calls[i] == Notification(handlers[i], [m.connected.address])
    ensures Coherent(c) ==> Coherent(r.conn)
  {
    if Switches(c, present, m) then
      var a := m.connected;
      var p := NetworkProvider(a.network);
      Reaction(c.(selectedAddress := Some(a.address), provider := p, signer := Some(Signer(a.address, p))),
               seq(|handlers|, i requires 0 <= i < |handlers| => Notification(handlers[i], [a.address])))
    else Reaction(c, [])
  }

  /** The only event name the provider supports. */
  const AccountsChanged: string := "accountsChanged"

  /** The message thrown for any other event name, spelled as the source spells it. */
  function UnknownEvent(event: string): string {
    "Unknwown event: " + event
  }

  /** `on(event, handler)`: appends, so duplicates are kept in call order. */
  function On(handlers: seq<HandlerId>, event: string, h: HandlerId): (r: Result<seq<HandlerId>>)
    ensures r.Failure? <==> event != AccountsChanged
    ensures r.Failure? ==> r.error == UnknownEvent(event)
    ensures r.Success? ==> |r.value| == |handlers| + 1 && r.value[..|handlers|] == handlers && r.value[|handlers|] == h
  {
    if event != AccountsChanged then Failure(UnknownEvent(event)) else Success(handlers + [h])
  }

  /** `indexOf(x)`: the first position of `x`. */
  function FirstIndex(xs: seq<HandlerId>, x: HandlerId): (i: nat)
    requires x in xs
    ensures i < |xs| && xs[i] == x && x !in xs[..i]
  {
    if xs[0] == x then 0
    else
      var j := FirstIndex(xs[1..], x);
      assert xs[..j + 1] == [xs[0]] + xs[1..][..j];
      j + 1
  }

  /**
    `splice(indexOf(x), 1)` guarded by `includes(x)`: the first occurrence goes, and the
    listeners before and after it keep their order.
   */
  function RemoveFirst(xs: seq<HandlerId>, x: HandlerId): (r: seq<HandlerId>)
    ensures multiset(r) == multiset(xs) - multiset{x}
    ensures x in xs ==> |r| == |xs| - 1
    ensures x in xs ==>
      exists i :: 0 <= i < |xs| && xs[i] == x && x !in xs[..i] && r == xs[..i] + xs[i + 1..]
    ensures x !in xs ==> r == xs
  {
    if x in xs then
      var i := FirstIndex(xs, x);
      assert xs == xs[..i] + [x] + xs[i + 1..];
      xs[..i] + xs[i + 1..]
    else xs
  }

  /** `off(event, handler)`: removes the first occurrence only; absent handlers are a no-op. */
  function Off(handlers: seq<HandlerId>, event: string, h: HandlerId): (r: Result<seq<HandlerId>>)
    ensures r.Failure? <==> event != AccountsChanged
    ensures r.Failure? ==> r.error == UnknownEvent(event)
    ensures r.Success? ==> r.value == RemoveFirst(handlers, h)
  {
    if event != AccountsChanged then Failure(UnknownEvent(event)) else Success(RemoveFirst(handlers, h))
  }

  /** Registering a new listener and then removing it restores the list. */
  lemma OffUndoesOn(handlers: seq<HandlerId>, h: HandlerId)
    requires h !in handlers
    ensures Off(On(handlers, AccountsChanged, h).value, AccountsChanged, h) == Success(handlers)
  {
    var hs := handlers + [h];
    assert forall j :: 0 <= j < |handlers| ==> hs[j] == handlers[j];
    var i := FirstIndex(hs, h);
    assert i == |handlers|;
    assert hs[..i] == handlers;
    assert hs[i + 1..] == [];
    assert RemoveFirst(hs, h) == handlers;
  }

  /** With a listener registered twice, `off` drops one registration and keeps the other. */
  lemma OffDropsOneDuplicate(handlers: seq<HandlerId>, h: HandlerId)
    ensures var twice := handlers + [h, h];
      multiset(Off(twice, AccountsChanged, h).value)[h] == multiset(handlers)[h] + 1
  {
  }
}
