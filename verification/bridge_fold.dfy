/** How one message's dispatch over the registered listeners affects each call and waiter. */
module BridgeFold {
  import opened Basics
  import opened Envelope
  import opened Waiter
  import opened Protocol
  import opened Facade
  import opened Bridge

  /** Each waiter registered at dispatch time hears the message exactly once; later ones not at all. */
  lemma {:induction false} OfferFromWaiter(s: Page, m: Msg, i: nat, n: nat, w: nat)
    requires n <= |s.waiters| && w < |s.waiters|
    ensures OfferFrom(s, m, i, n).waiters[w] == if i <= w < n then Hear(s.waiters[w], m) else s.waiters[w]
    decreases n - i
  {
    if i < n {
      OfferFacts(s, m, i);
      OfferFromWaiter(Offer(s, m, i), m, i + 1, n, w);
    }
  }

  /** A call none of whose named waiters settles on the message keeps its phase. */
  lemma {:induction false} OfferFromKeepsCall(s: Page, m: Msg, i: nat, n: nat, c: nat)
    requires n <= |s.waiters| && c < |s.calls|
    requires forall w :: i <= w < n && Names(s.calls[c], w) ==> !Settles(s.waiters[w], m)
    ensures OfferFrom(s, m, i, n).calls[c] == s.calls[c]
    decreases n - i
  {
    if i < n {
      var s1 := Offer(s, m, i);
      OfferFacts(s, m, i);
      forall w | i + 1 <= w < n && Names(s1.calls[c], w) ensures !Settles(s1.waiters[w], m) {
        assert s1.waiters[w] == s.waiters[w];
      }
      OfferFromKeepsCall(s1, m, i + 1, n, c);
    }
  }

  /** The fields the waiters cannot touch survive the dispatch. */
  lemma {:induction false} OfferFromFrame(s: Page, m: Msg, i: nat, n: nat)
    requires n <= |s.waiters|
    ensures var s' := OfferFrom(s, m, i, n);
      && s'.now == s.now && s'.conn == s.conn && s'.present == s.present && s'.extId == s.extId
      && s'.handlers == s.handlers && s'.notified == s.notified && s'.host == s.host
      && |s'.sent| >= |s.sent| && s'.sent[..|s.sent|] == s.sent
    decreases n - i
  {
    if i < n {
      OfferFacts(s, m, i);
      OfferFromFrame(Offer(s, m, i), m, i + 1, n);
    }
  }

  /** A settled call gets nothing posted on its behalf by the dispatch. */
  lemma {:induction false} OfferFromSilent(s: Page, m: Msg, i: nat, n: nat, c: nat)
    requires n <= |s.waiters| && c < |s.calls| && s.calls[c].Settled?
    ensures var s' := OfferFrom(s, m, i, n);
      forall j :: |s.sent| <= j < |s'.sent| ==> s'.sent[j].call != c
    decreases n - i
  {
    if i < n {
      var s1 := Offer(s, m, i);
      OfferFacts(s, m, i);
      OfferFromSilent(s1, m, i + 1, n, c);
      OfferFromFrame(s1, m, i + 1, n);
      var s' := OfferFrom(s1, m, i + 1, n);
      forall j | |s.sent| <= j < |s'.sent| ensures s'.sent[j].call != c {
        if j < |s1.sent| {
          assert s'.sent[j] == s1.sent[j];
        }
      }
    }
  }

  /** A message none of the waiters `i` to `n - 1` accepts changes nothing. */
  lemma {:induction false} OfferFromUnheard(s: Page, m: Msg, i: nat, n: nat)
    requires n <= |s.waiters|
    requires forall w :: i <= w < n ==> !Accepts(s.waiters[w], m)
    ensures OfferFrom(s, m, i, n) == s
    decreases n - i
  {
    if i < n {
      assert Offer(s, m, i) == s;
      OfferFromUnheard(s, m, i + 1, n);
    }
  }

  /** The dispatch from `i` equals the dispatch up to `x` followed by the dispatch from `x`. */
  lemma {:induction false} OfferFromSplit(s: Page, m: Msg, i: nat, x: nat, n: nat)
    requires i <= x <= n <= |s.waiters|
    ensures OfferFrom(s, m, i, n) == OfferFrom(OfferFrom(s, m, i, x), m, x, n)
    decreases x - i
  {
    if i < x {
      var s1 := Offer(s, m, i);
      assert OfferFrom(s, m, i, n) == OfferFrom(s1, m, i + 1, n);
      assert OfferFrom(s, m, i, x) == OfferFrom(s1, m, i + 1, x);
      OfferFromSplit(s1, m, i + 1, x, n);
    }
  }

  /**
    When exactly one waiter `x` named by call `c` settles on the message, the call ends up
    as that waiter's continuation leaves it, provided that leaves it waiting on nothing
    registered at dispatch time.
   */
  lemma DecidedAt(s: Page, m: Msg, n: nat, c: nat, x: nat)
    requires n <= |s.waiters| && c < |s.calls| && x < n
    requires Names(s.calls[c], x) && Settles(s.waiters[x], m)
    requires forall w :: 0 <= w < n && w != x && Names(s.calls[c], w) ==> !Settles(s.waiters[w], m)
    ensures var sx := OfferFrom(s, m, 0, x);
      && sx.calls[c] == s.calls[c] && sx.waiters[x] == s.waiters[x] && sx.now == s.now
      && x < |sx.waiters| && n <= |sx.waiters|
      && ((forall w :: x < w < n ==> !Names(Offer(sx, m, x).calls[c], w)) ==>
            OfferFrom(s, m, 0, n).calls[c] == Offer(sx, m, x).calls[c])
  {
    var sx := OfferFrom(s, m, 0, x);
    OfferFromKeepsCall(s, m, 0, x, c);
    OfferFromWaiter(s, m, 0, x, x);
    OfferFromFrame(s, m, 0, x);
    OfferFromSplit(s, m, 0, x, n);
    var s1 := Offer(sx, m, x);
    assert OfferFrom(sx, m, x, n) == OfferFrom(s1, m, x + 1, n);
    if forall w :: x < w < n ==> !Names(s1.calls[c], w) {
      OfferFromKeepsCall(s1, m, x + 1, n, c);
    }
  }

  /** An `enable` listener that is not pending is untouched by the `enable` listeners. */
  lemma {:induction false} ConnectFromKeeps(s: Page, m: Msg, i: nat, c: nat)
    requires c < |s.calls| && s.calls[c] != Connecting
    ensures ConnectFrom(s, m, i).calls[c] == s.calls[c]
    ensures ConnectFrom(s, m, i).present == s.present && ConnectFrom(s, m, i).sent == s.sent
    ensures ConnectFrom(s, m, i).notified == s.notified && ConnectFrom(s, m, i).now == s.now
    decreases |s.calls| - i
  {
    if i < |s.calls| {
      ConnectFromKeeps(ConnectOne(s, m, i), m, i + 1, c);
    }
  }

  /**
    Every pending `enable` resolves on a `CONNECT_RES` with data while `window.starknet` is
    present, and the connection adopts the reported account; otherwise nothing changes.
   */
  lemma {:induction false} ConnectFromEffect(s: Page, m: Msg, i: nat)
    ensures var s' := ConnectFrom(s, m, i);
      var takes := s.present && m.ConnectRes? && m.account.Some?;
      && s'.present == s.present && s'.sent == s.sent && s'.notified == s.notified && s'.now == s.now
      && s'.handlers == s.handlers && s'.extId == s.extId && s'.echo == s.echo
      && (forall c :: 0 <= c < |s.calls| ==>
            s'.calls[c] == if i <= c && s.calls[c] == Connecting && takes
                           then Settled(Connected([m.account.value.address])) else s.calls[c])
      && s'.conn == if takes && exists c :: i <= c < |s.calls| && s.calls[c] == Connecting
                    then Adopt(s.conn, m.account.value) else s.conn
    decreases |s.calls| - i
  {
    if i < |s.calls| {
      var s1 := ConnectOne(s, m, i);
      ConnectFromEffect(s1, m, i + 1);
      var takes := s.present && m.ConnectRes? && m.account.Some?;
      if takes && s.calls[i] == Connecting {
        assert Adopt(s1.conn, m.account.value) == Adopt(s.conn, m.account.value);
      } else {
        assert s1 == s;
        if takes && exists c :: i <= c < |s.calls| && s.calls[c] == Connecting {
          var c :| i <= c < |s.calls| && s.calls[c] == Connecting;
          assert i + 1 <= c;
        }
      }
    }
  }
}
