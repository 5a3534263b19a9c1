/** The server's hold on its authenticators. Authenticators are numbered in the order in which
    they are installed; a replaced one is closed in the background. */
module Server {
  import opened DateMath

  datatype Holdings = Holdings(
    installed: nat,            // how many authenticators have been installed so far
    current: nat,              // the one installed last
    closing: multiset<nat>,    // background closes not yet run
    closed: multiset<nat>,     // closes that have run
    shutdown: Option<nat>)     // the one closed when the server was closed

  const START := Holdings(1, 0, multiset{}, multiset{}, None)

  /** A new authenticator takes over, and the one read before is to be closed. */
  function Install(h: Holdings, previous: nat): Holdings {
    h.(installed := h.installed + 1, current := h.installed, closing := h.closing + multiset{previous})
  }

  function CloseInBackground(h: Holdings, a: nat): Holdings {
    h.(closing := h.closing - multiset{a}, closed := h.closed + multiset{a})
  }

  function Close(h: Holdings): Holdings {
    h.(closed := h.closed + multiset{h.current}, shutdown := Some(h.current))
  }

  function One(b: bool): nat {
    if b then 1 else 0
  }

  /** Every authenticator ever installed is the one installed now, waiting to be closed or closed,
      once; the one installed when the server was closed has been closed once more. */
  ghost predicate Ledger(h: Holdings) {
    h.current + 1 == h.installed &&
    (h.shutdown.Some? ==> h.shutdown.value <= h.current && h.shutdown.value in h.closed) &&
    forall a: nat ::
      h.closed[a] + h.closing[a] + One(a == h.current) ==
      One(a < h.installed) + One(h.shutdown == Some(a))
  }

  lemma LedgerInstall(h: Holdings)
    ensures Ledger(h) ==> Ledger(Install(h, h.current))
  {
  }

  lemma LedgerCloseInBackground(h: Holdings, a: nat)
    ensures Ledger(h) && a in h.closing ==>
      Ledger(CloseInBackground(h, a)) && CloseInBackground(h, a).current == h.current
  {
  }

  lemma LedgerClose(h: Holdings)
    ensures Ledger(h) && h.shutdown.None? ==> Ledger(Close(h)) && Close(h).current == h.current
  {
  }

  /** An authenticator that was installed at some time has been closed exactly when another has
      replaced it and its background close has run, or the server was closed with it. */
  lemma ClosedWhen(h: Holdings, a: nat)
    requires Ledger(h) && a < h.installed
    ensures a in h.closed <==> (a != h.current && a !in h.closing) || h.shutdown == Some(a)
  {
  }

  /** All closes have run. */
  predicate AllClosed(h: Holdings) {
    h.closing == multiset{} && h.shutdown.Some?
  }

  /** Once all closes have run, every authenticator was closed exactly once if and only if none
      was installed after the server was closed. */
  lemma {:induction false} ClosedExactlyOnce(h: Holdings)
    requires Ledger(h) && AllClosed(h)
    ensures (forall a: nat :: a < h.installed ==> h.closed[a] == 1) <==> h.current == h.shutdown.value
  {
    assert h.closed[h.current] + One(true) == One(true) + One(h.shutdown == Some(h.current));
  }

  /** The configuration part of the server that a reload may find at fault. */
  datatype Fault = NoFault | BeforeRead | AfterRead

  class GateServer {
    var installed: nat
    var current: nat
    var closing: multiset<nat>
    var closed: multiset<nat>
    var shutdown: Option<nat>

    constructor ()
      ensures View() == START
    {
      installed, current, closing, closed, shutdown := 1, 0, multiset{}, multiset{}, None;
    }

    function View(): Holdings
      reads this
    {
      Holdings(installed, current, closing, closed, shutdown)
    }

    /** A faulty configuration changes nothing; a good one replaces the authenticator, and the
        replaced one is left to a background close. */
    method UpdateConfig(fault: Fault) returns (ok: bool)
      modifies this
      ensures ok == fault.NoFault?
      ensures View() == if ok then Install(old(View()), old(current)) else old(View())
      ensures old(Ledger(View())) ==> Ledger(View())
    {
      if fault.BeforeRead? {
        return false;
      }
      var oldAuth := current;
      if fault.AfterRead? {
        return false;
      }
      current := installed;
      installed := installed + 1;
      closing := closing + multiset{oldAuth};
      ok := true;
    }

    method RunBackgroundClose(a: nat)
      requires a in closing
      modifies this
      ensures View() == CloseInBackground(old(View()), a)
      ensures old(Ledger(View())) ==> Ledger(View())
    {
      closing := closing - multiset{a};
      closed := closed + multiset{a};
    }

    method CloseServer()
      requires shutdown.None?
      modifies this
      ensures View() == Close(old(View()))
      ensures old(Ledger(View())) ==> Ledger(View())
    {
      closed := closed + multiset{current};
      shutdown := Some(current);
    }
  }
}
