/** Every log that `reconcile` accepts keeps its books: each open order is backed by exactly one
    reservation, and cash, inventory and realised result are functions of the fills in the log. */
module SessionBooks {
  import opened Prelude
  import opened PaperModel
  import opened OrderReducer
  import opened LedgerParts
  import opened PaperLedger
  import opened SessionLog

  // ----- Orders and reservations -----

  /** The order is known and its events have reached a terminal status. */
  predicate Done(h: Digests, r: Replay, sha: Digest) {
    && sha in r.intents && sha in r.events
    && Reduce(h, r.intents[sha], r.events[sha]).Ok?
    && Reduce(h, r.intents[sha], r.events[sha]).value.status.Terminal()
  }

  function PendingFor(sha: Digest, i: Intent): Reservation {
    Reservation(sha, None, i.symbol, EntryPending, i.reservedCash, i.quantity, 0, None)
  }

  predicate BacksExit(x: Reservation, sha: Digest, i: Intent) {
    && Some(x.entry) == i.parent && x.exit == Some(sha) && x.status == ExitPending && x.exitQuantity == i.quantity
  }

  /** A live entry owns the reservation its intent asked for; a live exit owns its parent's cycle. */
  ghost predicate Backed(h: Digests, r: Replay, sha: Digest) {
    sha in r.intents && !Done(h, r, sha) ==>
      && (r.intents[sha].leg == Entry ==> PendingFor(sha, r.intents[sha]) in r.ledger.reservations)
      && (r.intents[sha].leg == Exit ==> exists x :: x in r.ledger.reservations && BacksExit(x, sha, r.intents[sha]))
  }

  /** Every reservation is explained by orders of the log, at their own prices and sizes. */
  ghost predicate Explained(h: Digests, r: Replay, x: Reservation) {
    && x.entry in r.intents && r.intents[x.entry].leg == Entry && x.symbol == r.intents[x.entry].symbol
    && (x.status == EntryPending <==> !Done(h, r, x.entry))
    && (Done(h, r, x.entry) ==>
          var s := Reduce(h, r.intents[x.entry], r.events[x.entry]).value;
          x.entryAverage == s.average && x.exitQuantity <= s.filled)
    && (x.status == ExitPending ==>
          && x.exit.Some? && x.exit.value in r.intents && !Done(h, r, x.exit.value)
          && r.intents[x.exit.value].leg == Exit && r.intents[x.exit.value].parent == Some(x.entry)
          && x.exitQuantity == r.intents[x.exit.value].quantity)
  }

  ghost predicate Books(h: Digests, r: Replay) {
    && r.ledger.Valid()
    && (forall sha :: sha in r.intents ==> Backed(h, r, sha))
    && (forall x :: x in r.ledger.reservations ==> Explained(h, r, x))
  }

  /** Only one order changed, and among the reservations only the one filed under `key`. */
  ghost predicate OneChange(h: Digests, r: Replay, n: Replay, sha: Digest, key: Digest, left: Option<Reservation>) {
    && n.intents.Keys == r.intents.Keys + {sha}
    && (forall s :: s in r.intents ==> n.intents[s] == r.intents[s])
    && (forall s :: s in r.intents && s != sha ==> (Done(h, n, s) <==> Done(h, r, s)))
    && (forall s :: s in r.intents && s != sha && Done(h, r, s) ==> s in n.events && s in r.events && n.events[s] == r.events[s])
    && Refiled(r.ledger, n.ledger, key, left)
  }

  lemma BooksFrame(h: Digests, r: Replay, n: Replay, sha: Digest, key: Digest, left: Option<Reservation>)
    requires Books(h, r) && n.ledger.Valid() && OneChange(h, r, n, sha, key, left)
    requires left.Some? ==> Explained(h, n, left.value)
    requires Backed(h, n, sha)
    requires forall s :: s in r.intents && s != sha && !Done(h, r, s) && r.intents[s].leg == Entry ==> s != key
    requires forall s, x :: (s in r.intents && s != sha && !Done(h, r, s) && x in r.ledger.reservations
                             && BacksExit(x, s, r.intents[s])) ==> x.entry != key
    requires forall x :: x in r.ledger.reservations && x.entry != key ==> x.entry != sha && x.exit != Some(sha)
    ensures Books(h, n)
  {
    hide Reduce, HasPosition, Done, PendingFor;
    forall x | x in n.ledger.reservations ensures Explained(h, n, x) {
      if Some(x) != left { assert Explained(h, r, x); }
    }
    forall s | s in n.intents ensures Backed(h, n, s) {
      if s != sha {
        assert Backed(h, r, s);
        if !Done(h, n, s) && n.intents[s].leg == Exit {
          var x :| x in r.ledger.reservations && BacksExit(x, s, r.intents[s]);
          assert x in n.ledger.reservations;
        }
        if !Done(h, n, s) && n.intents[s].leg == Entry {
          assert PendingFor(s, r.intents[s]) in n.ledger.reservations by { PendingKey(s, r.intents[s]); }
        }
      }
    }
  }

  lemma PendingKey(sha: Digest, i: Intent)
    ensures PendingFor(sha, i).entry == sha
  {}

  lemma NewOrderReferences(h: Digests, r: Replay, sha: Digest)
    requires Books(h, r) && sha !in r.intents
    ensures forall x :: x in r.ledger.reservations ==> x.entry != sha && (x.status == ExitPending ==> x.exit != Some(sha))
  {
    hide Reduce, Done;
    forall x | x in r.ledger.reservations
      ensures x.entry != sha && (x.status == ExitPending ==> x.exit != Some(sha))
    {
      assert Explained(h, r, x);
    }
  }

  lemma OnlyPendingExits(l: Ledger)
    requires l.Valid()
    ensures forall x :: x in l.reservations && x.exit.Some? ==> x.status == ExitPending
  {}

  lemma BooksEntry(h: Digests, ops: seq<Operation>, r: Replay, intent: Intent)
    requires Linked(h, ops, r) && Books(h, r) && intent.Valid() && intent.leg == Entry
    requires ReplayOrder(h, r, intent).Ok?
    ensures Books(h, ReplayOrder(h, r, intent).value)
  {
    hide Reduce, ReserveEntry, EventsOf, FindOrder, AllValid, Backed, Explained, Intent.Valid, Ledger.Valid;
    var n := ReplayOrder(h, r, intent).value;
    var sha := h.intent(intent);
    StartAccepted(h, intent);
    ReserveEntryEffect(h, r.ledger, intent);
    NewOrderReferences(h, r, sha);
    OnlyPendingExits(r.ledger);
    NewEntryBooked(h, n, sha, PendingFor(sha, intent));
    BooksFrame(h, r, n, sha, sha, Some(PendingFor(sha, intent)));
  }

  lemma NewEntryBooked(h: Digests, n: Replay, sha: Digest, left: Reservation)
    requires sha in n.intents && n.intents[sha].leg == Entry && !Done(h, n, sha)
    requires left == PendingFor(sha, n.intents[sha]) && left in n.ledger.reservations
    ensures Backed(h, n, sha) && Explained(h, n, left)
  {
    hide Reduce;
  }

  lemma BooksExit(h: Digests, ops: seq<Operation>, r: Replay, intent: Intent)
    requires Linked(h, ops, r) && Books(h, r) && intent.Valid() && intent.leg == Exit
    requires ReplayOrder(h, r, intent).Ok?
    ensures Books(h, ReplayOrder(h, r, intent).value)
  {
    hide Reduce, ReserveExit, EventsOf, FindOrder, AllValid, Backed, Explained, Intent.Valid, Ledger.Valid;
    var n := ReplayOrder(h, r, intent).value;
    var sha := h.intent(intent);
    StartAccepted(h, intent);
    var prior := ReserveExitEffect(h, r.ledger, intent);
    var left := prior.(exit := Some(sha), status := ExitPending);
    NewOrderReferences(h, r, sha);
    OnlyPendingExits(r.ledger);
    NewExitBooked(h, r, n, sha, prior, left);
    OthersElsewhere(h, r, sha, prior);
    BooksFrame(h, r, n, sha, prior.entry, Some(left));
  }

  lemma NewExitBooked(h: Digests, r: Replay, n: Replay, sha: Digest, prior: Reservation, left: Reservation)
    requires Books(h, r) && prior in r.ledger.reservations && prior.status == Open
    requires sha in n.intents && sha !in r.intents && n.intents[sha].leg == Exit && !Done(h, n, sha)
    requires n.intents == r.intents[sha := n.intents[sha]] && sha in n.events && n.events == r.events[sha := n.events[sha]]
    requires n.intents[sha].parent == Some(prior.entry) && n.intents[sha].quantity == prior.exitQuantity
    requires left == prior.(exit := Some(sha), status := ExitPending) && left in n.ledger.reservations
    ensures Backed(h, n, sha) && Explained(h, n, left)
  {
    hide Reduce, HasPosition;
    assert Explained(h, r, prior);
    assert BacksExit(left, sha, n.intents[sha]);
  }

  /** A live order other than the one a reservation serves is backed by another reservation. */
  lemma OthersElsewhere(h: Digests, r: Replay, sha: Digest, prior: Reservation)
    requires Books(h, r) && prior in r.ledger.reservations
    requires prior.status == EntryPending ==> prior.entry == sha
    requires prior.status == ExitPending ==> prior.exit == Some(sha)
    ensures forall s :: s in r.intents && s != sha && !Done(h, r, s) && r.intents[s].leg == Entry ==> s != prior.entry
    ensures forall s, x :: (s in r.intents && s != sha && !Done(h, r, s) && x in r.ledger.reservations
                            && BacksExit(x, s, r.intents[s])) ==> x.entry != prior.entry
  {
    hide Reduce, HasPosition, Done;
    var rs := r.ledger.reservations;
    forall s | s in r.intents && s != sha && !Done(h, r, s) && r.intents[s].leg == Entry ensures s != prior.entry {
      assert Backed(h, r, s);
      if s == prior.entry { SameKeySame(rs, prior, PendingFor(s, r.intents[s])); }
    }
    forall s, x | s in r.intents && s != sha && !Done(h, r, s) && x in rs && BacksExit(x, s, r.intents[s])
      ensures x.entry != prior.entry
    {
      if x.entry == prior.entry { SameKeySame(rs, prior, x); }
    }
  }

  /** An event that settles nothing leaves the books as they were. */
  lemma BooksQuiet(h: Digests, r: Replay, n: Replay, sha: Digest)
    requires Books(h, r) && n.ledger == r.ledger && n.intents == r.intents
    requires forall s :: s in r.intents ==> (Done(h, n, s) <==> Done(h, r, s))
    requires forall s :: s in r.intents && Done(h, r, s) ==> s in n.events && s in r.events && n.events[s] == r.events[s]
    ensures Books(h, n)
  {
    hide Reduce, Done, Ledger.Valid, PendingFor, BacksExit;
    forall x | x in n.ledger.reservations ensures Explained(h, n, x) { assert Explained(h, r, x); }
    forall s | s in n.intents ensures Backed(h, n, s) { assert Backed(h, r, s); }
  }

  /** What is known when an event has just been accepted for a live order. */
  ghost predicate Extended(h: Digests, r: Replay, n: Replay, e: Event) {
    var sha := e.intentSha;
    && sha in r.intents && sha in r.events && !Done(h, r, sha)
    && n.intents == r.intents && n.events == r.events[sha := r.events[sha] + [e]]
    && Reduce(h, r.intents[sha], n.events[sha]).Ok?
  }

  lemma AcceptedExtends(h: Digests, ops: seq<Operation>, costs: CostPolicy, r: Replay, e: Event)
    requires Linked(h, ops, r) && e.Valid() && ReplayReport(h, costs, r, e).Ok?
    ensures Extended(h, r, ReplayReport(h, costs, r, e).value, e)
    ensures h.intent(r.intents[e.intentSha]) == e.intentSha
  {
    hide Settle, SpendLiquidity, EventsOf, FindOrder, RunFold;
    var history := r.events[e.intentSha] + [e];
    PrefixAccepted(h, r.intents[e.intentSha], history, |r.events[e.intentSha]|);
    assert history[..|r.events[e.intentSha]|] == r.events[e.intentSha];
  }

  lemma SettledEntryBooked(h: Digests, ops: seq<Operation>, costs: CostPolicy, r: Replay, n: Replay, e: Event)
    requires Linked(h, ops, r) && Books(h, r) && e.Valid() && Extended(h, r, n, e)
    requires r.intents[e.intentSha].leg == Entry && Done(h, n, e.intentSha)
    requires SettleEntry(h, r.ledger, r.intents[e.intentSha], Reduce(h, r.intents[e.intentSha], n.events[e.intentSha]).value, costs) == Ok(n.ledger)
    ensures Books(h, n)
  {
    hide Reduce, SettleEntry, EventsOf, FindOrder, Backed, Explained, Intent.Valid, Ledger.Valid, Reservation.Valid, AllValid;
    var sha := e.intentSha;
    var intent := r.intents[sha];
    OneMoreEvent(r.events[sha], e);
    AcceptedHistory(h, intent, n.events[sha]);
    var state := Reduce(h, intent, n.events[sha]).value;
    EntrySymbols(h, r, sha);
    var prior := SettleEntryEffect(h, r.ledger, intent, state, costs);
    var left := OpenCycle(sha, intent.symbol, state.filled, state.average);
    EntryReferences(h, r, sha);
    OnlyPendingExits(r.ledger);
    OthersElsewhere(h, r, sha, prior);
    SettledLeft(h, n, sha, left);
    BooksFrame(h, r, n, sha, sha, left);
  }

  lemma EntrySymbols(h: Digests, r: Replay, sha: Digest)
    requires Books(h, r) && sha in r.intents
    ensures forall x :: x in r.ledger.reservations && x.entry == sha ==> x.symbol == r.intents[sha].symbol
  {
    hide Reduce, Done, Ledger.Valid;
    forall x | x in r.ledger.reservations && x.entry == sha ensures x.symbol == r.intents[sha].symbol {
      assert Explained(h, r, x);
    }
  }

  lemma EntryReferences(h: Digests, r: Replay, sha: Digest)
    requires Books(h, r) && sha in r.intents && r.intents[sha].leg == Entry
    ensures forall x :: x in r.ledger.reservations && x.status == ExitPending ==> x.exit != Some(sha)
  {
    hide Reduce, Done, Ledger.Valid;
    forall x | x in r.ledger.reservations && x.status == ExitPending ensures x.exit != Some(sha) {
      assert Explained(h, r, x);
    }
  }

  lemma SettledLeft(h: Digests, n: Replay, sha: Digest, left: Option<Reservation>)
    requires sha in n.intents && n.intents[sha].leg == Entry && Done(h, n, sha)
    requires var s := Reduce(h, n.intents[sha], n.events[sha]).value;
             left == OpenCycle(sha, n.intents[sha].symbol, s.filled, s.average)
    ensures Backed(h, n, sha)
    ensures left.Some? ==> Explained(h, n, left.value)
  {
    hide Reduce;
  }

  lemma SettledExitBooked(h: Digests, ops: seq<Operation>, costs: CostPolicy, r: Replay, n: Replay, e: Event)
    requires Linked(h, ops, r) && Books(h, r) && e.Valid() && Extended(h, r, n, e)
    requires r.intents[e.intentSha].leg == Exit && Done(h, n, e.intentSha)
    requires SettleExit(h, r.ledger, r.intents[e.intentSha], Reduce(h, r.intents[e.intentSha], n.events[e.intentSha]).value, costs) == Ok(n.ledger)
    ensures Books(h, n)
  {
    hide Reduce, SettleExit, EventsOf, FindOrder, Backed, Explained, Intent.Valid, Ledger.Valid, Reservation.Valid, AllValid, ExitMatches;
    var sha := e.intentSha;
    var intent := r.intents[sha];
    OneMoreEvent(r.events[sha], e);
    AcceptedHistory(h, intent, n.events[sha]);
    var state := Reduce(h, intent, n.events[sha]).value;
    var prior := SettleExitEffect(h, r.ledger, intent, state, costs);
    var left := OpenCycle(prior.entry, prior.symbol, prior.exitQuantity - state.filled, prior.entryAverage);
    OthersElsewhere(h, r, sha, prior);
    ExitReferences(h, r, sha, prior);
    OnlyPendingExits(r.ledger);
    ReopenedLeft(h, r, n, sha, prior, left);
    BooksFrame(h, r, n, sha, prior.entry, left);
  }

  lemma ExitReferences(h: Digests, r: Replay, sha: Digest, prior: Reservation)
    requires Books(h, r) && sha in r.intents && r.intents[sha].leg == Exit
    requires prior in r.ledger.reservations && prior.exit == Some(sha) && prior.status == ExitPending
    ensures forall x :: x in r.ledger.reservations ==> x.entry != sha
    ensures forall x :: x in r.ledger.reservations && x.status == ExitPending && x.exit == Some(sha) ==> x.entry == prior.entry
  {
    hide Reduce, Done, Ledger.Valid;
    assert Explained(h, r, prior);
    forall x | x in r.ledger.reservations
      ensures x.entry != sha && (x.status == ExitPending && x.exit == Some(sha) ==> x.entry == prior.entry)
    {
      assert Explained(h, r, x);
    }
  }

  lemma ReopenedLeft(h: Digests, r: Replay, n: Replay, sha: Digest, prior: Reservation, left: Option<Reservation>)
    requires Books(h, r) && prior in r.ledger.reservations && prior.status == ExitPending && prior.entry != sha
    requires sha in n.intents && Done(h, n, sha) && n.intents == r.intents
    requires forall s :: s in r.events && s != sha ==> s in n.events && n.events[s] == r.events[s]
    requires exists q: nat :: q <= prior.exitQuantity && left == OpenCycle(prior.entry, prior.symbol, q, prior.entryAverage)
    ensures Backed(h, n, sha)
    ensures left.Some? ==> Explained(h, n, left.value)
  {
    hide Reduce, Ledger.Valid;
    assert Explained(h, r, prior);
  }

  lemma BooksReport(h: Digests, ops: seq<Operation>, costs: CostPolicy, r: Replay, e: Event)
    requires Linked(h, ops, r) && Books(h, r) && e.Valid() && ReplayReport(h, costs, r, e).Ok?
    ensures Books(h, ReplayReport(h, costs, r, e).value)
  {
    hide Reduce, SettleEntry, SettleExit, SpendLiquidity, Linked, Books;
    var n := ReplayReport(h, costs, r, e).value;
    AcceptedExtends(h, ops, costs, r, e);
    if !Done(h, n, e.intentSha) {
      BooksQuiet(h, r, n, e.intentSha);
    } else if r.intents[e.intentSha].leg == Entry {
      SettledEntryBooked(h, ops, costs, r, n, e);
    } else {
      SettledExitBooked(h, ops, costs, r, n, e);
    }
  }

  /** Every accepted log keeps its books. */
  lemma {:induction false} ReplayBooks(h: Digests, base: Base, ops: seq<Operation>)
    requires base.Valid() && AllOpsValid(ops) && ReplayAll(h, base, ops).Ok?
    ensures Linked(h, ops, ReplayAll(h, base, ops).value)
    ensures Books(h, ReplayAll(h, base, ops).value)
  {
    hide ReplayOrder, ReplayReport, Linked, Books;
    ReplayLinked(h, base, ops);
    if ops == [] {
      BooksStart(h, base);
    } else {
      var front, last := ops[..|ops| - 1], ops[|ops| - 1];
      ReplayBooks(h, base, front);
      var r := ReplayAll(h, base, front).value;
      match last
      case Report(e) => BooksReport(h, front, base.costs, r, e);
      case Order(i) => if i.leg == Entry { BooksEntry(h, front, r, i); } else { BooksExit(h, front, r, i); }
    }
  }

  lemma BooksStart(h: Digests, base: Base)
    requires base.Valid() && ReplayStart(base).Ok?
    ensures Books(h, ReplayStart(base).value)
  {
    InitialLedger(base.account, base.tradeDate);
  }
}
