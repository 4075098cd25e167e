/** What the clock does to a session: which orders it closes, and what it releases. */
module SessionClosing {
  import opened Prelude
  import opened PaperModel
  import opened OrderReducer
  import opened LedgerExact
  import opened SessionLog
  import opened SessionBooks
  import opened Planner
  import opened Matching
  import opened PaperSession
  import opened SessionSafety
  import opened QuoteAllocation
  import opened QuotePriority

  // ----- What the clock does to each order -----

  predicate Live(h: Digests, s: Session, i: Intent) {
    var r := Reduce(h, i, EventsOf(s.operations, h.intent(i)));
    r.Ok? && !r.value.status.Terminal()
  }

  /** The order's history gained exactly one event, of this kind and date, and ends there. */
  predicate Ended(h: Digests, s: Session, n: Session, i: Intent, kind: Status, at: Instant) {
    var events, more := EventsOf(s.operations, h.intent(i)), EventsOf(n.operations, h.intent(i));
    && |more| == |events| + 1 && more[..|events|] == events
    && more[|events|].kind == kind && more[|events|].occurredAt == at && more[|events|].fill.None?
    && Reduce(h, i, more).Ok? && Reduce(h, i, more).value.status == kind
  }

  predicate Untouched(h: Digests, s: Session, n: Session, i: Intent) {
    EventsOf(n.operations, h.intent(i)) == EventsOf(s.operations, h.intent(i))
  }

  predicate Clocked(h: Digests, s: Session, n: Session, i: Intent, at: Instant) {
    if Live(h, s, i) && i.expiresAt <= at then Ended(h, s, n, i, Expired, at) else Untouched(h, s, n, i)
  }

  lemma LifecycleEnds(h: Digests, s: Session, i: Intent, kind: Status, at: Instant, reason: string)
    requires LifecycleEvent(h, i, EventsOf(s.operations, h.intent(i)), kind, at, Some(reason), None).Ok?
    requires Append(h, s, Report(LifecycleEvent(h, i, EventsOf(s.operations, h.intent(i)), kind, at, Some(reason), None).value)).Ok?
    ensures var e := LifecycleEvent(h, i, EventsOf(s.operations, h.intent(i)), kind, at, Some(reason), None).value;
            var n := Append(h, s, Report(e)).value;
            && Ended(h, s, n, i, kind, at) && n.operations == s.operations + [Report(e)] && e.intentSha == h.intent(i)
            && forall sha :: sha != h.intent(i) ==> EventsOf(n.operations, sha) == EventsOf(s.operations, sha)
  {
    hide Reduce, EventsOf, Append, Event.Valid, DraftEvent;
    var events := EventsOf(s.operations, h.intent(i));
    var e := LifecycleEvent(h, i, events, kind, at, Some(reason), None).value;
    LifecycleValid(h, i, events, kind, at, Some(reason), None);
    SameDay(h, s, Report(e));
    ReadAppended(h, s.operations, Report(e));
    StatusOfLast(h, i, events, e);
  }

  lemma ExpireStep(h: Digests, s: Session, orders: seq<Intent>, at: Instant)
    requires orders != [] && ExpireAll(h, s, orders, at).Ok?
    ensures ExpireAll(h, s, orders[..|orders| - 1], at).Ok?
    ensures var before, n, i := ExpireAll(h, s, orders[..|orders| - 1], at).value, ExpireAll(h, s, orders, at).value, orders[|orders| - 1];
            && Clocked(h, before, n, i, at)
            && forall sha :: sha != h.intent(i) ==> EventsOf(n.operations, sha) == EventsOf(before.operations, sha)
  {
    hide Reduce, EventsOf, Append, LifecycleEvent, Ended;
    var before, i := ExpireAll(h, s, orders[..|orders| - 1], at).value, orders[|orders| - 1];
    if Live(h, before, i) && i.expiresAt <= at { LifecycleEnds(h, before, i, Expired, at, "TIME_IN_FORCE"); }
  }

  lemma OneMoreSha(h: Digests, orders: seq<Intent>)
    requires orders != [] && QuotePriority.Distinct(h, orders)
    ensures var front, sha := orders[..|orders| - 1], h.intent(orders[|orders| - 1]);
            && QuotePriority.Distinct(h, front) && sha !in Shas(h, front) && Shas(h, orders) == Shas(h, front) + {sha}
            && forall k :: 0 <= k < |front| ==> front[k] == orders[k] && h.intent(front[k]) != sha
  {
    MoreShas(h, orders, 0, |orders|);
    assert orders[0..|orders|] == orders && orders[0..|orders| - 1] == orders[..|orders| - 1];
  }

  lemma {:induction false} ExpiresEach(h: Digests, s: Session, orders: seq<Intent>, at: Instant)
    requires ExpireAll(h, s, orders, at).Ok? && QuotePriority.Distinct(h, orders)
    ensures var n := ExpireAll(h, s, orders, at).value;
            && (forall k :: 0 <= k < |orders| ==> Clocked(h, s, n, orders[k], at))
            && (forall sha :: sha !in Shas(h, orders) ==> EventsOf(n.operations, sha) == EventsOf(s.operations, sha))
  {
    hide EventsOf, Clocked, ExpireAll, Shas, QuotePriority.Distinct;
    if orders == [] {
      assert ExpireAll(h, s, [], at) == Ok(s) by { NothingExpires(h, s, at); }
    } else {
      var k := |orders| - 1;
      var front, i := orders[..k], orders[k];
      OneMoreSha(h, orders);
      ExpireStep(h, s, orders, at);
      ExpiresEach(h, s, front, at);
      var before, n := ExpireAll(h, s, front, at).value, ExpireAll(h, s, orders, at).value;
      assert Untouched(h, s, before, i);
      ClockedFirst(h, s, before, n, i, at);
      forall j | 0 <= j < k ensures Clocked(h, s, n, orders[j], at) {
        assert Clocked(h, s, before, front[j], at);
        ClockedSame(h, s, before, n, front[j], at);
      }
    }
  }

  lemma NothingExpires(h: Digests, s: Session, at: Instant)
    ensures ExpireAll(h, s, [], at) == Ok(s)
  {}

  lemma ClockedFirst(h: Digests, s: Session, before: Session, n: Session, i: Intent, at: Instant)
    requires Untouched(h, s, before, i) && Clocked(h, before, n, i, at)
    ensures Clocked(h, s, n, i, at)
  {}

  lemma ClockedSame(h: Digests, s: Session, before: Session, n: Session, i: Intent, at: Instant)
    requires Clocked(h, s, before, i, at) && Untouched(h, before, n, i)
    ensures Clocked(h, s, n, i, at)
  {}

  /** Nothing reserved for the order is left. */
  predicate Released(s: Session, sha: Digest) {
    forall x :: x in s.ledger.reservations ==> !(x.entry == sha && x.status == EntryPending) && x.exit != Some(sha)
  }

  lemma DoneReleases(h: Digests, s: Session, i: Intent)
    requires Sound(h, s) && Order(i) in s.operations && Reduce(h, i, EventsOf(s.operations, h.intent(i))).Ok? && !Live(h, s, i)
    ensures Released(s, h.intent(i))
  {
    hide Reduce, EventsOf, ReplayAll, Ledger.Valid, FindOrder, Backed, Intent.Valid, AllValid;
    ReplayBooks(h, s.Ground(), s.operations);
    ReplayLinked(h, s.Ground(), s.operations);
    var r, sha := ReplayAll(h, s.Ground(), s.operations).value, h.intent(i);
    FoundIn(h, s.Ground(), s.operations, i);
    assert Done(h, r, sha);
    forall x | x in s.ledger.reservations ensures !(x.entry == sha && x.status == EntryPending) && x.exit != Some(sha) {
      assert Explained(h, r, x);
      assert x.Valid() by { ReservationFine(r.ledger, x); }
    }
  }

  /** In an accepted log an order is the one its digest finds. */
  lemma {:induction false} FoundIn(h: Digests, g: Base, ops: seq<Operation>, i: Intent)
    requires ReplayAll(h, g, ops).Ok? && Order(i) in ops
    ensures h.intent(i) in ReplayAll(h, g, ops).value.intents && ReplayAll(h, g, ops).value.intents[h.intent(i)] == i
  {
    hide Reduce, Settle, Reserve, SpendLiquidity;
    var front, last := ops[..|ops| - 1], ops[|ops| - 1];
    assert ops == front + [last];
    if Order(i) in front { FoundIn(h, g, front, i); }
  }

  lemma OrderReduces(h: Digests, s: Session, i: Intent)
    requires Sound(h, s) && Order(i) in s.operations
    ensures Reduce(h, i, EventsOf(s.operations, h.intent(i))).Ok? && i.Valid() && AllValid(EventsOf(s.operations, h.intent(i)))
    ensures FindOrder(h, s.operations, h.intent(i)) == Some(i)
  {
    hide Reduce, EventsOf, ReplayAll, FindOrder, Intent.Valid, AllValid;
    ReplayLinked(h, s.Ground(), s.operations);
    FoundIn(h, s.Ground(), s.operations, i);
  }

  /** The clock, on any valid session: every order whose deadline has come is closed, by an EXPIRED event
      if it was live, and holds no reservation any more; no other order gains an event. */
  lemma {:induction false} ClockExpires(h: Digests, s: Session, at: Instant)
    requires Sound(h, s) && AdvanceClock(h, s, at).Ok?
    ensures var n := AdvanceClock(h, s, at).value;
            && Sound(h, n) && IntentsOf(n.operations) == IntentsOf(s.operations)
            && forall i :: Order(i) in s.operations ==>
                 && (if Live(h, s, i) && i.expiresAt <= at then Ended(h, s, n, i, Expired, at) else Untouched(h, s, n, i))
                 && (i.expiresAt <= at ==> !Live(h, n, i) && Released(n, h.intent(i)))
  {
    hide Reduce, EventsOf, ReplayAll, ExpireAll, Finish, IntentsOf, AllOpsValid, Ended, Untouched, Released, Sound;
    var n := AdvanceClock(h, s, at).value;
    var orders := IntentsOf(s.operations);
    var late := ExpireAll(h, s, orders, at).value;
    assert s.Ground().Valid() && AllOpsValid(s.operations) && ReplayAll(h, s.Ground(), s.operations).Ok? by { SoundParts(h, s); }
    LogDistinct(h, s.Ground(), s.operations);
    ExpiresEach(h, s, orders, at);
    FinishIdle(h, s, late);
    assert Sound(h, n) by { ClockSound(h, s, at); }
    SameOrders(h, s, orders, at);
    IntentsMean(s.operations);
    forall i | Order(i) in s.operations
      ensures if Live(h, s, i) && i.expiresAt <= at then Ended(h, s, n, i, Expired, at) else Untouched(h, s, n, i)
      ensures i.expiresAt <= at ==> !Live(h, n, i) && Released(n, h.intent(i))
    {
      assert i in orders;
      var k :| 0 <= k < |orders| && orders[k] == i;
      assert Clocked(h, s, late, orders[k], at);
      SameClocked(h, s, late, n, i, at);
      OrderReduces(h, s, i);
      if i.expiresAt <= at {
        assert Order(i) in n.operations by { IntentsMean(n.operations); }
        OrderReduces(h, n, i);
        assert !Live(h, n, i) by { ClockedDone(h, s, n, i, at); }
        DoneReleases(h, n, i);
      }
    }
  }

  lemma ClockedDone(h: Digests, s: Session, n: Session, i: Intent, at: Instant)
    requires Clocked(h, s, n, i, at) && i.expiresAt <= at && Reduce(h, i, EventsOf(s.operations, h.intent(i))).Ok?
    ensures !Live(h, n, i)
  {}

  lemma SameClocked(h: Digests, s: Session, a: Session, b: Session, i: Intent, at: Instant)
    requires Clocked(h, s, a, i, at) && a.operations == b.operations
    ensures Clocked(h, s, b, i, at)
  {}

  lemma SoundParts(h: Digests, s: Session)
    requires Sound(h, s)
    ensures s.Ground().Valid() && AllOpsValid(s.operations) && ReplayAll(h, s.Ground(), s.operations).Ok?
    ensures ReplayAll(h, s.Ground(), s.operations).value.ledger == s.ledger
  {}

  lemma ClockSound(h: Digests, s: Session, at: Instant)
    requires Sound(h, s) && AdvanceClock(h, s, at).Ok?
    ensures Sound(h, AdvanceClock(h, s, at).value)
  {
    hide Sound, AdvanceClock;
    var cfg := Configuration(None, None, None, ContextPolicy(0, 0, None, {}), Lineage(0, 0, 0), 0);
    LedgerNeverDrifts(h, cfg, s, ClockCommand(at));
  }

  lemma {:induction false} IntentsMean(ops: seq<Operation>)
    ensures forall i :: i in IntentsOf(ops) <==> Order(i) in ops
  {
    if ops != [] {
      var front, last := ops[..|ops| - 1], ops[|ops| - 1];
      IntentsMean(front);
      assert ops == front + [last];
    }
  }

  lemma ReportKeepsOrders(ops: seq<Operation>, e: Event)
    ensures IntentsOf(ops + [Report(e)]) == IntentsOf(ops)
  {
    assert (ops + [Report(e)])[..|ops|] == ops;
  }

  lemma {:induction false} SameOrders(h: Digests, s: Session, orders: seq<Intent>, at: Instant)
    requires ExpireAll(h, s, orders, at).Ok?
    ensures IntentsOf(ExpireAll(h, s, orders, at).value.operations) == IntentsOf(s.operations)
  {
    hide Reduce, EventsOf, Append, LifecycleEvent, IntentsOf;
    if orders != [] {
      var front, i := orders[..|orders| - 1], orders[|orders| - 1];
      SameOrders(h, s, front, at);
      var before := ExpireAll(h, s, front, at).value;
      if ExpireAll(h, s, orders, at).value != before {
        var e := LifecycleEvent(h, i, EventsOf(before.operations, h.intent(i)), Expired, at, Some("TIME_IN_FORCE"), None).value;
        SameDay(h, before, Report(e));
        ReportKeepsOrders(before.operations, e);
      }
    }
  }
}
