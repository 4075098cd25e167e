/** The incremental ledger never drifts from the log, and the ledger's own guards cannot fire. */
module SessionSafety {
  import opened Prelude
  import opened PaperModel
  import opened OrderReducer
  import opened LedgerParts
  import opened PaperLedger
  import opened SessionLog
  import opened SessionBooks
  import opened Planner
  import opened Matching
  import opened PaperSession

  /** A session the validator accepts. */
  predicate Sound(h: Digests, s: Session) {
    s.Ground().Valid() && AllOpsValid(s.operations) && Reconcile(h, s).Ok?
  }

  /** What is watched along a transition. With `planned`, also that every operation of the log is
      one this configuration's planner and matcher produce. */
  datatype Watch = Watch(cfg: Configuration, base: Base, planned: bool)

  predicate PlannedOp(w: Watch, op: Operation) {
    w.planned ==>
      match op
      case Order(i) =>
        && Covered(w.base.costs, i) && i.tradeDate == w.base.tradeDate
        && (w.cfg.policy.Some? ==> i.quantity % Lot(w.cfg) == 0)
      case Report(e) => w.cfg.policy.Some? ==> FillQuantity(e) % Lot(w.cfg) == 0
  }

  function Lot(cfg: Configuration): nat {
    if cfg.policy.Some? && cfg.policy.value.lotSize >= 1 then cfg.policy.value.lotSize else 1
  }

  predicate AllPlanned(w: Watch, ops: seq<Operation>) {
    forall i :: 0 <= i < |ops| ==> PlannedOp(w, ops[i])
  }

  /** The two guards of the validator that incremental bookkeeping could break. */
  predicate Drift(e: SessionError) { e.LedgerMismatch? || e.MarketsUnordered? }

  predicate Unharmed<T>(r: Result<T, SessionError>) { r.Err? ==> !Drift(r.error) }

  /** The quote cursors are in order, and if the log replays at all, it replays to this ledger. */
  ghost predicate Tracks(h: Digests, w: Watch, s: Session) {
    && s.Ground() == w.base && MarketsOrdered(s.markets) && AllOpsValid(s.operations) && AllPlanned(w, s.operations)
    && (ReplayAll(h, w.base, s.operations).Ok? ==> ReplayAll(h, w.base, s.operations).value.ledger == s.ledger)
  }

  /** A transition's outcome: never a drifted session, and if a session, again a sound one. */
  ghost predicate Fine(h: Digests, w: Watch, r: Result<Session, SessionError>) {
    && Unharmed(r)
    && (r.Ok? ==> Sound(h, r.value) && r.value.Ground() == w.base && AllPlanned(w, r.value.operations))
  }

  lemma SoundTracks(h: Digests, w: Watch, s: Session)
    requires Sound(h, s) && w.base == s.Ground() && AllPlanned(w, s.operations)
    ensures Tracks(h, w, s) && ReplayAll(h, w.base, s.operations).Ok?
    ensures Fine(h, w, Ok(s))
  {
    hide ReplayAll, PlannedOp;
  }

  lemma OperationsAppended(ops: seq<Operation>, op: Operation)
    requires AllOpsValid(ops) && op.Valid()
    ensures AllOpsValid(ops + [op])
    ensures forall w :: AllPlanned(w, ops) && PlannedOp(w, op) ==> AllPlanned(w, ops + [op])
    ensures (ops + [op])[..|ops|] == ops && (ops + [op])[|ops|] == op
  {}

  lemma SameDay(h: Digests, s: Session, op: Operation)
    requires Append(h, s, op).Ok?
    ensures var n := Append(h, s, op).value;
            && n.Ground() == s.Ground() && n.operations == s.operations + [op]
            && n.revision == s.revision && n.markets == s.markets
  {
    hide Reduce, Insert, Swap, Replace, Shift, EventsOf, FindOrder, EntryMatches, ExitMatches, EntryCost, SaleValue;
  }

  /** Appending one operation moves the ledger exactly as replaying it would. */
  lemma AppendTracks(h: Digests, w: Watch, s: Session, op: Operation)
    requires Tracks(h, w, s) && op.Valid() && PlannedOp(w, op)
    ensures Unharmed(Append(h, s, op))
    ensures Append(h, s, op).Ok? ==> Tracks(h, w, Append(h, s, op).value)
  {
    hide Reduce, Settle, Reserve, AllOpsValid, AllPlanned, PlannedOp, SpendLiquidity, EventsOf, FindOrder, CostPolicy.Valid, Operation.Valid;
    if Append(h, s, op).Ok? {
      var n := Append(h, s, op).value;
      SameDay(h, s, op);
      OperationsAppended(s.operations, op);
      if ReplayAll(h, w.base, n.operations).Ok? && op.Report? {
        ReplayLinked(h, w.base, s.operations);
      }
    }
  }

  /** The ledger comparison of the validator never fails on a tracked session. */
  lemma FinishFine(h: Digests, w: Watch, previous: Session, current: Session)
    requires w.base.Valid() && Tracks(h, w, current) && Fine(h, w, Ok(previous))
    ensures Fine(h, w, Finish(h, previous, current))
  {
    hide ReplayAll, PlannedOp;
    ReplayKinds(h, w.base, current.operations);
    var c := current.(revision := previous.revision + 1);
    assert c.Ground() == w.base && c.operations == current.operations;
  }

  lemma {:induction false} ReplayKinds(h: Digests, g: Base, ops: seq<Operation>)
    ensures Unharmed(ReplayAll(h, g, ops))
  {
    hide Reduce, Settle, Reserve;
    if ops != [] { ReplayKinds(h, g, ops[..|ops| - 1]); }
  }

  /** The events the transitions draft are valid operations. */
  lemma LifecycleValid(h: Digests, intent: Intent, events: seq<Event>, kind: Status, at: Instant,
                       reason: Option<string>, fill: Option<FillEvidence>)
    requires fill.Some? ==> fill.value.filled > 0
    requires LifecycleEvent(h, intent, events, kind, at, reason, fill).Ok?
    ensures var e := LifecycleEvent(h, intent, events, kind, at, reason, fill).value;
            && e.Valid() && e.intentSha == h.intent(intent) && e.kind == kind && e.fill == fill && e.occurredAt == at
  {
    hide Reduce, Event.Valid, NextAverage;
  }

  lemma NoFillPlanned(w: Watch, e: Event)
    requires e.fill.None?
    ensures PlannedOp(w, Report(e))
  {}

  lemma OpenFine(h: Digests, w: Watch, s: Session, intent: Intent)
    requires w.base.Valid() && Tracks(h, w, s) && Fine(h, w, Ok(s)) && intent.Valid() && PlannedOp(w, Order(intent))
    ensures Fine(h, w, OpenAccepted(h, s, intent))
  {
    hide Append, LifecycleEvent, Tracks, Finish, PlannedOp, Sound;
    AppendTracks(h, w, s, Order(intent));
    if Append(h, s, Order(intent)).Ok? {
      var reserved := Append(h, s, Order(intent)).value;
      LifecycleKinds(h, intent, [], Accepted, intent.createdAt, None, None);
      var accepted := LifecycleEvent(h, intent, [], Accepted, intent.createdAt, None, None);
      if accepted.Ok? {
        LifecycleValid(h, intent, [], Accepted, intent.createdAt, None, None);
        NoFillPlanned(w, accepted.value);
        AppendTracks(h, w, reserved, Report(accepted.value));
        if Append(h, reserved, Report(accepted.value)).Ok? {
          FinishFine(h, w, s, Append(h, reserved, Report(accepted.value)).value);
        }
      }
    }
  }

  lemma LifecycleKinds(h: Digests, intent: Intent, events: seq<Event>, kind: Status, at: Instant,
                       reason: Option<string>, fill: Option<FillEvidence>)
    requires fill.Some? ==> fill.value.filled > 0
    ensures Unharmed(LifecycleEvent(h, intent, events, kind, at, reason, fill))
  {
    hide Reduce, Event.Valid, NextAverage;
  }

  lemma MatchKinds(h: Digests, intent: Intent, events: seq<Event>, market: Market, policy: Policy,
                   context: ContextPolicy, available: int)
    requires policy.lotSize >= 1
    ensures Unharmed(MatchQuote(h, intent, events, market, policy, context, available))
  {
    hide Reduce, Event.Valid, NextAverage, AlreadyUsed, Lots;
  }

  lemma {:induction false} ExpireTracks(h: Digests, w: Watch, s: Session, orders: seq<Intent>, at: Instant)
    requires Tracks(h, w, s)
    ensures Unharmed(ExpireAll(h, s, orders, at))
    ensures ExpireAll(h, s, orders, at).Ok? ==> Tracks(h, w, ExpireAll(h, s, orders, at).value)
  {
    hide Append, LifecycleEvent, Tracks, Reduce, EventsOf, PlannedOp;
    if orders != [] {
      ExpireTracks(h, w, s, orders[..|orders| - 1], at);
      var before := ExpireAll(h, s, orders[..|orders| - 1], at);
      if before.Ok? {
        var intent := orders[|orders| - 1];
        var events := EventsOf(before.value.operations, h.intent(intent));
        LifecycleKinds(h, intent, events, Expired, at, Some("TIME_IN_FORCE"), None);
        var e := LifecycleEvent(h, intent, events, Expired, at, Some("TIME_IN_FORCE"), None);
        if e.Ok? {
          LifecycleValid(h, intent, events, Expired, at, Some("TIME_IN_FORCE"), None);
          NoFillPlanned(w, e.value);
          AppendTracks(h, w, before.value, Report(e.value));
        }
      }
    }
  }

  lemma {:induction false} EventsValid(ops: seq<Operation>, sha: Digest)
    requires AllOpsValid(ops)
    ensures AllValid(EventsOf(ops, sha))
  {
    if ops != [] {
      EventsValid(ops[..|ops| - 1], sha);
      assert ops[|ops| - 1].Valid();
    }
  }

  lemma {:induction false} IntentsValid(w: Watch, ops: seq<Operation>)
    requires AllOpsValid(ops) && AllPlanned(w, ops)
    ensures forall i :: i in IntentsOf(ops) <==> Order(i) in ops
    ensures forall i :: i in IntentsOf(ops) ==> i.Valid() && PlannedOp(w, Order(i))
  {
    hide PlannedOp, Intent.Valid;
    if ops != [] {
      var front, last := ops[..|ops| - 1], ops[|ops| - 1];
      IntentsValid(w, front);
      assert last.Valid() && PlannedOp(w, last);
      assert ops == front + [last];
    }
  }

  lemma OfferOneTracks(h: Digests, w: Watch, market: Market, a: Allocation, intent: Intent)
    requires w.cfg.Valid() && w.cfg.policy.Some? && Tracks(h, w, a.session) && intent.Valid()
    ensures Unharmed(OfferOne(h, w.cfg.policy.value, w.cfg.context, market, a, intent))
    ensures OfferOne(h, w.cfg.policy.value, w.cfg.context, market, a, intent).Ok? ==>
              Tracks(h, w, OfferOne(h, w.cfg.policy.value, w.cfg.context, market, a, intent).value.session)
  {
    hide Append, MatchQuote, EventsOf, Reduce, ReplayAll, AllPlanned, Eligible, AlreadyUsed, Intent.Valid, AllValid;
    var policy, context := w.cfg.policy.value, w.cfg.context;
    var events := EventsOf(a.session.operations, h.intent(intent));
    EventsValid(a.session.operations, h.intent(intent));
    MatchKinds(h, intent, events, market, policy, context, a.budgets.Of(intent.action));
    var m := MatchQuote(h, intent, events, market, policy, context, a.budgets.Of(intent.action));
    if m.Ok? && m.value.Some? {
      MatchedEvent(h, intent, events, market, policy, context, a.budgets.Of(intent.action));
      MatchedFill(h, intent, events, market, policy, context, a.budgets.Of(intent.action));
      AppendTracks(h, w, a.session, Report(m.value.value));
    }
  }

  lemma {:induction false} OfferTracks(h: Digests, w: Watch, market: Market, a: Allocation, orders: seq<Intent>)
    requires w.cfg.Valid() && w.cfg.policy.Some? && Tracks(h, w, a.session)
    requires forall i :: i in orders ==> i.Valid()
    ensures Unharmed(OfferAll(h, w.cfg.policy.value, w.cfg.context, market, a, orders))
    ensures OfferAll(h, w.cfg.policy.value, w.cfg.context, market, a, orders).Ok? ==>
              Tracks(h, w, OfferAll(h, w.cfg.policy.value, w.cfg.context, market, a, orders).value.session)
  {
    hide OfferOne, Tracks, Intent.Valid;
    if orders != [] {
      var front := orders[..|orders| - 1];
      OfferTracks(h, w, market, a, front);
      var before := OfferAll(h, w.cfg.policy.value, w.cfg.context, market, a, front);
      if before.Ok? {
        OfferOneTracks(h, w, market, before.value, orders[|orders| - 1]);
      }
    }
  }

  lemma {:induction false} PlaceKeeps(h: Digests, sorted: seq<Intent>, x: Intent)
    ensures multiset(PlaceOrder(h, sorted, x)) == multiset(sorted) + multiset{x}
  {
    if sorted != [] && Precedes(h, sorted[0], x) {
      PlaceKeeps(h, sorted[1..], x);
      assert sorted == [sorted[0]] + sorted[1..];
    }
  }

  /** Sorting the orders loses and invents none. */
  lemma {:induction false} SortKeeps(h: Digests, orders: seq<Intent>)
    ensures multiset(SortOrders(h, orders)) == multiset(orders)
  {
    if orders != [] {
      var front := orders[..|orders| - 1];
      SortKeeps(h, front);
      PlaceKeeps(h, SortOrders(h, front), orders[|orders| - 1]);
      assert orders == front + [orders[|orders| - 1]];
    }
  }

  lemma SortedMembers(h: Digests, orders: seq<Intent>)
    ensures forall i :: i in SortOrders(h, orders) <==> i in orders
  {
    SortKeeps(h, orders);
    forall i ensures i in SortOrders(h, orders) <==> i in orders {
      assert i in SortOrders(h, orders) <==> i in multiset(SortOrders(h, orders));
      assert i in orders <==> i in multiset(orders);
    }
  }

  lemma EntryFine(h: Digests, w: Watch, s: Session, q: Request, ready: Readiness)
    requires w.cfg.Valid() && w.base == s.Ground() && w.base.Valid() && q.Valid()
    requires Tracks(h, w, s) && Fine(h, w, Ok(s))
    ensures Fine(h, w, SubmitEntry(h, w.cfg, s, q, ready))
  {
    hide Tracks, OpenAccepted, EntryReasons, Intent.Valid, Fine, EntryReserve;
    var cfg := w.cfg;
    FineErrors(h, w);
    if cfg.policy.Some? && cfg.gate.Some? && cfg.arbitration.Some? {
      var plan := PlanOrder(h, q, cfg.policy.value, cfg.arbitration.value, cfg.context, cfg.gate.value);
      if plan.Ok? && plan.value.Ready? && q.costs == s.costs && q.tradeDate == s.ledger.tradeDate {
        ReadyEntryReserves(h, q, cfg.policy.value, cfg.arbitration.value, cfg.context, cfg.gate.value);
        OpenFine(h, w, s, plan.value.intent);
      }
    }
  }

  lemma FineErrors(h: Digests, w: Watch)
    ensures forall e :: !Drift(e) ==> Fine(h, w, Err(e))
  {}

  // ----- Whole lots in the ledger -----

  predicate WholeLots(l: Ledger, lot: nat)
    requires lot >= 1
  {
    forall i :: 0 <= i < |l.reservations| ==> l.reservations[i].exitQuantity % lot == 0
  }

  lemma LotSum(a: nat, b: nat, lot: nat)
    requires lot >= 1 && a % lot == 0 && b % lot == 0
    ensures (a + b) % lot == 0 && (a >= b ==> (a - b) % lot == 0)
  {
    assert a == a / lot * lot && b == b / lot * lot;
    assert a + b == (a / lot + b / lot) * lot;
    assert a - b == (a / lot - b / lot) * lot;
    MultipleOf(a / lot + b / lot, lot);
    MultipleOf(a / lot - b / lot, lot);
  }

  predicate InLots(n: nat, lot: nat)
    requires lot >= 1
  {
    n % lot == 0
  }

  lemma MoreLots(events: seq<Event>, e: Event, lot: nat)
    requires lot >= 1 && InLots(EvidenceQuantity(events), lot) && InLots(FillQuantity(e), lot)
    ensures InLots(EvidenceQuantity(events + [e]), lot)
  {
    assert (events + [e])[..|events|] == events;
    LotSum(EvidenceQuantity(events), FillQuantity(e), lot);
  }

  lemma PlannedFill(w: Watch, e: Event)
    requires w.planned && w.cfg.policy.Some? && PlannedOp(w, Report(e))
    ensures InLots(FillQuantity(e), Lot(w.cfg))
  {}

  lemma {:induction false} EvidenceInLots(w: Watch, ops: seq<Operation>, sha: Digest)
    requires w.planned && w.cfg.policy.Some? && AllPlanned(w, ops)
    ensures InLots(EvidenceQuantity(EventsOf(ops, sha)), Lot(w.cfg))
  {
    hide PlannedOp, FillQuantity, EvidenceQuantity, InLots;
    if ops == [] {
      assert InLots(EvidenceQuantity([]), Lot(w.cfg)) by { NoLots(Lot(w.cfg)); }
    } else {
      var front, last := ops[..|ops| - 1], ops[|ops| - 1];
      EvidenceInLots(w, front, sha);
      if last.Report? && last.event.intentSha == sha {
        assert PlannedOp(w, last);
        PlannedFill(w, last.event);
        MoreLots(EventsOf(front, sha), last.event, Lot(w.cfg));
      }
    }
  }

  lemma NoLots(lot: nat)
    requires lot >= 1
    ensures InLots(EvidenceQuantity([]), lot)
  {}

  lemma EvidenceLots(w: Watch, ops: seq<Operation>, sha: Digest)
    requires w.planned && w.cfg.policy.Some? && AllPlanned(w, ops)
    ensures EvidenceQuantity(EventsOf(ops, sha)) % Lot(w.cfg) == 0
  {
    hide EvidenceQuantity, EventsOf, PlannedOp, Lot;
    EvidenceInLots(w, ops, sha);
  }

  lemma RefiledLots(l: Ledger, n: Ledger, key: Digest, left: Option<Reservation>, lot: nat)
    requires lot >= 1 && WholeLots(l, lot) && Refiled(l, n, key, left)
    requires left.Some? ==> left.value.exitQuantity % lot == 0
    ensures WholeLots(n, lot)
  {
    forall i | 0 <= i < |n.reservations| ensures n.reservations[i].exitQuantity % lot == 0 {
      assert n.reservations[i] in n.reservations;
    }
  }

  lemma LotsOrder(h: Digests, w: Watch, r: Replay, intent: Intent)
    requires w.planned && w.cfg.policy.Some? && PlannedOp(w, Order(intent)) && intent.Valid()
    requires r.ledger.Valid() && WholeLots(r.ledger, Lot(w.cfg)) && ReplayOrder(h, r, intent).Ok?
    ensures WholeLots(ReplayOrder(h, r, intent).value.ledger, Lot(w.cfg))
  {
    hide ReserveEntry, ReserveExit, WholeLots, Refiled, Ledger.Valid, Intent.Valid;
    var n := ReplayOrder(h, r, intent).value;
    if intent.leg == Entry {
      ReserveEntryEffect(h, r.ledger, intent);
      RefiledLots(r.ledger, n.ledger, h.intent(intent), Some(PendingFor(h.intent(intent), intent)), Lot(w.cfg));
    } else {
      var prior := ReserveExitEffect(h, r.ledger, intent);
      RefiledLots(r.ledger, n.ledger, prior.entry,
                  Some(prior.(exit := Some(h.intent(intent)), status := ExitPending)), Lot(w.cfg));
    }
  }

  lemma LotsReport(h: Digests, w: Watch, ops: seq<Operation>, r: Replay, e: Event)
    requires w.planned && w.cfg.policy.Some? && AllPlanned(w, ops) && PlannedOp(w, Report(e)) && e.Valid()
    requires Linked(h, ops, r) && Books(h, r) && WholeLots(r.ledger, Lot(w.cfg))
    requires ReplayReport(h, w.base.costs, r, e).Ok?
    ensures WholeLots(ReplayReport(h, w.base.costs, r, e).value.ledger, Lot(w.cfg))
  {
    hide Reduce, SettleEntry, SettleExit, WholeLots, Refiled, Ledger.Valid, SpendLiquidity, EventsOf, FindOrder, AllValid, AllPlanned, Intent.Valid, Backed, Explained, ExitMatches;
    var lot := Lot(w.cfg);
    var n := ReplayReport(h, w.base.costs, r, e).value;
    AcceptedExtends(h, ops, w.base.costs, r, e);
    var sha := e.intentSha;
    var intent := r.intents[sha];
    if Done(h, n, sha) {
      OneMoreEvent(r.events[sha], e);
      AcceptedHistory(h, intent, n.events[sha]);
      var state := Reduce(h, intent, n.events[sha]).value;
      EvidenceLots(w, ops, sha);
      assert n.events[sha][..|r.events[sha]|] == r.events[sha];
      LotSum(EvidenceQuantity(r.events[sha]), FillQuantity(e), lot);
      if intent.leg == Entry {
        EntrySymbols(h, r, sha);
        var prior := SettleEntryEffect(h, r.ledger, intent, state, w.base.costs);
        RefiledLots(r.ledger, n.ledger, prior.entry, OpenCycle(prior.entry, intent.symbol, state.filled, state.average), lot);
      } else {
        var prior := SettleExitEffect(h, r.ledger, intent, state, w.base.costs);
        assert prior.exitQuantity % lot == 0 by { MemberLots(r.ledger, prior, lot); }
        LotSum(prior.exitQuantity, state.filled, lot);
        RefiledLots(r.ledger, n.ledger, prior.entry,
                    OpenCycle(prior.entry, prior.symbol, prior.exitQuantity - state.filled, prior.entryAverage), lot);
      }
    }
  }

  lemma MemberLots(l: Ledger, x: Reservation, lot: nat)
    requires lot >= 1 && WholeLots(l, lot) && x in l.reservations
    ensures x.exitQuantity % lot == 0
  {}

  /** When every order and fill of a log is whole lots, so is every reservation it leads to. */
  lemma {:induction false} ReplayLots(h: Digests, w: Watch, ops: seq<Operation>)
    requires w.planned && w.cfg.policy.Some? && AllPlanned(w, ops) && AllOpsValid(ops) && w.base.Valid()
    requires ReplayAll(h, w.base, ops).Ok?
    ensures WholeLots(ReplayAll(h, w.base, ops).value.ledger, Lot(w.cfg))
  {
    hide ReplayOrder, ReplayReport, Linked, Explained, Backed, Ledger.Valid, PlannedOp;
    if ops != [] {
      var front, last := ops[..|ops| - 1], ops[|ops| - 1];
      ReplayLots(h, w, front);
      ReplayBooks(h, w.base, front);
      var r := ReplayAll(h, w.base, front).value;
      assert PlannedOp(w, last);
      match last
      case Order(i) => LotsOrder(h, w, r, i);
      case Report(e) => LotsReport(h, w, front, r, e);
    }
  }

  lemma ExitFine(h: Digests, w: Watch, s: Session, entry: Intent, m: Market, sha: Digest)
    requires w.cfg.Valid() && w.base == s.Ground() && Sound(h, s) && AllPlanned(w, s.operations) && m.Valid()
    ensures Fine(h, w, SubmitExit(h, w.cfg, s, entry, m, sha))
  {
    hide Tracks, OpenAccepted, ExitReasons, Intent.Valid, Policy.Valid, Ledger.Valid, Reduce, EventsOf, EntryMatches, ReplayAll, Books, Linked, Fine, WholeLots;
    SoundTracks(h, w, s);
    FineErrors(h, w);
    ReplayBooks(h, w.base, s.operations);
    LedgerOfBooks(h, s);
    if w.cfg.policy.Some? && Order(entry) in s.operations && Reduce(h, entry, EventsOf(s.operations, h.intent(entry))).Ok? {
      var state := Reduce(h, entry, EventsOf(s.operations, h.intent(entry))).value;
      var q := ExitRequest(sha, entry, state, m, s.ledger);
      var plan := PlanExit(h, q, w.cfg.policy.value, w.cfg.context);
      if plan.Ok? && plan.value.Ready? {
        assert Order(entry).Valid() && PlannedOp(w, Order(entry));
        ReadyExitReserves(h, q, w.cfg.policy.value, w.cfg.context);
        if w.planned {
          ReplayLots(h, w, s.operations);
          var open := EntryMatches(s.ledger.reservations, h.intent(entry), Open);
          EntryMatchOrdered(s.ledger, h.intent(entry));
          assert open[0] in open;
          MemberLots(s.ledger, open[0], Lot(w.cfg));
        }
        OpenFine(h, w, s, plan.value.intent);
      }
    }
  }

  lemma EntryMatchOrdered(l: Ledger, entry: Digest)
    requires l.Valid()
    ensures forall x :: x in EntryMatches(l.reservations, entry, Open) <==> x in l.reservations && x.entry == entry && x.status == Open
  {
    EntryMatchFacts(l.reservations, entry, Open);
  }

  lemma LedgerOfBooks(h: Digests, s: Session)
    requires Sound(h, s) && ReplayAll(h, s.Ground(), s.operations).Ok? && Books(h, ReplayAll(h, s.Ground(), s.operations).value)
    ensures s.ledger.Valid()
    ensures s.ledger == ReplayAll(h, s.Ground(), s.operations).value.ledger
  {
    hide ReplayAll, Backed, Explained, Ledger.Valid;
  }

  lemma {:induction false} PlaceMarketMembers(markets: seq<Market>, market: Market)
    requires MarketsOrdered(markets)
    ensures forall x :: x in PlaceMarket(markets, market) <==> x == market || (x in markets && x.symbol != market.symbol)
  {
    if markets != [] {
      var head, rest := markets[0], markets[1..];
      PlaceMarketMembers(rest, market);
      assert markets == [head] + rest;
      assert forall x :: x in rest ==> x.symbol > head.symbol;
    }
  }

  lemma OrderedHead(head: Market, rest: seq<Market>)
    requires MarketsOrdered(rest) && forall x :: x in rest ==> head.symbol < x.symbol
    ensures MarketsOrdered([head] + rest)
  {}

  lemma {:induction false} PlaceMarketKeys(markets: seq<Market>, market: Market)
    requires MarketsOrdered(markets)
    ensures MarketsOrdered(PlaceMarket(markets, market))
    ensures forall x :: x in PlaceMarket(markets, market) <==> x == market || (x in markets && x.symbol != market.symbol)
  {
    PlaceMarketMembers(markets, market);
    if markets != [] {
      var head, rest := markets[0], markets[1..];
      assert markets == [head] + rest;
      assert forall x :: x in rest ==> x.symbol > head.symbol;
      PlaceMarketKeys(rest, market);
      hide MarketsOrdered;
      if head.symbol < market.symbol {
        OrderedHead(head, PlaceMarket(rest, market));
      } else if head.symbol > market.symbol {
        OrderedHead(market, markets);
      }
    }
  }

  lemma TracksIgnoresMarkets(h: Digests, w: Watch, s: Session, n: Session)
    requires Tracks(h, w, s) && n == s.(markets := n.markets) && MarketsOrdered(n.markets)
    ensures Tracks(h, w, n)
  {
    hide ReplayAll;
  }

  /** Every command, on every valid session. */
  lemma ApplyFine(h: Digests, w: Watch, s: Session, c: Command)
    requires w.cfg.Valid() && w.base == s.Ground() && Sound(h, s) && AllPlanned(w, s.operations) && c.Valid()
    ensures Fine(h, w, Apply(h, w.cfg, s, c))
  {
    hide SubmitEntry, SubmitExit, Append, LifecycleEvent, Tracks, Finish, ExpireAll, OfferAll, Reduce, EventsOf, SortOrders, IntentsOf, ReplayAll, Request.Valid, Market.Valid, Fine, Intent.Valid, PlannedOp;
    SoundTracks(h, w, s);
    FineErrors(h, w);
    match c
    case EntryCommand(q, ready) => EntryFine(h, w, s, q, ready);
    case ExitCommand(entry, m, sha) => ExitFine(h, w, s, entry, m, sha);
    case QuoteCommand(m) =>
      if w.cfg.policy.Some? {
        var a := Allocation(s, QuoteBudgets(Cursor(s.markets, m.symbol), m));
        var orders := SortOrders(h, IntentsOf(s.operations));
        IntentsValid(w, s.operations);
        SortedMembers(h, IntentsOf(s.operations));
        OfferTracks(h, w, m, a, orders);
        if OfferAll(h, w.cfg.policy.value, w.cfg.context, m, a, orders).Ok? {
          var result := OfferAll(h, w.cfg.policy.value, w.cfg.context, m, a, orders).value.session;
          var current := result.(markets := PlaceMarket(s.markets, m));
          PlaceMarketKeys(s.markets, m);
          TracksIgnoresMarkets(h, w, result, current);
          FinishFine(h, w, s, current);
        }
      }
    case ClockCommand(at) =>
      ExpireTracks(h, w, s, IntentsOf(s.operations), at);
      if ExpireAll(h, s, IntentsOf(s.operations), at).Ok? {
        FinishFine(h, w, s, ExpireAll(h, s, IntentsOf(s.operations), at).value);
      }
    case CancelCommand(i, at, reason) =>
      var events := EventsOf(s.operations, h.intent(i));
      LifecycleKinds(h, i, events, Cancelled, at, Some(reason), None);
      var e := LifecycleEvent(h, i, events, Cancelled, at, Some(reason), None);
      if e.Ok? {
        LifecycleValid(h, i, events, Cancelled, at, Some(reason), None);
        NoFillPlanned(w, e.value);
        AppendTracks(h, w, s, Report(e.value));
        if Append(h, s, Report(e.value)).Ok? {
          FinishFine(h, w, s, Append(h, s, Report(e.value)).value);
        }
      }
  }

  /** For every valid session and every command: the validator's ledger and cursor comparisons never
      fail, so the incrementally kept ledger is always the one the operation log re-derives. */
  lemma LedgerNeverDrifts(h: Digests, cfg: Configuration, s: Session, c: Command)
    requires cfg.Valid() && Sound(h, s) && c.Valid()
    ensures Unharmed(Apply(h, cfg, s, c))
    ensures Apply(h, cfg, s, c).Ok? ==> Sound(h, Apply(h, cfg, s, c).value)
  {
    hide Apply, Sound;
    ApplyFine(h, Watch(cfg, s.Ground(), false), s, c);
  }
}
