/** Which exits a session takes. */
module ExitLimits {
  import opened Prelude
  import opened PaperModel
  import opened OrderReducer
  import opened LedgerParts
  import opened PaperLedger
  import opened LedgerExact
  import opened SessionLog
  import opened SessionBooks
  import opened Planner
  import opened PlannerExact
  import opened PaperSession
  import opened SessionSafety
  import opened SessionGuards
  import opened SessionSubmission
  import opened SessionClosing

  /** The calendar day of the exchange, seven hours ahead of UTC. */
  predicate OnMarketDay(at: Instant, day: Day) {
    day * 86_400_000_000 <= at + 25_200_000_000 < (day + 1) * 86_400_000_000
  }

  lemma MarketDayMeans(at: Instant, day: Day)
    ensures MarketDay(at) == day <==> OnMarketDay(at, day)
  {
    var local, length := at + 7 * 3600 * SECOND, 86400 * SECOND;
    assert local == local / length * length + local % length;
  }

  /** The cycle an entry of the log has open, if any: it is an ENTRY, closed, and holds no more than it filled. */
  lemma OpenCycleFacts(h: Digests, s: Session, entry: Intent, x: Reservation)
    requires Sound(h, s) && Order(entry) in s.operations && x in s.ledger.reservations && x.entry == h.intent(entry) && x.status == Open
    ensures s.ledger.Valid() && entry.leg == Entry && Reduce(h, entry, EventsOf(s.operations, h.intent(entry))).Ok?
    ensures var state := Reduce(h, entry, EventsOf(s.operations, h.intent(entry))).value;
            && state.intentSha == h.intent(entry) && state.status.Terminal() && 0 < x.exitQuantity <= state.filled <= entry.quantity
            && (state.status.Filled? ==> state.filled == entry.quantity)
  {
    hide Reduce, EventsOf, ReplayAll, FindOrder, Intent.Valid, AllValid, Backed, EvidenceQuantity, EvidenceValue, Cost;
    assert AllOpsValid(s.operations) && s.Ground().Valid();
    ReplayBooks(h, s.Ground(), s.operations);
    LedgerOfBooks(h, s);
    OrderReduces(h, s, entry);
    var r, sha := ReplayAll(h, s.Ground(), s.operations).value, h.intent(entry);
    FoundIn(h, s.Ground(), s.operations, entry);
    ReplayLinked(h, s.Ground(), s.operations);
    assert Explained(h, r, x);
    assert x.Valid() by { ReservationFine(s.ledger, x); }
    var events := EventsOf(s.operations, sha);
    AcceptedHistory(h, entry, events);
    StateNamesIntent(h, entry, events);
  }

  /** An exit is taken if and only if its entry has an open cycle, the market is of its symbol and day, the
      configuration is its entry's, the market allows it, and its facts are no older than the log. */
  lemma {:induction false} ExitTakenExactly(h: Digests, cfg: Configuration, s: Session, entry: Intent, market: Market, sha: Digest, x: Reservation)
    requires Sound(h, s) && cfg.Valid() && market.Valid() && Order(entry) in s.operations
    requires x in s.ledger.reservations && x.entry == h.intent(entry) && x.status == Open
    requires Reduce(h, entry, EventsOf(s.operations, h.intent(entry))).Ok?
    requires var q := ExitRequest(sha, entry, Reduce(h, entry, EventsOf(s.operations, h.intent(entry))).value, market, s.ledger);
             cfg.policy.Some? && PlanExit(h, q, cfg.policy.value, cfg.context).Ok? && PlanExit(h, q, cfg.policy.value, cfg.context).value.Ready? ==>
               NoCollision(h, s.Ground(), s.operations, PlanExit(h, q, cfg.policy.value, cfg.context).value.intent, s.ledger)
    ensures var r := SubmitExit(h, cfg, s, entry, market, sha);
            var q := ExitRequest(sha, entry, Reduce(h, entry, EventsOf(s.operations, h.intent(entry))).value, market, s.ledger);
            r.Ok? && r.value != s <==>
              && cfg.policy.Some? && market.symbol == entry.symbol && OnMarketDay(market.observedAt, entry.tradeDate)
              && ExitConfigured(q, cfg.policy.value, cfg.context) && ExitAllowed(q, x.exitQuantity, cfg.policy.value, cfg.context)
              && LastAt(s) <= market.observedAt
  {
    hide Reduce, EventsOf, PlanExit, OpenAccepted, NoCollision, LastAt, Market.Valid, ReplayAll, AllOpsValid, EntryMatches, ExitAllowed, ExitConfigured, Ledger.Valid, Reserve, MarketDay, OnMarketDay;
    var state := Reduce(h, entry, EventsOf(s.operations, h.intent(entry))).value;
    var q := ExitRequest(sha, entry, state, market, s.ledger);
    OpenCycleFacts(h, s, entry, x);
    MarketDayMeans(market.observedAt, entry.tradeDate);
    assert EntryMatches(s.ledger.reservations, h.intent(entry), Open) != [] by { OnlyPending(s.ledger, h.intent(entry), Open, x); }
    if cfg.policy.Some? {
      if ExitRequestValid(h, q) {
        ReadyExitExactly(h, q, cfg.policy.value, cfg.context, x);
        var plan := PlanExit(h, q, cfg.policy.value, cfg.context);
        if plan.Ok? && plan.value.Ready? { ExitSubmittedExactly(h, cfg, s, entry, market, sha); }
      } else {
        InvalidExit(h, q, cfg.policy.value, cfg.context);
      }
    }
  }

  lemma InvalidExit(h: Digests, q: ExitRequest, policy: Policy, context: ContextPolicy)
    requires !ExitRequestValid(h, q)
    ensures PlanExit(h, q, policy, context) == Err(ExitLineage)
  {}

  /** An unknown entry is refused; one without an open cycle leaves the session alone. */
  lemma ExitWithoutCycle(h: Digests, cfg: Configuration, s: Session, entry: Intent, market: Market, sha: Digest)
    requires Sound(h, s)
    ensures Order(entry) !in s.operations ==> SubmitExit(h, cfg, s, entry, market, sha) == Err(UnknownOrder)
    ensures Order(entry) in s.operations && (forall x :: x in s.ledger.reservations ==> !(x.entry == h.intent(entry) && x.status == Open)) ==>
              SubmitExit(h, cfg, s, entry, market, sha) == Ok(s)
  {
    hide ReplayAll, EntryMatches, Ledger.Valid, Explained, Backed, AllOpsValid;
    ReplayBooks(h, s.Ground(), s.operations);
    LedgerOfBooks(h, s);
    var found := EntryMatches(s.ledger.reservations, h.intent(entry), Open);
    OpenFound(s.ledger, h.intent(entry));
    if found != [] { assert found[0] in found; }
  }
}
