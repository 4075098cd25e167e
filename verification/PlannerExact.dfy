/** READY, exactly: over the fields of the request, with no word of how the planner computes it. */
module PlannerExact {
  import opened Prelude
  import opened PaperModel
  import opened OrderReducer
  import opened LedgerParts
  import opened SessionLog
  import opened Planner

  // ----- Entries -----

  /** Every configuration the request was made under is the one it is planned under. */
  predicate SameVersions(q: Request, policy: Policy, arbitration: ArbitrationPolicy, context: ContextPolicy, gate: GatePolicy) {
    && policy.effectiveFrom <= q.tradeDate && (policy.effectiveTo == None || q.tradeDate <= policy.effectiveTo.value)
    && context.effectiveFrom <= q.tradeDate && (context.effectiveTo == None || q.tradeDate <= context.effectiveTo.value)
    && policy.arbitrationVersion == q.arbitrationVersion == arbitration.version && q.arbitrationSha == arbitration.sha
    && policy.gateVersion == q.promotion.gateVersion == gate.version && q.promotion.gateSha == gate.sha
    && policy.contextVersion == context.version
    && q.promotion.evaluationVersion == gate.evaluationVersion && q.promotion.arbitrationVersion == gate.arbitrationVersion
  }

  /** The displayed quote allows the order: tradable, fresh, deep enough, and its limit inside the band. */
  predicate QuoteAllows(q: Request, policy: Policy, context: ContextPolicy) {
    var m := q.market;
    var limit := m.askPrice + m.tick * policy.offsetTicks as real;
    && m.status in context.tradable
    && m.observedAt - m.quoteReceivedAt <= policy.maxQuoteAgeSeconds * 1_000_000
    && policy.orderQuantity <= m.askQuantity
    && m.floor <= limit <= m.ceiling
  }

  /** The risk limits of the request, against the ledger it was made with. */
  predicate RiskAllows(q: Request, policy: Policy, l: Ledger) {
    var limit := q.market.askPrice + q.market.tick * policy.offsetTicks as real;
    && policy.orderQuantity <= q.risk.maxCycleQuantity
    && limit * policy.orderQuantity as real <= q.risk.maxOrderNotional
    && l.startedCycles < q.risk.maxCyclesPerDay
    && l.realizedPnl > -q.risk.maxDailyLoss
    && q.risk.cashReserve <= l.cash - limit * policy.orderQuantity as real * (1.0 + q.costs.buyFeeBps / 10000.0)
  }

  /** Enough settled shares above core. */
  predicate SharesAllow(l: Ledger, symbol: Ident, quantity: nat) {
    exists k :: 0 <= k < |l.positions| && l.positions[k].symbol == symbol && quantity <= l.positions[k].available
  }

  lemma {:induction false} SharesMean(l: Ledger, symbol: Ident, quantity: nat)
    requires forall i, j :: 0 <= i < j < |l.positions| ==> l.positions[i].symbol < l.positions[j].symbol
    ensures SharesAllow(l, symbol, quantity) <==> HasPosition(l.positions, symbol) && quantity <= Available(l.positions, symbol)
  {
    if HasPosition(l.positions, symbol) {
      var k :| 0 <= k < |l.positions| && l.positions[k].symbol == symbol;
      AvailableAt(l.positions, k);
    }
  }

  /** The list of reasons is empty exactly when every one of its conditions fails. */
  lemma UnblockedMeans(q: Request, p: Policy, c: ContextPolicy)
    ensures EntryReasons(q, p, c) == [] <==>
              && q.market.status in c.tradable && !Stale(q.market, p) && q.market.askQuantity >= p.orderQuantity
              && q.market.floor <= EntryLimit(q.market, p) <= q.market.ceiling
              && HasPosition(q.resources.positions, q.symbol) && Available(q.resources.positions, q.symbol) >= p.orderQuantity
              && p.orderQuantity <= q.risk.maxCycleQuantity && Cost(EntryLimit(q.market, p), p.orderQuantity) <= q.risk.maxOrderNotional
              && q.resources.startedCycles < q.risk.maxCyclesPerDay && q.resources.realizedPnl > -q.risk.maxDailyLoss
              && q.resources.cash - EntryReserve(q.costs, EntryLimit(q.market, p), p.orderQuantity) >= q.risk.cashReserve
  {
    hide EntryReserve, Cost, HasPosition, Available, EntryLimit, Stale;
    assert When(false, StaleQuote) == [];
  }

  lemma UnblockedExactly(q: Request, policy: Policy, context: ContextPolicy)
    requires q.Valid()
    ensures EntryReasons(q, policy, context) == []
            <==> QuoteAllows(q, policy, context) && SharesAllow(q.resources, q.symbol, policy.orderQuantity) && RiskAllows(q, policy, q.resources)
  {
    hide EntryReasons, HasPosition, Available, Market.Valid, Account.Valid, CostPolicy.Valid, CostPolicy.Contains, SharesAllow;
    UnblockedMeans(q, policy, context);
    SharesMean(q.resources, q.symbol, policy.orderQuantity);
    ReserveMeans(q.costs, EntryLimit(q.market, policy), policy.orderQuantity);
  }

  lemma ReserveMeans(costs: CostPolicy, limit: real, quantity: nat)
    ensures EntryReserve(costs, limit, quantity) == limit * quantity as real * (1.0 + costs.buyFeeBps / 10000.0)
    ensures Cost(limit, quantity) == limit * quantity as real
  {}

  /** The order a READY entry becomes. */
  predicate EntryAsRequested(h: Digests, q: Request, policy: Policy, i: Intent) {
    var limit := q.market.askPrice + q.market.tick * policy.offsetTicks as real;
    && i.leg == Entry && i.action == Buy && i.symbol == q.symbol && i.tradeDate == q.tradeDate && i.arbitration == q.arbitration
    && i.quantity == i.reservedExit == policy.orderQuantity && i.limitPrice == limit
    && i.reservedCash == limit * policy.orderQuantity as real * (1.0 + q.costs.buyFeeBps / 10000.0)
    && Some(i.priority) == q.priority && i.decisionAt == q.decisionAt && i.horizonSeconds == q.horizonSeconds
    && i.createdAt == q.market.observedAt && i.expiresAt == q.market.observedAt + policy.timeInForceSeconds * 1_000_000
    && i.configSha == policy.sha && i.requestSha == q.sha && i.lineage == q.lineage && i.ledgerSha == h.ledger(q.resources) && i.parent == None
  }

  /** An entry is READY if and only if its versions match, the quote, the shares and the risk limits allow it
      and its arbitration has a priority; mismatched versions are an error; otherwise it is blocked. */
  lemma ReadyEntryExactly(h: Digests, q: Request, policy: Policy, arbitration: ArbitrationPolicy, context: ContextPolicy, gate: GatePolicy)
    requires q.Valid()
    ensures var plan := PlanOrder(h, q, policy, arbitration, context, gate);
            var allowed := QuoteAllows(q, policy, context) && SharesAllow(q.resources, q.symbol, policy.orderQuantity) && RiskAllows(q, policy, q.resources);
            && (plan == Err(PolicyMismatch) <==> !SameVersions(q, policy, arbitration, context, gate))
            && (plan.Ok? && plan.value.Ready? <==> SameVersions(q, policy, arbitration, context, gate) && allowed && q.priority.Some?)
            && (plan.Ok? && plan.value.NotReady? <==> SameVersions(q, policy, arbitration, context, gate) && !allowed)
            && (plan.Ok? && plan.value.Ready? ==> EntryAsRequested(h, q, policy, plan.value.intent))
  {
    hide EntryReasons, QuoteAllows, SharesAllow, RiskAllows, Request.Valid, EntryReserve;
    UnblockedExactly(q, policy, context);
    ReserveMeans(q.costs, EntryLimit(q.market, policy), policy.orderQuantity);
  }

  // ----- Exits -----

  /** A terminal, filled entry past its horizon, in a tradable, fresh, deep enough market whose band holds
      the limit: the bid less the offset. */
  predicate ExitAllowed(q: ExitRequest, quantity: nat, policy: Policy, context: ContextPolicy) {
    var m := q.market;
    var limit := m.bidPrice - m.tick * policy.offsetTicks as real;
    && q.state.status.Terminal() && quantity >= 1
    && q.entry.decisionAt + q.entry.horizonSeconds * 1_000_000 <= m.observedAt
    && m.status in context.tradable
    && m.observedAt - m.quoteReceivedAt <= policy.maxQuoteAgeSeconds * 1_000_000
    && quantity <= m.bidQuantity
    && m.floor <= limit <= m.ceiling
  }

  predicate ExitConfigured(q: ExitRequest, policy: Policy, context: ContextPolicy) {
    && policy.effectiveFrom <= q.entry.tradeDate && (policy.effectiveTo == None || q.entry.tradeDate <= policy.effectiveTo.value)
    && context.effectiveFrom <= q.entry.tradeDate && (context.effectiveTo == None || q.entry.tradeDate <= context.effectiveTo.value)
    && q.entry.configSha == policy.sha
  }

  lemma ExitUnblocked(q: ExitRequest, quantity: nat, policy: Policy, context: ContextPolicy)
    ensures ExitReasons(q, quantity, policy, context) == [] <==> ExitAllowed(q, quantity, policy, context)
  {
    assert When(false, StaleQuote) == [];
  }

  /** An exit of an open cycle is READY if and only if the configuration is its entry's and the market allows
      it; it then sells the cycle's whole quantity at the bid less the offset. */
  lemma ReadyExitExactly(h: Digests, q: ExitRequest, policy: Policy, context: ContextPolicy, x: Reservation)
    requires q.resources.Valid() && ExitRequestValid(h, q) && x in q.resources.reservations && x.entry == h.intent(q.entry) && x.status == Open
    ensures var plan := PlanExit(h, q, policy, context);
            && (plan == Err(PolicyMismatch) <==> !ExitConfigured(q, policy, context))
            && (plan.Ok? && plan.value.Ready? <==> ExitConfigured(q, policy, context) && ExitAllowed(q, x.exitQuantity, policy, context))
            && (plan.Ok? && plan.value.Ready? ==>
                  var i := plan.value.intent;
                  && i.leg == Exit && i.action == Sell && i.quantity == i.reservedExit == x.exitQuantity && i.reservedCash == 0.0
                  && i.limitPrice == q.market.bidPrice - q.market.tick * policy.offsetTicks as real
                  && i.createdAt == q.market.observedAt && i.expiresAt == q.market.observedAt + policy.timeInForceSeconds * 1_000_000
                  && i.parent == Some(h.intent(q.entry)) && i.symbol == q.entry.symbol && i.tradeDate == q.entry.tradeDate
                  && i.priority == q.entry.priority && i.ledgerSha == h.ledger(q.resources))
  {
    hide ExitReasons, ExitAllowed, EntryMatches, ExitRequestValid;
    var open := EntryMatches(q.resources.reservations, h.intent(q.entry), Open);
    EntryMatchFacts(q.resources.reservations, h.intent(q.entry), Open);
    assert x in open && open[0] in open;
    ExitUnblocked(q, x.exitQuantity, policy, context);
  }
}
