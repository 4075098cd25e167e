/** The paper planners: one selected candidate becomes one limit order, or a list of reasons. */
module Planner {
  import opened Prelude
  import opened PaperModel
  import opened OrderReducer
  import opened LedgerParts
  import opened PaperLedger
  import opened SessionLog

  datatype Policy = Policy(sha: Digest, version: Ident, effectiveFrom: Day, effectiveTo: Option<Day>,
                           arbitrationVersion: Ident, gateVersion: Ident, contextVersion: Ident,
                           orderQuantity: nat, lotSize: nat, maxQuoteAgeSeconds: nat,
                           offsetTicks: nat, timeInForceSeconds: nat)
  {
    predicate Valid() {
      orderQuantity >= 1 && lotSize >= 1 && timeInForceSeconds >= 1 && orderQuantity % lotSize == 0
    }

    predicate Contains(day: Day) {
      effectiveFrom <= day && (effectiveTo.Some? ==> day <= effectiveTo.value)
    }
  }

  datatype ContextPolicy = ContextPolicy(version: Ident, effectiveFrom: Day, effectiveTo: Option<Day>, tradable: set<Ident>)
  {
    predicate Contains(day: Day) {
      effectiveFrom <= day && (effectiveTo.Some? ==> day <= effectiveTo.value)
    }
  }

  datatype ArbitrationPolicy = ArbitrationPolicy(version: Ident, sha: Digest)

  datatype GatePolicy = GatePolicy(version: Ident, sha: Digest, evaluationVersion: Ident, arbitrationVersion: Ident)

  /** The passed promotion report an entry rests on. */
  datatype Promotion = Promotion(sha: Digest, gateVersion: Ident, gateSha: Digest,
                                 evaluationVersion: Ident, arbitrationVersion: Ident)

  datatype Request = Request(sha: Digest, lineage: Digest, symbol: Ident, tradeDate: Day, decisionAt: Instant,
                             baselineVersion: Ident, contextSha: Digest,
                             arbitration: Digest, arbitrationVersion: Ident, arbitrationSha: Digest,
                             horizonSeconds: nat, priority: Option<nat>, promotion: Promotion,
                             market: Market, account: Account, costs: CostPolicy, risk: RiskLimits, resources: Ledger)
  {
    predicate Valid() {
      && market.Valid() && account.Valid() && costs.Valid() && risk.Valid() && resources.Valid()
      && horizonSeconds >= 1
      && market.symbol == symbol && decisionAt <= market.observedAt && MarketDay(market.observedAt) == tradeDate
      && account.asOf <= market.observedAt && MarketDay(account.asOf) == tradeDate
      && costs.Contains(tradeDate)
      && resources.tradeDate == tradeDate && resources.accountSha == account.sha256
    }
  }

  datatype Plan = Ready(intent: Intent) | NotReady(reasons: seq<BlockReason>)

  function When(condition: bool, reason: BlockReason): seq<BlockReason> {
    if condition then [reason] else []
  }

  predicate Stale(market: Market, policy: Policy) {
    market.observedAt - market.quoteReceivedAt > policy.maxQuoteAgeSeconds * SECOND
  }

  function EntryLimit(market: Market, policy: Policy): real {
    market.askPrice + market.tick * policy.offsetTicks as real
  }

  function ExitLimit(market: Market, policy: Policy): real {
    market.bidPrice - market.tick * policy.offsetTicks as real
  }

  /** The cash an entry sets aside: its whole quantity at its limit price, fee included. */
  function EntryReserve(costs: CostPolicy, limitPrice: real, quantity: nat): real {
    Scaled(Cost(limitPrice, quantity), costs.BuyFactor())
  }

  function EntryReasons(request: Request, policy: Policy, context: ContextPolicy): seq<BlockReason> {
    var market, risk, resources := request.market, request.risk, request.resources;
    var quantity := policy.orderQuantity;
    var limit := EntryLimit(market, policy);
    var notional := Cost(limit, quantity);
    When(market.status !in context.tradable, MarketStatusIneligible)
    + When(Stale(market, policy), StaleQuote)
    + When(market.askQuantity < quantity, InsufficientAsk)
    + When(limit > market.ceiling || limit < market.floor, PriceLimit)
    + When(!HasPosition(resources.positions, request.symbol), PositionUnavailable)
    + When(HasPosition(resources.positions, request.symbol)
           && Available(resources.positions, request.symbol) < quantity, InsufficientSettledAboveCore)
    + When(quantity > risk.maxCycleQuantity, QuantityLimit)
    + When(notional > risk.maxOrderNotional, OrderNotionalLimit)
    + When(resources.startedCycles >= risk.maxCyclesPerDay, CycleLimit)
    + When(resources.realizedPnl <= -risk.maxDailyLoss, DailyLossLimit)
    + When(resources.cash - EntryReserve(request.costs, limit, quantity) < risk.cashReserve, CashLimit)
  }

  function PlanOrder(h: Digests, request: Request, policy: Policy, arbitration: ArbitrationPolicy,
                     context: ContextPolicy, gate: GatePolicy): Result<Plan, SessionError>
  {
    if || !policy.Contains(request.tradeDate)
       || !context.Contains(request.tradeDate)
       || policy.arbitrationVersion != arbitration.version
       || policy.gateVersion != gate.version
       || policy.contextVersion != context.version
       || request.arbitrationVersion != arbitration.version
       || request.arbitrationSha != arbitration.sha
       || request.promotion.gateVersion != gate.version
       || request.promotion.gateSha != gate.sha
       || request.promotion.evaluationVersion != gate.evaluationVersion
       || request.promotion.arbitrationVersion != gate.arbitrationVersion
    then Err(PolicyMismatch)
    else if EntryReasons(request, policy, context) != [] then Ok(NotReady(EntryReasons(request, policy, context)))
    else if request.priority.None? then Err(MissingPriority)
    else
      var market := request.market;
      var limit := EntryLimit(market, policy);
      Ok(Ready(Intent(policy.sha, request.sha, request.lineage, request.arbitration, request.symbol, request.tradeDate,
                      request.decisionAt, request.horizonSeconds, Entry, Buy, policy.orderQuantity, limit,
                      request.priority.value, market.observedAt, market.observedAt + policy.timeInForceSeconds * SECOND,
                      EntryReserve(request.costs, limit, policy.orderQuantity), policy.orderQuantity,
                      h.ledger(request.resources), None)))
  }

  datatype ExitRequest = ExitRequest(sha: Digest, entry: Intent, state: OrderState, market: Market, resources: Ledger)

  /** The validator of an exit request. */
  predicate ExitRequestValid(h: Digests, q: ExitRequest) {
    && q.entry.leg == Entry && q.state.intentSha == h.intent(q.entry)
    && q.market.symbol == q.entry.symbol && MarketDay(q.market.observedAt) == q.entry.tradeDate
    && q.state.filled <= q.entry.quantity
    && (q.state.status.Filled? ==> q.state.filled == q.entry.quantity)
    && exists x :: x in q.resources.reservations && x.entry == h.intent(q.entry) && x.status == Open
                   && 0 < x.exitQuantity <= q.state.filled
  }

  function ExitReasons(q: ExitRequest, quantity: nat, policy: Policy, context: ContextPolicy): seq<BlockReason> {
    var market := q.market;
    var limit := ExitLimit(market, policy);
    When(!q.state.status.Terminal(), EntryNotTerminal)
    + When(quantity == 0, EntryUnfilled)
    + When(market.observedAt < q.entry.decisionAt + q.entry.horizonSeconds * SECOND, BeforeExitHorizon)
    + When(market.status !in context.tradable, MarketStatusIneligible)
    + When(Stale(market, policy), StaleQuote)
    + When(market.bidQuantity < quantity, InsufficientBid)
    + When(limit < market.floor || limit > market.ceiling, PriceLimit)
  }

  function PlanExit(h: Digests, q: ExitRequest, policy: Policy, context: ContextPolicy): Result<Plan, SessionError> {
    var open := EntryMatches(q.resources.reservations, h.intent(q.entry), Open);
    if !ExitRequestValid(h, q) || open == [] then Err(ExitLineage)
    else if || !policy.Contains(q.entry.tradeDate)
            || !context.Contains(q.entry.tradeDate)
            || q.entry.configSha != policy.sha
    then Err(PolicyMismatch)
    else
      var quantity := open[0].exitQuantity;
      var reasons := ExitReasons(q, quantity, policy, context);
      if reasons != [] then Ok(NotReady(reasons))
      else
        var market := q.market;
        Ok(Ready(q.entry.(requestSha := q.sha, leg := Exit, action := Sell, quantity := quantity,
                          limitPrice := ExitLimit(market, policy),
                          createdAt := market.observedAt,
                          expiresAt := market.observedAt + policy.timeInForceSeconds * SECOND,
                          reservedCash := 0.0, reservedExit := quantity,
                          ledgerSha := h.ledger(q.resources), parent := Some(h.intent(q.entry)))))
  }

  // ----- A READY plan is executable -----

  /** The order's reserved cash is its whole quantity at its limit price, fee included. */
  predicate Covered(costs: CostPolicy, i: Intent) {
    i.leg == Entry ==> i.reservedCash == EntryReserve(costs, i.limitPrice, i.quantity)
  }

  lemma ReservePositive(costs: CostPolicy, price: real, quantity: nat)
    requires costs.Valid() && price > 0.0 && quantity >= 1
    ensures EntryReserve(costs, price, quantity) > 0.0
  {
    assert Cost(price, quantity) > 0.0;
    assert costs.BuyFactor() >= 1.0;
    assert Cost(price, quantity) * costs.BuyFactor() > 0.0;
  }

  lemma OffsetNatural(tick: real, ticks: nat)
    requires tick > 0.0
    ensures tick * ticks as real >= 0.0
  {}

  /** A READY entry plan is a valid order, fully covered by the cash it reserves, and the ledger it
      was planned against accepts it unless an order with the same digest is already reserved. */
  lemma ReadyEntryReserves(h: Digests, q: Request, policy: Policy, arbitration: ArbitrationPolicy,
                           context: ContextPolicy, gate: GatePolicy)
    requires q.Valid() && policy.Valid()
    requires PlanOrder(h, q, policy, arbitration, context, gate).Ok? && PlanOrder(h, q, policy, arbitration, context, gate).value.Ready?
    ensures var i := PlanOrder(h, q, policy, arbitration, context, gate).value.intent;
            && i.Valid() && i.leg == Entry && Covered(q.costs, i) && i.quantity == policy.orderQuantity
            && (ReserveEntry(h, q.resources, i).Ok? <==> !Keyed(q.resources.reservations, h.intent(i)))
            && i.reservedCash + q.risk.cashReserve <= q.resources.cash
  {
    hide Cost, Scaled, EntryReserve, Insert;
    var i := PlanOrder(h, q, policy, arbitration, context, gate).value.intent;
    var ps := q.resources.positions;
    OffsetNatural(q.market.tick, policy.offsetTicks);
    ReservePositive(q.costs, i.limitPrice, i.quantity);
    NoReasons(q, policy, context);
    EnoughShares(ps, q.symbol, i.quantity);
  }

  lemma NoReasons(q: Request, policy: Policy, context: ContextPolicy)
    requires EntryReasons(q, policy, context) == []
    ensures HasPosition(q.resources.positions, q.symbol)
    ensures Available(q.resources.positions, q.symbol) >= policy.orderQuantity
    ensures q.resources.cash - EntryReserve(q.costs, EntryLimit(q.market, policy), policy.orderQuantity) >= q.risk.cashReserve
    ensures EntryLimit(q.market, policy) <= q.market.ceiling
  {
    hide Cost, Scaled, EntryReserve, Available, HasPosition;
  }

  lemma EnoughShares(ps: seq<Position>, symbol: Ident, quantity: nat)
    requires Ascending(ps) && (forall i :: 0 <= i < |ps| ==> ps[i].available >= 0)
    requires HasPosition(ps, symbol) && Available(ps, symbol) >= quantity
    ensures Shift(ps, symbol, 0 - quantity).Ok?
  {
    var moved := Moved(ps, symbol, 0 - quantity);
    forall i | 0 <= i < |ps| ensures moved[i].available >= 0 {
      if ps[i].symbol == symbol { AvailableAt(ps, i); }
    }
  }

  /** Whatever fills an accepted history holds, they never cost more than the reserved cash. */
  lemma ReserveCoversFills(h: Digests, costs: CostPolicy, i: Intent, events: seq<Event>)
    requires costs.Valid() && i.Valid() && i.leg == Entry && Covered(costs, i)
    requires AllValid(events) && Reduce(h, i, events).Ok?
    ensures var s := Reduce(h, i, events).value; EntryCost(costs, s.average, s.filled) <= i.reservedCash
  {
    var s := Reduce(h, i, events).value;
    AcceptedHistory(h, i, events);
    hide Reduce, EvidenceValue, EvidenceQuantity;
    var value := Value(s.average, s.filled);
    CostMonotone(i.limitPrice, s.filled, i.quantity);
    assert value <= Cost(i.limitPrice, i.quantity);
    ScaledMonotone(value, Cost(i.limitPrice, i.quantity), costs.BuyFactor());
  }

  lemma CostMonotone(price: real, n: nat, m: nat)
    requires price > 0.0 && n <= m
    ensures Cost(price, n) <= Cost(price, m)
  {
    assert price * m as real - price * n as real == price * (m - n) as real;
  }

  lemma ScaledMonotone(a: real, b: real, factor: real)
    requires a <= b && factor >= 0.0
    ensures Scaled(a, factor) <= Scaled(b, factor)
  {
    assert Scaled(b, factor) - Scaled(a, factor) == (b - a) * factor;
  }

  /** A READY exit plan is a valid order for exactly the open quantity, and the ledger it was planned
      against accepts it. */
  lemma ReadyExitReserves(h: Digests, q: ExitRequest, policy: Policy, context: ContextPolicy)
    requires q.entry.Valid() && q.market.Valid() && q.resources.Valid() && policy.Valid()
    requires PlanExit(h, q, policy, context).Ok? && PlanExit(h, q, policy, context).value.Ready?
    ensures var i := PlanExit(h, q, policy, context).value.intent;
            && i.Valid() && i.leg == Exit && i.parent == Some(h.intent(q.entry))
            && ReserveExit(h, q.resources, i).Ok?
            && Keyed(q.resources.reservations, h.intent(q.entry))
  {
    hide HasPosition, Replace, EntryMatches;
    var sha := h.intent(q.entry);
    var open := EntryMatches(q.resources.reservations, sha, Open);
    EntryMatchFacts(q.resources.reservations, sha, Open);
    assert open[0] in open;
    var i := PlanExit(h, q, policy, context).value.intent;
    OffsetNatural(q.market.tick, policy.offsetTicks);
    NoExitReasons(q, open[0].exitQuantity, policy, context);
  }

  lemma NoExitReasons(q: ExitRequest, quantity: nat, policy: Policy, context: ContextPolicy)
    requires ExitReasons(q, quantity, policy, context) == []
    ensures q.state.status.Terminal() && quantity >= 1
    ensures q.entry.decisionAt + q.entry.horizonSeconds * SECOND <= q.market.observedAt
    ensures ExitLimit(q.market, policy) >= q.market.floor
  {}
}
