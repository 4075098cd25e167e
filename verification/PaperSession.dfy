/** A paper session and its transitions: submit, quote, clock, cancel. */
module PaperSession {
  import opened Prelude
  import opened PaperModel
  import opened OrderReducer
  import opened LedgerParts
  import opened SessionLog
  import opened Planner
  import opened Matching

  datatype Session = Session(account: Account, costs: CostPolicy, ledger: Ledger, revision: nat,
                             operations: seq<Operation>, markets: seq<Market>)
  {
    function Ground(): Base { Base(account, costs, ledger.tradeDate) }
  }

  predicate MarketsOrdered(markets: seq<Market>) {
    forall i, j :: 0 <= i < j < |markets| ==> markets[i].symbol < markets[j].symbol
  }

  /** The session validator: re-derive the ledger from the log and compare. */
  function Reconcile(h: Digests, s: Session): Result<Session, SessionError> {
    if !s.costs.Contains(s.ledger.tradeDate) then Err(CostsOutsideDate)
    else
      var r :- ReplayAll(h, s.Ground(), s.operations);
      if r.ledger != s.ledger then Err(LedgerMismatch)
      else if !MarketsOrdered(s.markets) then Err(MarketsUnordered)
      else Ok(s)
  }

  /** Extend the log by one operation, moving the ledger incrementally. */
  function Append(h: Digests, s: Session, op: Operation): Result<Session, SessionError> {
    match op
    case Order(intent) =>
      var ledger :- LiftLedger(Reserve(h, s.ledger, intent));
      Ok(s.(ledger := ledger, operations := s.operations + [op]))
    case Report(e) =>
      var order := FindOrder(h, s.operations, e.intentSha);
      if order.None? then Err(NoIntent)
      else
        var state :- LiftReduce(Reduce(h, order.value, EventsOf(s.operations, e.intentSha) + [e]));
        var ledger :- if state.status.Terminal() then LiftLedger(Settle(h, s.ledger, order.value, state, s.costs)) else Ok(s.ledger);
        Ok(s.(ledger := ledger, operations := s.operations + [op]))
  }

  function Finish(h: Digests, previous: Session, current: Session): Result<Session, SessionError> {
    if current == previous then Ok(previous)
    else Reconcile(h, current.(revision := previous.revision + 1))
  }

  // ----- Commands -----

  datatype Lineage = Lineage(sha: Digest, baselineVersion: Ident, contextSha: Digest)

  datatype Readiness = Readiness(paper: bool, promotion: Option<Promotion>, tradeDate: Day,
                                 previousSession: Day, lineage: Option<Lineage>)

  /** The configuration as resolved for the session's trade date. */
  datatype Configuration = Configuration(policy: Option<Policy>, gate: Option<GatePolicy>,
                                         arbitration: Option<ArbitrationPolicy>, context: ContextPolicy,
                                         lineage: Lineage, utcOffsetSeconds: int)
  {
    predicate Valid() { policy.Some? ==> policy.value.Valid() }
  }

  function OpenAccepted(h: Digests, s: Session, intent: Intent): Result<Session, SessionError> {
    var reserved :- Append(h, s, Order(intent));
    var accepted :- LifecycleEvent(h, intent, [], Accepted, intent.createdAt, None, None);
    var live :- Append(h, reserved, Report(accepted));
    Finish(h, s, live)
  }

  function SubmitEntry(h: Digests, cfg: Configuration, s: Session, q: Request, ready: Readiness): Result<Session, SessionError> {
    if !ready.paper then Ok(s)
    else if ready.lineage.None? then Err(NoLineage)
    else if || ready.promotion != Some(q.promotion)
            || ready.tradeDate != q.tradeDate
            || ready.previousSession >= ready.tradeDate
            || q.account != s.account
            || q.costs != s.costs
            || ready.tradeDate != s.ledger.tradeDate
            || ready.lineage.value != cfg.lineage
            || q.baselineVersion != ready.lineage.value.baselineVersion
            || q.contextSha != ready.lineage.value.contextSha
    then Err(LineageMismatch)
    else if exists i :: 0 <= i < |s.operations| && s.operations[i].Order?
                        && s.operations[i].intent.leg == Entry && s.operations[i].intent.arbitration == q.arbitration
    then Ok(s)
    else if q.resources != s.ledger then Err(StaleResources)
    else if cfg.policy.None? || cfg.gate.None? || cfg.arbitration.None? then Err(Blocked([NoEffectivePolicy]))
    else
      var plan :- PlanOrder(h, q, cfg.policy.value, cfg.arbitration.value, cfg.context, cfg.gate.value);
      if plan.NotReady? then Err(Blocked(plan.reasons)) else OpenAccepted(h, s, plan.intent)
  }

  function SubmitExit(h: Digests, cfg: Configuration, s: Session, entry: Intent, market: Market, requestSha: Digest): Result<Session, SessionError> {
    if Order(entry) !in s.operations then Err(UnknownOrder)
    else if EntryMatches(s.ledger.reservations, h.intent(entry), Open) == [] then Ok(s)
    else if cfg.policy.None? then Err(Blocked([NoEffectivePolicy]))
    else
      var state :- LiftReduce(Reduce(h, entry, EventsOf(s.operations, h.intent(entry))));
      var plan :- PlanExit(h, ExitRequest(requestSha, entry, state, market, s.ledger), cfg.policy.value, cfg.context);
      if plan.NotReady? then Err(Blocked(plan.reasons)) else OpenAccepted(h, s, plan.intent)
  }

  /** Expire the overdue orders of a list, in turn. */
  function ExpireAll(h: Digests, s: Session, orders: seq<Intent>, at: Instant): Result<Session, SessionError> {
    if orders == [] then Ok(s)
    else
      var result :- ExpireAll(h, s, orders[..|orders| - 1], at);
      var intent := orders[|orders| - 1];
      var events := EventsOf(result.operations, h.intent(intent));
      var state :- LiftReduce(Reduce(h, intent, events));
      if state.status.Terminal() || at < intent.expiresAt then Ok(result)
      else
        var e :- LifecycleEvent(h, intent, events, Expired, at, Some("TIME_IN_FORCE"), None);
        Append(h, result, Report(e))
  }

  function AdvanceClock(h: Digests, s: Session, at: Instant): Result<Session, SessionError> {
    var result :- ExpireAll(h, s, IntentsOf(s.operations), at);
    Finish(h, s, result)
  }

  function CancelOrder(h: Digests, s: Session, intent: Intent, at: Instant, reason: string): Result<Session, SessionError> {
    if Order(intent) !in s.operations then Err(UnknownOrder)
    else
      var events := EventsOf(s.operations, h.intent(intent));
      var state :- LiftReduce(Reduce(h, intent, events));
      if state.status.Terminal() then Ok(s)
      else
        var e :- LifecycleEvent(h, intent, events, Cancelled, at, Some(reason), None);
        var result :- Append(h, s, Report(e));
        Finish(h, s, result)
  }

  // ----- Quotes -----

  function Cursor(markets: seq<Market>, symbol: Ident): Option<Market> {
    if markets == [] then None
    else if markets[0].symbol == symbol then Some(markets[0])
    else Cursor(markets[1..], symbol)
  }

  predicate CursorConflicts(previous: Market, market: Market) {
    || (previous.stream == market.stream && previous.sequence == market.sequence)
    || market.quoteReceivedAt < previous.quoteReceivedAt
    || market.observedAt < previous.observedAt
    || (market.stream == previous.stream && market.sequence <= previous.sequence)
  }

  datatype Budgets = Budgets(buy: int, sell: int)
  {
    function Of(action: Action): int { if action == Buy then buy else sell }

    function Spend(action: Action, quantity: nat): Budgets {
      if action == Buy then this.(buy := buy - quantity) else this.(sell := sell - quantity)
    }
  }

  /** What one side of a quote may trade: all of it at a new price, only the increase at an old one. */
  function SideBudget(previous: Option<Market>, market: Market, action: Action): int {
    if previous.Some? && SidePrice(previous.value, action) == SidePrice(market, action)
    then Max(0, SideQuantity(market, action) - SideQuantity(previous.value, action))
    else SideQuantity(market, action)
  }

  function QuoteBudgets(previous: Option<Market>, market: Market): Budgets {
    Budgets(SideBudget(previous, market, Buy), SideBudget(previous, market, Sell))
  }

  /** Execution order: priority, then age, then digest. */
  predicate Precedes(h: Digests, a: Intent, b: Intent) {
    || a.priority < b.priority
    || (a.priority == b.priority && a.createdAt < b.createdAt)
    || (a.priority == b.priority && a.createdAt == b.createdAt && h.intent(a) <= h.intent(b))
  }

  function PlaceOrder(h: Digests, sorted: seq<Intent>, x: Intent): seq<Intent> {
    if sorted == [] then [x]
    else if Precedes(h, sorted[0], x) then [sorted[0]] + PlaceOrder(h, sorted[1..], x)
    else [x] + sorted
  }

  function SortOrders(h: Digests, orders: seq<Intent>): seq<Intent> {
    if orders == [] then [] else PlaceOrder(h, SortOrders(h, orders[..|orders| - 1]), orders[|orders| - 1])
  }

  datatype Allocation = Allocation(session: Session, budgets: Budgets)

  /** The quote offered to one order, if it concerns it. */
  function OfferOne(h: Digests, policy: Policy, context: ContextPolicy, market: Market, a: Allocation, intent: Intent): Result<Allocation, SessionError>
    requires policy.lotSize >= 1
  {
    if intent.symbol != market.symbol || intent.createdAt > market.observedAt then Ok(a)
    else
      var event :- MatchQuote(h, intent, EventsOf(a.session.operations, h.intent(intent)), market, policy, context,
                              a.budgets.Of(intent.action));
      if event.None? then Ok(a)
      else
        var session :- Append(h, a.session, Report(event.value));
        Ok(Allocation(session, a.budgets.Spend(intent.action, FillQuantity(event.value))))
  }

  function OfferAll(h: Digests, policy: Policy, context: ContextPolicy, market: Market, a: Allocation, orders: seq<Intent>): Result<Allocation, SessionError>
    requires policy.lotSize >= 1
  {
    if orders == [] then Ok(a)
    else
      var before :- OfferAll(h, policy, context, market, a, orders[..|orders| - 1]);
      OfferOne(h, policy, context, market, before, orders[|orders| - 1])
  }

  function PlaceMarket(markets: seq<Market>, market: Market): seq<Market> {
    if markets == [] then [market]
    else if markets[0].symbol == market.symbol then PlaceMarket(markets[1..], market)
    else if markets[0].symbol < market.symbol then [markets[0]] + PlaceMarket(markets[1..], market)
    else [market] + markets
  }

  function LocalDay(at: Instant, utcOffsetSeconds: int): Day {
    (at + utcOffsetSeconds * SECOND) / (86400 * SECOND)
  }

  function ProcessQuote(h: Digests, cfg: Configuration, s: Session, market: Market): Result<Session, SessionError>
    requires cfg.Valid()
  {
    var previous := Cursor(s.markets, market.symbol);
    if LocalDay(market.observedAt, cfg.utcOffsetSeconds) != s.ledger.tradeDate then Err(QuoteDate)
    else if previous == Some(market) then Ok(s)
    else if previous.Some? && CursorConflicts(previous.value, market) then Err(CursorConflict)
    else if cfg.policy.None? then Ok(s)
    else
      var result :- OfferAll(h, cfg.policy.value, cfg.context, market,
                             Allocation(s, QuoteBudgets(previous, market)),
                             SortOrders(h, IntentsOf(s.operations)));
      Finish(h, s, result.session.(markets := PlaceMarket(s.markets, market)))
  }

  // ----- Loops -----

  lemma {:induction false} OfferErrorSticks(h: Digests, policy: Policy, context: ContextPolicy, market: Market, a: Allocation, orders: seq<Intent>, k: nat)
    requires policy.lotSize >= 1 && k <= |orders| && OfferAll(h, policy, context, market, a, orders[..k]).Err?
    ensures OfferAll(h, policy, context, market, a, orders) == OfferAll(h, policy, context, market, a, orders[..k])
  {
    if k < |orders| {
      assert orders[..|orders| - 1][..k] == orders[..k];
      OfferErrorSticks(h, policy, context, market, a, orders[..|orders| - 1], k);
    } else {
      assert orders[..k] == orders;
    }
  }

  /** The source's allocation loop over the sorted orders, spending the two budgets as it goes. */
  method OfferLoop(h: Digests, policy: Policy, context: ContextPolicy, market: Market, session: Session, orders: seq<Intent>, start: Budgets)
    returns (r: Result<Allocation, SessionError>)
    requires policy.lotSize >= 1
    ensures r == OfferAll(h, policy, context, market, Allocation(session, start), orders)
  {
    var result := session;
    var budgets := start;
    for i := 0 to |orders|
      invariant OfferAll(h, policy, context, market, Allocation(session, start), orders[..i]) == Ok(Allocation(result, budgets))
    {
      var intent := orders[i];
      assert orders[..i + 1][..i] == orders[..i];
      if intent.symbol != market.symbol || intent.createdAt > market.observedAt {
        continue;
      }
      var event := MatchQuote(h, intent, EventsOf(result.operations, h.intent(intent)), market, policy, context,
                              budgets.Of(intent.action));
      if event.Err? {
        OfferErrorSticks(h, policy, context, market, Allocation(session, start), orders, i + 1);
        return Err(event.error);
      }
      if event.value.Some? {
        var next := Append(h, result, Report(event.value.value));
        if next.Err? {
          OfferErrorSticks(h, policy, context, market, Allocation(session, start), orders, i + 1);
          return Err(next.error);
        }
        result := next.value;
        budgets := budgets.Spend(intent.action, FillQuantity(event.value.value));
      }
    }
    assert orders[..|orders|] == orders;
    r := Ok(Allocation(result, budgets));
  }

  // ----- Commands as one step -----

  datatype Command =
    | EntryCommand(request: Request, readiness: Readiness)
    | ExitCommand(entry: Intent, exitMarket: Market, requestSha: Digest)
    | QuoteCommand(market: Market)
    | ClockCommand(at: Instant)
    | CancelCommand(intent: Intent, cancelAt: Instant, reason: string)
  {
    predicate Valid() {
      match this
      case EntryCommand(q, _) => q.Valid()
      case ExitCommand(_, m, _) => m.Valid()
      case QuoteCommand(m) => m.Valid()
      case _ => true
    }
  }

  function Apply(h: Digests, cfg: Configuration, s: Session, c: Command): Result<Session, SessionError>
    requires cfg.Valid()
  {
    match c
    case EntryCommand(q, ready) => SubmitEntry(h, cfg, s, q, ready)
    case ExitCommand(entry, m, sha) => SubmitExit(h, cfg, s, entry, m, sha)
    case QuoteCommand(m) => ProcessQuote(h, cfg, s, m)
    case ClockCommand(at) => AdvanceClock(h, s, at)
    case CancelCommand(i, at, reason) => CancelOrder(h, s, i, at, reason)
  }

  /** A run of the consumer: a command that raises leaves the stored session alone. */
  function Run(h: Digests, cfg: Configuration, s: Session, commands: seq<Command>): Session
    requires cfg.Valid()
  {
    if commands == [] then s
    else
      var before := Run(h, cfg, s, commands[..|commands| - 1]);
      var after := Apply(h, cfg, before, commands[|commands| - 1]);
      if after.Ok? then after.value else before
  }
}
