/** What an accepted quote does: the prices and dates of its fills, and whom it must fill or close. */
module QuoteExecution {
  import opened Prelude
  import opened PaperModel
  import opened OrderReducer
  import opened SessionLog
  import opened Planner
  import opened Matching
  import opened PaperSession
  import opened SessionSafety
  import opened SessionGuards
  import opened QuoteAllocation
  import opened QuotePriority

  // ----- Prices -----

  function PaidBy(op: Operation, symbol: Ident, action: Action): real {
    if op.Report? && op.event.fill.Some? && op.event.fill.value.symbol == symbol && op.event.fill.value.action == action
    then op.event.fill.value.price * op.event.fill.value.filled as real else 0.0
  }

  /** The money a log's fills of one symbol and side exchange, before fees. */
  function Paid(ops: seq<Operation>, symbol: Ident, action: Action): real {
    if ops == [] then 0.0 else Paid(ops[..|ops| - 1], symbol, action) + PaidBy(ops[|ops| - 1], symbol, action)
  }

  /** An operation a quote may append: an event dated by the quote; if a fill, at the displayed price. */
  predicate ByQuote(market: Market, op: Operation) {
    && op.Report? && op.event.occurredAt == market.observedAt
    && (op.event.fill.Some? ==>
          var f := op.event.fill.value;
          && f.symbol == market.symbol && f.observedAt == market.quoteReceivedAt
          && f.stream == market.stream && f.sequence == market.sequence && f.source == market.source
          && f.price == (if f.action == Buy then market.askPrice else market.bidPrice))
  }

  ghost predicate AddsByQuote(market: Market, before: seq<Operation>, ops: seq<Operation>) {
    |before| <= |ops| && ops[..|before|] == before && forall k :: |before| <= k < |ops| ==> ByQuote(market, ops[k])
  }

  lemma OfferOneAdds(h: Digests, policy: Policy, context: ContextPolicy, market: Market, a: Allocation, intent: Intent)
    requires policy.lotSize >= 1 && intent.Valid() && AllOpsValid(a.session.operations)
    requires OfferOne(h, policy, context, market, a, intent).Ok?
    ensures AddsByQuote(market, a.session.operations, OfferOne(h, policy, context, market, a, intent).value.session.operations)
  {
    hide Append, MatchQuote, EventsOf, Reduce, Eligible, AlreadyUsed, Intent.Valid, AllValid, AllOpsValid, Event.Valid;
    var events := EventsOf(a.session.operations, h.intent(intent));
    var budget := a.budgets.Of(intent.action);
    EventsValid(a.session.operations, h.intent(intent));
    if intent.symbol == market.symbol && intent.createdAt <= market.observedAt {
      var m := MatchQuote(h, intent, events, market, policy, context, budget).value;
      if m.Some? {
        MatchedEvent(h, intent, events, market, policy, context, budget);
        MatchedFill(h, intent, events, market, policy, context, budget);
        SameDay(h, a.session, Report(m.value));
      }
    }
  }

  lemma {:induction false} OfferAdds(h: Digests, policy: Policy, context: ContextPolicy, market: Market, a: Allocation, orders: seq<Intent>)
    requires policy.lotSize >= 1 && (forall i :: i in orders ==> i.Valid()) && AllOpsValid(a.session.operations)
    requires OfferAll(h, policy, context, market, a, orders).Ok?
    ensures AddsByQuote(market, a.session.operations, OfferAll(h, policy, context, market, a, orders).value.session.operations)
  {
    hide OfferOne, Intent.Valid, AllOpsValid, Spent, ByQuote, Shas;
    if orders != [] {
      var k := |orders| - 1;
      OfferAdds(h, policy, context, market, a, orders[..k]);
      var before := OfferAll(h, policy, context, market, a, orders[..k]).value;
      assert orders[..0] == [];
      NoOrders(h, policy, context, market, a);
      OfferSpends(h, policy, context, market, a, orders, 0, k);
      SpentValid(h, market, a, before, Shas(h, orders[0..k]));
      OfferOneAdds(h, policy, context, market, before, orders[k]);
    }
  }

  /** The price of one side, times a number of shares. */
  function Worth(market: Market, action: Action, shares: int): real {
    (if action == Buy then market.askPrice else market.bidPrice) * shares as real
  }

  lemma WorthAdds(market: Market, action: Action, a: int, b: int)
    ensures Worth(market, action, a + b) == Worth(market, action, a) + Worth(market, action, b)
    ensures Worth(market, action, 0) == 0.0
  {}

  lemma OnePaid(market: Market, op: Operation, symbol: Ident, action: Action)
    requires ByQuote(market, op)
    ensures PaidBy(op, symbol, action) == Worth(market, action, TradedBy(op, symbol, action))
    ensures symbol != market.symbol ==> PaidBy(op, symbol, action) == 0.0
  {}

  lemma {:induction false} PaidAtQuote(market: Market, before: seq<Operation>, ops: seq<Operation>, symbol: Ident, action: Action)
    requires AddsByQuote(market, before, ops)
    ensures Paid(ops, symbol, action) - Paid(before, symbol, action)
            == Worth(market, action, Traded(ops, symbol, action) - Traded(before, symbol, action))
    ensures symbol != market.symbol ==> Paid(ops, symbol, action) == Paid(before, symbol, action)
    decreases |ops|
  {
    hide Worth, PaidBy, TradedBy, ByQuote;
    if |ops| == |before| {
      assert ops == before;
      WorthAdds(market, action, 0, 0);
    } else {
      var front, last := ops[..|ops| - 1], ops[|ops| - 1];
      PaidAtQuote(market, before, front, symbol, action);
      assert ByQuote(market, last);
      OnePaid(market, last, symbol, action);
      WorthAdds(market, action, Traded(front, symbol, action) - Traded(before, symbol, action), TradedBy(last, symbol, action));
    }
  }

  /** What an accepted quote adds to the log. */
  lemma {:induction false} QuoteAdds(h: Digests, cfg: Configuration, s: Session, market: Market)
    requires cfg.Valid() && Sound(h, s) && ProcessQuote(h, cfg, s, market).Ok?
    ensures AddsByQuote(market, s.operations, ProcessQuote(h, cfg, s, market).value.operations)
  {
    hide OfferAll, SortOrders, IntentsOf, LocalDay, ReplayAll, AllOpsValid, Finish, Intent.Valid, ByQuote;
    var n := ProcessQuote(h, cfg, s, market).value;
    if n != s {
      var a := Allocation(s, QuoteBudgets(Cursor(s.markets, market.symbol), market));
      var orders := SortedOrders(h, cfg, s);
      OfferAdds(h, cfg.policy.value, cfg.context, market, a, orders);
      var last := OfferAll(h, cfg.policy.value, cfg.context, market, a, orders).value;
      FinishIdle(h, s, last.session.(markets := PlaceMarket(s.markets, market)));
    }
  }

  /** What one side of a quote may trade, in its own figures: its size, or only the increase over the
      previous quote of the symbol at the same price. */
  function Offered(was: Option<(real, nat)>, price: real, size: nat): nat {
    if was.Some? && was.value.0 == price then (if size > was.value.1 then size - was.value.1 else 0) else size
  }

  lemma BudgetMeans(previous: Option<Market>, market: Market)
    ensures SideBudget(previous, market, Buy)
            == Offered(if previous.Some? then Some((previous.value.askPrice, previous.value.askQuantity)) else None, market.askPrice, market.askQuantity)
    ensures SideBudget(previous, market, Sell)
            == Offered(if previous.Some? then Some((previous.value.bidPrice, previous.value.bidQuantity)) else None, market.bidPrice, market.bidQuantity)
  {}

  /** Every accepted quote: its fills exchange the ask for each share bought and the bid for each share
      sold, of its own symbol only, and take no more of a side than is newly displayed there. */
  lemma {:induction false} QuotePaysDisplayedPrices(h: Digests, cfg: Configuration, s: Session, market: Market)
    requires cfg.Valid() && Sound(h, s) && ProcessQuote(h, cfg, s, market).Ok?
    ensures var n, previous := ProcessQuote(h, cfg, s, market).value, Cursor(s.markets, market.symbol);
            var bought := Traded(n.operations, market.symbol, Buy) - Traded(s.operations, market.symbol, Buy);
            var sold := Traded(n.operations, market.symbol, Sell) - Traded(s.operations, market.symbol, Sell);
            && Paid(n.operations, market.symbol, Buy) == Paid(s.operations, market.symbol, Buy) + market.askPrice * bought as real
            && Paid(n.operations, market.symbol, Sell) == Paid(s.operations, market.symbol, Sell) + market.bidPrice * sold as real
            && (forall symbol, action :: symbol != market.symbol ==> Paid(n.operations, symbol, action) == Paid(s.operations, symbol, action))
            && 0 <= bought <= Offered(if previous.Some? then Some((previous.value.askPrice, previous.value.askQuantity)) else None, market.askPrice, market.askQuantity)
            && 0 <= sold <= Offered(if previous.Some? then Some((previous.value.bidPrice, previous.value.bidQuantity)) else None, market.bidPrice, market.bidQuantity)
  {
    hide ProcessQuote, Paid, Traded, AddsByQuote, Cursor, Sound, SideBudget, Offered;
    var n := ProcessQuote(h, cfg, s, market).value;
    QuoteAdds(h, cfg, s, market);
    BoughtAndSold(market, s.operations, n.operations);
    forall symbol, action | symbol != market.symbol ensures Paid(n.operations, symbol, action) == Paid(s.operations, symbol, action) {
      PaidAtQuote(market, s.operations, n.operations, symbol, action);
    }
    BudgetMeans(Cursor(s.markets, market.symbol), market);
    if n != s { QuoteSpends(h, cfg, s, market); } else { NothingOffered(Cursor(s.markets, market.symbol), market); }
  }

  lemma NothingOffered(previous: Option<Market>, market: Market)
    ensures SideBudget(previous, market, Buy) >= 0 && SideBudget(previous, market, Sell) >= 0
  {}

  lemma BoughtAndSold(market: Market, before: seq<Operation>, ops: seq<Operation>)
    requires AddsByQuote(market, before, ops)
    ensures var bought := Traded(ops, market.symbol, Buy) - Traded(before, market.symbol, Buy);
            bought >= 0 && Paid(ops, market.symbol, Buy) == Paid(before, market.symbol, Buy) + market.askPrice * bought as real
    ensures var sold := Traded(ops, market.symbol, Sell) - Traded(before, market.symbol, Sell);
            sold >= 0 && Paid(ops, market.symbol, Sell) == Paid(before, market.symbol, Sell) + market.bidPrice * sold as real
  {
    hide Paid, Traded, AddsByQuote;
    PaidAtQuote(market, before, ops, market.symbol, Buy);
    PaidAtQuote(market, before, ops, market.symbol, Sell);
    TradedGrows(market, before, ops, market.symbol, Buy);
    TradedGrows(market, before, ops, market.symbol, Sell);
  }

  lemma {:induction false} TradedGrows(market: Market, before: seq<Operation>, ops: seq<Operation>, symbol: Ident, action: Action)
    requires AddsByQuote(market, before, ops)
    ensures Traded(before, symbol, action) <= Traded(ops, symbol, action)
    decreases |ops|
  {
    if |ops| == |before| {
      assert ops == before;
    } else {
      TradedGrows(market, before, ops[..|ops| - 1], symbol, action);
    }
  }

  // ----- Whom a quote must serve -----

  /** Where one order of the log stands in the allocation of a quote. */
  lemma {:induction false} Served(h: Digests, cfg: Configuration, s: Session, market: Market, x: Intent)
    returns (at: Allocation, next: Allocation, last: Allocation)
    requires cfg.Valid() && Sound(h, s) && cfg.policy.Some? && ProcessQuote(h, cfg, s, market).Ok? && Order(x) in s.operations
    requires Cursor(s.markets, market.symbol) != Some(market)
    ensures AllOpsValid(at.session.operations) && x.Valid()
    ensures EventsOf(at.session.operations, h.intent(x)) == EventsOf(s.operations, h.intent(x))
    ensures OfferOne(h, cfg.policy.value, cfg.context, market, at, x) == Ok(next)
    ensures EventsOf(ProcessQuote(h, cfg, s, market).value.operations, h.intent(x)) == EventsOf(next.session.operations, h.intent(x))
    ensures last.session.operations == ProcessQuote(h, cfg, s, market).value.operations
    ensures last.budgets.Of(x.action) <= next.budgets.Of(x.action)
    ensures Traded(last.session.operations, market.symbol, x.action) + last.budgets.Of(x.action)
            == Traded(s.operations, market.symbol, x.action) + SideBudget(Cursor(s.markets, market.symbol), market, x.action)
  {
    hide OfferAll, OfferOne, SortOrders, IntentsOf, LocalDay, ReplayAll, AllOpsValid, EventsOf, Ranked, QuotePriority.Distinct, Precedes, Finish, Intent.Valid, Traded, Shas;
    var policy, context := cfg.policy.value, cfg.context;
    var a := Allocation(s, QuoteBudgets(Cursor(s.markets, market.symbol), market));
    var orders := SortedOrders(h, cfg, s);
    assert ReplayAll(h, s.Ground(), s.operations).Ok?;
    LogDistinct(h, s.Ground(), s.operations);
    SortRanks(h, IntentsOf(s.operations));
    var k :| 0 <= k < |orders| && orders[k] == x;
    last := OfferAll(h, policy, context, market, a, orders).value;
    FinishIdle(h, s, last.session.(markets := PlaceMarket(s.markets, market)));
    StepAt(h, policy, context, market, a, orders, k);
    at := OfferAll(h, policy, context, market, a, orders[..k]).value;
    next := OfferAll(h, policy, context, market, a, orders[..k + 1]).value;
    BudgetShrinks(h, policy, context, market, a, orders, k + 1, |orders|, x.action);
    assert orders[..|orders|] == orders && orders[..0] == [];
    NoOrders(h, policy, context, market, a);
    OfferSpends(h, policy, context, market, a, orders, 0, |orders|);
  }

  /** Every eligible order that has not traded on a new quote's identity ends complete, or less than one
      lot of what its side newly displays is left over. */
  lemma {:induction false} QuoteServesEligible(h: Digests, cfg: Configuration, s: Session, market: Market, x: Intent)
    requires cfg.Valid() && Healthy(h, cfg, s) && cfg.policy.Some? && ProcessQuote(h, cfg, s, market).Ok? && Order(x) in s.operations
    requires Cursor(s.markets, market.symbol) != Some(market)
    requires Eligible(h, x, EventsOf(s.operations, h.intent(x)), market, cfg.policy.value, cfg.context)
    requires !AlreadyUsed(EventsOf(s.operations, h.intent(x)), market)
    ensures var n := ProcessQuote(h, cfg, s, market).value;
            var taken := Traded(n.operations, market.symbol, x.action) - Traded(s.operations, market.symbol, x.action);
            Complete(h, n, x) || SideBudget(Cursor(s.markets, market.symbol), market, x.action) - taken < cfg.policy.value.lotSize
  {
    hide OfferOne, ProcessQuote, AllOpsValid, EventsOf, Reduce, AlreadyUsed, Intent.Valid, Traded, Cursor, SideBudget, Sound, AllPlanned, WholeLots;
    var at, next, last := Served(h, cfg, s, market, x);
    EligibleReduces(h, x, EventsOf(s.operations, h.intent(x)), market, cfg.policy.value, cfg.context);
    EverythingInLots(h, cfg, s, x);
    hide Eligible;
    EligibleOutcome(h, cfg.policy.value, cfg.context, market, at, x);
  }

  /** The last event of an order's history. */
  predicate EndsWith(events: seq<Event>, more: seq<Event>, kind: Status) {
    |more| == |events| + 1 && more[..|events|] == events && more[|events|].kind == kind
  }

  /** A new quote closes what can no longer trade: of the live orders of its symbol, those past their
      deadline end EXPIRED, the others end CANCELLED when the market does not trade, and no other event
      than a fill reaches the rest. */
  lemma {:induction false} QuoteCloses(h: Digests, cfg: Configuration, s: Session, market: Market, x: Intent)
    requires cfg.Valid() && Sound(h, s) && cfg.policy.Some? && ProcessQuote(h, cfg, s, market).Ok? && Order(x) in s.operations
    requires Cursor(s.markets, market.symbol) != Some(market)
    requires x.symbol == market.symbol && x.createdAt <= market.observedAt
    requires Reduce(h, x, EventsOf(s.operations, h.intent(x))).Ok? && !Reduce(h, x, EventsOf(s.operations, h.intent(x))).value.status.Terminal()
    ensures var n := ProcessQuote(h, cfg, s, market).value;
            var events, more := EventsOf(s.operations, h.intent(x)), EventsOf(n.operations, h.intent(x));
            && (market.observedAt >= x.expiresAt <==> EndsWith(events, more, Expired))
            && (market.observedAt < x.expiresAt && market.status !in cfg.context.tradable <==> EndsWith(events, more, Cancelled))
            && (more != events && !EndsWith(events, more, Expired) && !EndsWith(events, more, Cancelled) ==>
                  |more| == |events| + 1 && more[..|events|] == events && more[|events|].fill.Some?)
  {
    hide OfferOne, ProcessQuote, AllOpsValid, EventsOf, Reduce, AlreadyUsed, Intent.Valid, Traded, Cursor, SideBudget, Sound, MatchQuote;
    var at, next, last := Served(h, cfg, s, market, x);
    OfferOutcome(h, cfg.policy.value, cfg.context, market, at, x);
    MatchedClosing(h, x, EventsOf(s.operations, h.intent(x)), market, cfg.policy.value, cfg.context, at.budgets.Of(x.action));
  }
}
