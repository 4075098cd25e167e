/** The validator's liquidity guard, and what it leaves of the exception to strict priority. */
module QuoteLiquidity {
  import opened Prelude
  import opened PaperModel
  import opened OrderReducer
  import opened SessionLog
  import opened Planner
  import opened Matching
  import opened PaperSession
  import opened SessionSafety
  import opened SessionGuards
  import opened SessionHistory
  import opened QuoteAllocation
  import opened QuotePriority

  // ----- What a log has taken from one side of one quote -----

  function UsedBy(op: Operation, key: LiquidityKey): nat {
    if op.Report? && op.event.fill.Some?
       && LiquidityKey(op.event.fill.value.stream, op.event.fill.value.sequence, op.event.fill.value.symbol, op.event.fill.value.action) == key
    then op.event.fill.value.filled else 0
  }

  /** Shares a log has filled from one identity, symbol and side. */
  function Used(ops: seq<Operation>, key: LiquidityKey): nat {
    if ops == [] then 0 else Used(ops[..|ops| - 1], key) + UsedBy(ops[|ops| - 1], key)
  }

  lemma UsedMore(ops: seq<Operation>, op: Operation, key: LiquidityKey)
    ensures Used(ops + [op], key) == Used(ops, key) + UsedBy(op, key)
  {
    assert (ops + [op])[..|ops|] == ops;
  }

  lemma {:induction false} UsedPositive(ops: seq<Operation>, key: LiquidityKey, op: Operation)
    requires op in ops && UsedBy(op, key) > 0
    ensures Used(ops, key) > 0
  {
    var front := ops[..|ops| - 1];
    assert ops == front + [ops[|ops| - 1]];
    if op in front { UsedPositive(front, key, op); }
  }

  /** The table of one key matches a count of shares. */
  predicate Tallies(l: map<LiquidityKey, LiquidityUse>, key: LiquidityKey, used: nat) {
    (key in l <==> used > 0) && (key in l ==> l[key].used == used <= l[key].capacity)
  }

  lemma SpendTallies(l: map<LiquidityKey, LiquidityUse>, e: Event, key: LiquidityKey, used: nat)
    requires e.Valid() && SpendLiquidity(l, e.fill).Ok? && Tallies(l, key, used)
    ensures Tallies(SpendLiquidity(l, e.fill).value, key, used + UsedBy(Report(e), key))
  {}

  /** The guard's table is the log's own sum, within the capacity its first fill recorded. */
  lemma {:induction false} ReplayLiquidity(h: Digests, g: Base, ops: seq<Operation>, key: LiquidityKey)
    requires ReplayAll(h, g, ops).Ok? && AllOpsValid(ops)
    ensures Tallies(ReplayAll(h, g, ops).value.liquidity, key, Used(ops, key))
  {
    if ops != [] {
      hide Reduce, Settle, Reserve, SpendLiquidity, Tallies, Event.Valid, Intent.Valid;
      var front, last := ops[..|ops| - 1], ops[|ops| - 1];
      ReplayLiquidity(h, g, front, key);
      assert last.Valid();
      if last.Report? { SpendTallies(ReplayAll(h, g, front).value.liquidity, last.event, key, Used(front, key)); }
    }
  }

  /** The capacity recorded for a key never changes. */
  lemma {:induction false} CapacityStays(h: Digests, g: Base, ops: seq<Operation>, k: nat, key: LiquidityKey)
    requires ReplayAll(h, g, ops).Ok? && k <= |ops|
    ensures ReplayAll(h, g, ops[..k]).Ok?
    ensures key in ReplayAll(h, g, ops[..k]).value.liquidity ==>
              key in ReplayAll(h, g, ops).value.liquidity
              && ReplayAll(h, g, ops).value.liquidity[key].capacity == ReplayAll(h, g, ops[..k]).value.liquidity[key].capacity
  {
    hide Reduce, Settle, Reserve;
    if k == |ops| {
      assert ops[..k] == ops;
    } else {
      var front := ops[..|ops| - 1];
      assert front[..k] == ops[..k];
      CapacityStays(h, g, front, k, key);
    }
  }

  /** What the first fill of an identity recorded beyond what has been taken since. */
  function Spare(h: Digests, s: Session, key: LiquidityKey): int
    requires ReplayAll(h, s.Ground(), s.operations).Ok?
  {
    var l := ReplayAll(h, s.Ground(), s.operations).value.liquidity;
    if key in l then l[key].capacity - l[key].used else 0
  }

  // ----- A quote's fills all carry its identity -----

  function QuoteKey(m: Market, action: Action): LiquidityKey { LiquidityKey(m.stream, m.sequence, m.symbol, action) }

  lemma {:induction false} OfferOneKeyed(h: Digests, policy: Policy, context: ContextPolicy, market: Market, a: Allocation, intent: Intent, action: Action)
    requires policy.lotSize >= 1 && intent.Valid() && AllOpsValid(a.session.operations)
    requires OfferOne(h, policy, context, market, a, intent).Ok?
    ensures var n := OfferOne(h, policy, context, market, a, intent).value;
            Used(n.session.operations, QuoteKey(market, action)) - Used(a.session.operations, QuoteKey(market, action))
            == a.budgets.Of(action) - n.budgets.Of(action)
  {
    hide Append, MatchQuote, EventsOf, Reduce, Eligible, AlreadyUsed, Intent.Valid, AllValid, AllOpsValid, Used, Event.Valid;
    var events := EventsOf(a.session.operations, h.intent(intent));
    var budget := a.budgets.Of(intent.action);
    EventsValid(a.session.operations, h.intent(intent));
    if intent.symbol == market.symbol && intent.createdAt <= market.observedAt {
      var m := MatchQuote(h, intent, events, market, policy, context, budget).value;
      if m.Some? {
        MatchedFill(h, intent, events, market, policy, context, budget);
        SameDay(h, a.session, Report(m.value));
        UsedMore(a.session.operations, Report(m.value), QuoteKey(market, action));
      }
    }
  }

  lemma {:induction false} OfferKeyed(h: Digests, policy: Policy, context: ContextPolicy, market: Market, a: Allocation, orders: seq<Intent>, k: nat, action: Action)
    requires policy.lotSize >= 1 && k <= |orders| && (forall i :: i in orders ==> i.Valid()) && AllOpsValid(a.session.operations)
    requires OfferAll(h, policy, context, market, a, orders).Ok?
    ensures OfferAll(h, policy, context, market, a, orders[..k]).Ok?
    ensures var n := OfferAll(h, policy, context, market, a, orders[..k]).value;
            && AllOpsValid(n.session.operations)
            && Used(n.session.operations, QuoteKey(market, action)) - Used(a.session.operations, QuoteKey(market, action))
               == a.budgets.Of(action) - n.budgets.Of(action)
  {
    hide OfferOne, OfferAll, Intent.Valid, AllOpsValid, Used, Traded, EventsOf, Spent, Shas;
    if k == 0 {
      assert orders[..0] == [];
      NoOrders(h, policy, context, market, a);
    } else {
      OfferKeyed(h, policy, context, market, a, orders, k - 1, action);
      OfferPrefix(h, policy, context, market, a, orders, k - 1);
      OfferPrefix(h, policy, context, market, a, orders, k);
      var before := OfferAll(h, policy, context, market, a, orders[..k - 1]).value;
      OfferOneKeyed(h, policy, context, market, before, orders[k - 1], action);
      OfferOneSpends(h, policy, context, market, before, orders[k - 1]);
      SpentValid(h, market, before, OfferAll(h, policy, context, market, a, orders[..k]).value, {h.intent(orders[k - 1])});
    }
  }

  /** An order that gains takes at least one lot from its side's budget. */
  lemma {:induction false} GainTakesLot(h: Digests, policy: Policy, context: ContextPolicy, market: Market, a: Allocation, orders: seq<Intent>, j: nat)
    requires policy.lotSize >= 1 && AllOpsValid(a.session.operations) && j < |orders| && a.budgets.Of(orders[j].action) >= 0
    requires (forall i :: i in orders ==> i.Valid()) && QuotePriority.Distinct(h, orders)
    requires OfferAll(h, policy, context, market, a, orders).Ok?
    requires Gained(h, a.session, OfferAll(h, policy, context, market, a, orders).value.session, orders[j])
    ensures OfferAll(h, policy, context, market, a, orders).value.budgets.Of(orders[j].action) <= a.budgets.Of(orders[j].action) - policy.lotSize
  {
    hide OfferOne, OfferAll, EventsOf, Intent.Valid, AllOpsValid, QuotePriority.Distinct, EvidenceQuantity;
    var action := orders[j].action;
    StepAt(h, policy, context, market, a, orders, j);
    var at := OfferAll(h, policy, context, market, a, orders[..j]).value;
    OfferOutcome(h, policy, context, market, at, orders[j]);
    BudgetShrinks(h, policy, context, market, a, orders, 0, j, action);
    BudgetShrinks(h, policy, context, market, a, orders, j + 1, |orders|, action);
    assert orders[..0] == [] && orders[..|orders|] == orders;
    NoOrders(h, policy, context, market, a);
  }

  // ----- Which orders have traded on an identity -----

  lemma {:induction false} FillsMatchOrder(h: Digests, intent: Intent, events: seq<Event>, i: nat)
    requires RunFold(h, intent, events, true).Ok? && i < |events| && events[i].fill.Some?
    ensures events[i].fill.value.symbol == intent.symbol && events[i].fill.value.action == intent.action
  {
    hide DeadlineError, OutsideLimit, NextAverage;
    if i < |events| - 1 { FillsMatchOrder(h, intent, events[..|events| - 1], i); }
  }

  lemma {:induction false} EventInLog(ops: seq<Operation>, sha: Digest, e: Event)
    requires e in EventsOf(ops, sha)
    ensures Report(e) in ops
  {
    var front, last := ops[..|ops| - 1], ops[|ops| - 1];
    assert ops == front + [last];
    if e in EventsOf(front, sha) { EventInLog(front, sha, e); }
  }

  /** An order that has traded on the quote's identity has put its side into the guard's table. */
  lemma UsedByOrder(h: Digests, s: Session, a: Intent, market: Market)
    requires Sound(h, s) && a.symbol == market.symbol
    requires Reduce(h, a, EventsOf(s.operations, h.intent(a))).Ok? && AlreadyUsed(EventsOf(s.operations, h.intent(a)), market)
    ensures Used(s.operations, QuoteKey(market, a.action)) > 0
  {
    hide RunFold, EventsOf, ReplayAll, Used;
    var events := EventsOf(s.operations, h.intent(a));
    var i :| 0 <= i < |events| && events[i].fill.Some? && events[i].fill.value.stream == market.stream && events[i].fill.value.sequence == market.sequence;
    FillsMatchOrder(h, a, events, i);
    assert events[i] in events;
    EventInLog(s.operations, h.intent(a), events[i]);
    assert Report(events[i]).Valid();
    UsedPositive(s.operations, QuoteKey(market, a.action), Report(events[i]));
  }

  /** The premises of strict priority, in one place. */
  ghost predicate Outranked(h: Digests, cfg: Configuration, s: Session, market: Market, a: Intent, b: Intent) {
    && cfg.Valid() && Healthy(h, cfg, s) && cfg.policy.Some? && ProcessQuote(h, cfg, s, market).Ok?
    && Order(a) in s.operations && Order(b) in s.operations && a != b && a.action == b.action && Precedes(h, a, b)
    && Eligible(h, a, EventsOf(s.operations, h.intent(a)), market, cfg.policy.value, cfg.context)
    && Gained(h, s, ProcessQuote(h, cfg, s, market).value, b)
  }

  /** An accepted quote takes at least one lot from its identity when it fills an order. */
  lemma {:induction false} GainUsesLot(h: Digests, cfg: Configuration, s: Session, market: Market, b: Intent)
    requires cfg.Valid() && Sound(h, s) && cfg.policy.Some? && ProcessQuote(h, cfg, s, market).Ok? && Order(b) in s.operations
    requires Gained(h, s, ProcessQuote(h, cfg, s, market).value, b)
    ensures Used(ProcessQuote(h, cfg, s, market).value.operations, QuoteKey(market, b.action))
            >= Used(s.operations, QuoteKey(market, b.action)) + cfg.policy.value.lotSize
  {
    hide OfferAll, SortOrders, IntentsOf, LocalDay, ReplayAll, AllOpsValid, EventsOf, EvidenceQuantity, Ranked, QuotePriority.Distinct, Precedes, Finish, Intent.Valid, Used;
    var allocation := Allocation(s, QuoteBudgets(Cursor(s.markets, market.symbol), market));
    var orders := SortedOrders(h, cfg, s);
    assert ReplayAll(h, s.Ground(), s.operations).Ok?;
    LogDistinct(h, s.Ground(), s.operations);
    SortRanks(h, IntentsOf(s.operations));
    var j :| 0 <= j < |orders| && orders[j] == b;
    var last := OfferAll(h, cfg.policy.value, cfg.context, market, allocation, orders).value;
    FinishIdle(h, s, last.session.(markets := PlaceMarket(s.markets, market)));
    GainTakesLot(h, cfg.policy.value, cfg.context, market, allocation, orders, j);
    OfferKeyed(h, cfg.policy.value, cfg.context, market, allocation, orders, |orders|, b.action);
    assert orders[..|orders|] == orders;
  }

  /** The exception needs spare capacity: an order can be passed by only on an identity whose first fill
      recorded at least one lot more than has been taken from it since. */
  lemma {:induction false} SkippedNeedsSpare(h: Digests, cfg: Configuration, s: Session, market: Market, a: Intent, b: Intent)
    requires Outranked(h, cfg, s, market, a, b) && market.Valid() && AlreadyUsed(EventsOf(s.operations, h.intent(a)), market)
    ensures ReplayAll(h, s.Ground(), s.operations).Ok? && Spare(h, s, QuoteKey(market, a.action)) >= cfg.policy.value.lotSize
  {
    hide ReplayAll, EventsOf, AlreadyUsed, Reduce, Used, ProcessQuote, Gained, Precedes, AllPlanned, Intent.Valid;
    var key, n := QuoteKey(market, a.action), ProcessQuote(h, cfg, s, market).value;
    UsedByOrder(h, s, a, market);
    GainUsesLot(h, cfg, s, market, b);
    ReplayLiquidity(h, s.Ground(), s.operations, key);
    QuoteKeeps(h, cfg, s, market);
    ReplayLiquidity(h, n.Ground(), n.operations, key);
    CapacityStays(h, n.Ground(), n.operations, |s.operations|, key);
  }

  lemma {:induction false} QuoteKeeps(h: Digests, cfg: Configuration, s: Session, market: Market)
    requires cfg.Valid() && Sound(h, s) && ProcessQuote(h, cfg, s, market).Ok? && market.Valid()
    ensures var n := ProcessQuote(h, cfg, s, market).value;
            Sound(h, n) && n.Ground() == s.Ground() && ReplayAll(h, n.Ground(), n.operations).Ok? && Extends(s, n)
  {
    hide ProcessQuote, ReplayAll;
    ApplyFine(h, Watch(cfg, s.Ground(), false), s, QuoteCommand(market));
    ApplyExtends(h, cfg, s, QuoteCommand(market));
  }

  /** So strict priority holds without exception wherever the identity has no spare lot. */
  lemma {:induction false} PriorityWithoutSpare(h: Digests, cfg: Configuration, s: Session, market: Market, a: Intent, b: Intent)
    requires Outranked(h, cfg, s, market, a, b) && market.Valid()
    requires ReplayAll(h, s.Ground(), s.operations).Ok? && Spare(h, s, QuoteKey(market, a.action)) < cfg.policy.value.lotSize
    ensures Complete(h, ProcessQuote(h, cfg, s, market).value, a)
  {
    hide ReplayAll, EventsOf, AlreadyUsed, Reduce, ProcessQuote, Spare, Complete;
    StrictPriority(h, cfg, s, market, a, b);
    if AlreadyUsed(EventsOf(s.operations, h.intent(a)), market) { SkippedNeedsSpare(h, cfg, s, market, a, b); }
  }
}
