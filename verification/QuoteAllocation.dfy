/** How one quote, and a run of quotes, may be shared out among the orders of a session. */
module QuoteAllocation {
  import opened Prelude
  import opened PaperModel
  import opened OrderReducer
  import opened SessionLog
  import opened Planner
  import opened Matching
  import opened PaperSession
  import opened SessionSafety
  import opened SessionGuards

  // ----- Budgets -----

  function TradedBy(op: Operation, symbol: Ident, action: Action): nat {
    if op.Report? && op.event.fill.Some? && op.event.fill.value.symbol == symbol && op.event.fill.value.action == action
    then op.event.fill.value.filled else 0
  }

  /** Shares of one symbol that a log fills on one side. */
  function Traded(ops: seq<Operation>, symbol: Ident, action: Action): nat {
    if ops == [] then 0
    else Traded(ops[..|ops| - 1], symbol, action) + TradedBy(ops[|ops| - 1], symbol, action)
  }

  lemma TradedMore(ops: seq<Operation>, op: Operation)
    ensures forall symbol, action :: Traded(ops + [op], symbol, action) == Traded(ops, symbol, action) + TradedBy(op, symbol, action)
  {
    assert (ops + [op])[..|ops|] == ops;
  }

  /** Offering the quote to one order moves shares from that side's budget into the log, and touches
      no other order. */
  ghost predicate Spent(h: Digests, market: Market, a: Allocation, n: Allocation, touched: set<Digest>) {
    && AllOpsValid(n.session.operations) && n.session.markets == a.session.markets
    && (forall action :: Traded(n.session.operations, market.symbol, action) + n.budgets.Of(action)
                         == Traded(a.session.operations, market.symbol, action) + a.budgets.Of(action))
    && (forall action :: a.budgets.Of(action) >= 0 ==> 0 <= n.budgets.Of(action) <= a.budgets.Of(action))
    && (forall symbol, action :: symbol != market.symbol ==>
          Traded(n.session.operations, symbol, action) == Traded(a.session.operations, symbol, action))
    && (forall sha :: sha !in touched ==> EventsOf(n.session.operations, sha) == EventsOf(a.session.operations, sha))
  }

  lemma OfferOneSpends(h: Digests, policy: Policy, context: ContextPolicy, market: Market, a: Allocation, intent: Intent)
    requires policy.lotSize >= 1 && intent.Valid() && AllOpsValid(a.session.operations)
    requires OfferOne(h, policy, context, market, a, intent).Ok?
    ensures Spent(h, market, a, OfferOne(h, policy, context, market, a, intent).value, {h.intent(intent)})
  {
    hide Append, MatchQuote, EventsOf, Reduce, Eligible, AlreadyUsed, Intent.Valid, AllValid, AllOpsValid, Traded, Event.Valid;
    var events := EventsOf(a.session.operations, h.intent(intent));
    var budget := a.budgets.Of(intent.action);
    EventsValid(a.session.operations, h.intent(intent));
    if intent.symbol == market.symbol && intent.createdAt <= market.observedAt {
      var m := MatchQuote(h, intent, events, market, policy, context, budget).value;
      if m.Some? {
        MatchedEvent(h, intent, events, market, policy, context, budget);
        MatchedFill(h, intent, events, market, policy, context, budget);
        SameDay(h, a.session, Report(m.value));
        TradedMore(a.session.operations, Report(m.value));
        OperationsAppended(a.session.operations, Report(m.value));
        ReadAppended(h, a.session.operations, Report(m.value));
      }
    }
  }

  function Shas(h: Digests, orders: seq<Intent>): set<Digest> {
    set i | 0 <= i < |orders| :: h.intent(orders[i])
  }

  lemma SpentTwice(h: Digests, market: Market, a: Allocation, b: Allocation, c: Allocation, first: set<Digest>, second: set<Digest>)
    requires Spent(h, market, a, b, first) && Spent(h, market, b, c, second)
    ensures Spent(h, market, a, c, first + second)
  {
    hide Traded, EventsOf, AllOpsValid;
  }

  lemma {:induction false} OfferPrefix(h: Digests, policy: Policy, context: ContextPolicy, market: Market, a: Allocation,
                                       orders: seq<Intent>, k: nat)
    requires policy.lotSize >= 1 && k <= |orders| && OfferAll(h, policy, context, market, a, orders).Ok?
    ensures OfferAll(h, policy, context, market, a, orders[..k]).Ok?
    ensures k < |orders| ==> OfferAll(h, policy, context, market, a, orders[..k + 1])
                             == OfferOne(h, policy, context, market, OfferAll(h, policy, context, market, a, orders[..k]).value, orders[k])
  {
    hide OfferOne;
    if OfferAll(h, policy, context, market, a, orders[..k]).Err? {
      OfferErrorSticks(h, policy, context, market, a, orders, k);
    }
    if k < |orders| { assert orders[..k + 1][..k] == orders[..k]; }
  }

  /** From the allocation reached after `lo` orders to the one after `hi`. */
  lemma {:induction false} OfferSpends(h: Digests, policy: Policy, context: ContextPolicy, market: Market, a: Allocation,
                                       orders: seq<Intent>, lo: nat, hi: nat)
    requires policy.lotSize >= 1 && lo <= hi <= |orders| && (forall i :: i in orders ==> i.Valid())
    requires OfferAll(h, policy, context, market, a, orders).Ok?
    requires OfferAll(h, policy, context, market, a, orders[..lo]).Ok?
    requires AllOpsValid(OfferAll(h, policy, context, market, a, orders[..lo]).value.session.operations)
    ensures OfferAll(h, policy, context, market, a, orders[..hi]).Ok?
    ensures Spent(h, market, OfferAll(h, policy, context, market, a, orders[..lo]).value,
                  OfferAll(h, policy, context, market, a, orders[..hi]).value, Shas(h, orders[lo..hi]))
    decreases hi
  {
    hide OfferOne, Spent, Intent.Valid, AllOpsValid, OfferAll;
    var start := OfferAll(h, policy, context, market, a, orders[..lo]).value;
    if lo == hi {
      NothingSpent(h, market, start, Shas(h, orders[lo..hi]));
    } else {
      OfferSpends(h, policy, context, market, a, orders, lo, hi - 1);
      OfferPrefix(h, policy, context, market, a, orders, hi - 1);
      OfferPrefix(h, policy, context, market, a, orders, hi);
      var before := OfferAll(h, policy, context, market, a, orders[..hi - 1]).value;
      SpentValid(h, market, start, before, Shas(h, orders[lo..hi - 1]));
      OfferOneSpends(h, policy, context, market, before, orders[hi - 1]);
      SpentTwice(h, market, start, before, OfferAll(h, policy, context, market, a, orders[..hi]).value,
                 Shas(h, orders[lo..hi - 1]), {h.intent(orders[hi - 1])});
      MoreShas(h, orders, lo, hi);
    }
  }

  lemma MoreShas(h: Digests, orders: seq<Intent>, lo: nat, hi: nat)
    requires lo < hi <= |orders|
    ensures Shas(h, orders[lo..hi]) == Shas(h, orders[lo..hi - 1]) + {h.intent(orders[hi - 1])}
  {
    var more := orders[lo..hi];
    assert more[..|more| - 1] == orders[lo..hi - 1];
    forall sha | sha in Shas(h, more) ensures sha in Shas(h, orders[lo..hi - 1]) + {h.intent(orders[hi - 1])} {
      var i :| 0 <= i < |more| && h.intent(more[i]) == sha;
      assert i < |more| - 1 ==> h.intent(orders[lo..hi - 1][i]) == sha;
    }
    forall sha | sha in Shas(h, orders[lo..hi - 1]) ensures sha in Shas(h, more) {
      var i :| 0 <= i < |orders[lo..hi - 1]| && h.intent(orders[lo..hi - 1][i]) == sha;
      assert more[i] == orders[lo..hi - 1][i];
    }
    assert h.intent(more[|more| - 1]) in Shas(h, more);
  }

  lemma SpentValid(h: Digests, market: Market, a: Allocation, n: Allocation, touched: set<Digest>)
    requires Spent(h, market, a, n, touched)
    ensures AllOpsValid(n.session.operations)
  {}

  lemma NothingSpent(h: Digests, market: Market, a: Allocation, touched: set<Digest>)
    requires AllOpsValid(a.session.operations)
    ensures Spent(h, market, a, a, touched)
  {}

  /** The whole allocation of one accepted quote. */
  lemma {:induction false} QuoteSpends(h: Digests, cfg: Configuration, s: Session, market: Market)
    requires cfg.Valid() && Sound(h, s) && ProcessQuote(h, cfg, s, market).Ok? && ProcessQuote(h, cfg, s, market).value != s
    ensures var n, previous := ProcessQuote(h, cfg, s, market).value, Cursor(s.markets, market.symbol);
            && cfg.policy.Some? && previous != Some(market)
            && n.markets == PlaceMarket(s.markets, market)
            && (forall action :: Traded(n.operations, market.symbol, action)
                                 <= Traded(s.operations, market.symbol, action) + SideBudget(previous, market, action))
            && (forall symbol, action :: symbol != market.symbol ==>
                  Traded(n.operations, symbol, action) == Traded(s.operations, symbol, action))
  {
    hide OfferAll, SortOrders, IntentsOf, Spent, Traded, PlaceMarket, LocalDay, ReplayAll, AllOpsValid;
    var previous := Cursor(s.markets, market.symbol);
    var a := Allocation(s, QuoteBudgets(previous, market));
    var orders := SortedOrders(h, cfg, s);
    assert orders[..|orders|] == orders && orders[..0] == [];
    NoOrders(h, cfg.policy.value, cfg.context, market, a);
    OfferSpends(h, cfg.policy.value, cfg.context, market, a, orders, 0, |orders|);
    var final := OfferAll(h, cfg.policy.value, cfg.context, market, a, orders).value;
    SpentWithin(h, market, a, final, Shas(h, orders[0..|orders|]));
  }

  lemma NoOrders(h: Digests, policy: Policy, context: ContextPolicy, market: Market, a: Allocation)
    requires policy.lotSize >= 1
    ensures OfferAll(h, policy, context, market, a, []) == Ok(a)
  {}

  lemma SpentWithin(h: Digests, market: Market, a: Allocation, n: Allocation, touched: set<Digest>)
    requires Spent(h, market, a, n, touched) && a.budgets.buy >= 0 && a.budgets.sell >= 0
    ensures n.session.markets == a.session.markets
    ensures forall action :: Traded(n.session.operations, market.symbol, action)
                             <= Traded(a.session.operations, market.symbol, action) + a.budgets.Of(action)
    ensures forall symbol, action :: symbol != market.symbol ==>
              Traded(n.session.operations, symbol, action) == Traded(a.session.operations, symbol, action)
  {
    hide Traded, EventsOf, AllOpsValid;
    forall action ensures Traded(n.session.operations, market.symbol, action)
                          <= Traded(a.session.operations, market.symbol, action) + a.budgets.Of(action) {
      assert a.budgets.Of(action) >= 0;
    }
  }

  ghost function SortedOrders(h: Digests, cfg: Configuration, s: Session): (orders: seq<Intent>)
    requires AllOpsValid(s.operations)
    ensures orders == SortOrders(h, IntentsOf(s.operations))
    ensures forall i :: i in orders ==> i.Valid()
    ensures forall i :: i in orders <==> Order(i) in s.operations
  {
    IntentsValid(Watch(cfg, s.Ground(), false), s.operations);
    SortedMembers(h, IntentsOf(s.operations));
    SortOrders(h, IntentsOf(s.operations))
  }

  // ----- A run of quotes -----

  lemma {:induction false} CursorFinds(markets: seq<Market>, symbol: Ident)
    requires MarketsOrdered(markets)
    ensures forall x :: x in markets && x.symbol == symbol ==> Cursor(markets, symbol) == Some(x)
    ensures Cursor(markets, symbol).Some? ==> Cursor(markets, symbol).value in markets && Cursor(markets, symbol).value.symbol == symbol
  {
    if markets != [] {
      CursorFinds(markets[1..], symbol);
      assert markets == [markets[0]] + markets[1..];
      assert forall i :: 0 < i < |markets| ==> markets[i].symbol > markets[0].symbol;
    }
  }

  /** Storing a quote moves that symbol's cursor to it and no other. */
  lemma CursorMoves(markets: seq<Market>, market: Market)
    requires MarketsOrdered(markets)
    ensures Cursor(PlaceMarket(markets, market), market.symbol) == Some(market)
    ensures forall symbol :: symbol != market.symbol ==> Cursor(PlaceMarket(markets, market), symbol) == Cursor(markets, symbol)
  {
    hide Cursor, PlaceMarket, MarketsOrdered;
    var placed := PlaceMarket(markets, market);
    PlaceMarketKeys(markets, market);
    CursorFinds(placed, market.symbol);
    forall symbol | symbol != market.symbol ensures Cursor(placed, symbol) == Cursor(markets, symbol) {
      CursorFinds(placed, symbol);
      CursorFinds(markets, symbol);
    }
  }

  /** The quotes of one symbol that a run takes in, oldest first: every value its cursor moves to. */
  function Taken(h: Digests, cfg: Configuration, s: Session, commands: seq<Command>, symbol: Ident): seq<Market>
    requires cfg.Valid()
  {
    if commands == [] then []
    else
      var front := commands[..|commands| - 1];
      var before, after := Cursor(Run(h, cfg, s, front).markets, symbol), Cursor(Run(h, cfg, s, commands).markets, symbol);
      Taken(h, cfg, s, front, symbol) + if after.Some? && after != before then [after.value] else []
  }

  /** The first displayed size plus every later increase. */
  function Shown(quotes: seq<Market>, action: Action): nat {
    if quotes == [] then 0
    else if |quotes| == 1 then SideQuantity(quotes[0], action)
    else Shown(quotes[..|quotes| - 1], action)
         + Max(0, SideQuantity(quotes[|quotes| - 1], action) - SideQuantity(quotes[|quotes| - 2], action))
  }

  predicate SamePrice(quotes: seq<Market>, action: Action) {
    forall i :: 0 < i < |quotes| ==> SidePrice(quotes[i], action) == SidePrice(quotes[0], action)
  }

  /** A command other than a quote trades nothing and leaves every cursor alone. */
  ghost predicate Idle(s: Session, n: Session) {
    n.markets == s.markets && forall symbol, action :: Traded(n.operations, symbol, action) == Traded(s.operations, symbol, action)
  }

  lemma FinishIdle(h: Digests, s: Session, current: Session)
    requires Finish(h, s, current).Ok?
    ensures Finish(h, s, current).value.markets == current.markets
    ensures Finish(h, s, current).value.operations == current.operations
  {
    hide ReplayAll;
  }

  lemma AppendIdle(h: Digests, s: Session, op: Operation)
    requires Append(h, s, op).Ok? && (op.Report? ==> op.event.fill.None?)
    ensures Idle(s, Append(h, s, op).value)
  {
    hide Append, Traded;
    SameDay(h, s, op);
    TradedMore(s.operations, op);
  }

  lemma OpenIdle(h: Digests, s: Session, intent: Intent)
    requires OpenAccepted(h, s, intent).Ok?
    ensures Idle(s, OpenAccepted(h, s, intent).value)
  {
    hide Append, LifecycleEvent, Traded, Finish;
    var reserved := Append(h, s, Order(intent)).value;
    AppendIdle(h, s, Order(intent));
    var accepted := LifecycleEvent(h, intent, [], Accepted, intent.createdAt, None, None).value;
    LifecycleValid(h, intent, [], Accepted, intent.createdAt, None, None);
    AppendIdle(h, reserved, Report(accepted));
    FinishIdle(h, s, Append(h, reserved, Report(accepted)).value);
  }

  lemma {:induction false} ExpireIdle(h: Digests, s: Session, orders: seq<Intent>, at: Instant)
    requires ExpireAll(h, s, orders, at).Ok?
    ensures Idle(s, ExpireAll(h, s, orders, at).value)
  {
    hide Append, LifecycleEvent, Traded, Reduce, EventsOf;
    if orders != [] {
      var front, intent := orders[..|orders| - 1], orders[|orders| - 1];
      ExpireIdle(h, s, front, at);
      var before := ExpireAll(h, s, front, at).value;
      var events := EventsOf(before.operations, h.intent(intent));
      var e := LifecycleEvent(h, intent, events, Expired, at, Some("TIME_IN_FORCE"), None);
      if e.Ok? && ExpireAll(h, s, orders, at).value != before {
        LifecycleValid(h, intent, events, Expired, at, Some("TIME_IN_FORCE"), None);
        AppendIdle(h, before, Report(e.value));
      }
    }
  }

  lemma {:induction false} OthersIdle(h: Digests, cfg: Configuration, s: Session, c: Command)
    requires cfg.Valid() && !c.QuoteCommand? && Apply(h, cfg, s, c).Ok?
    ensures Idle(s, Apply(h, cfg, s, c).value)
  {
    hide Append, LifecycleEvent, Traded, Finish, ExpireAll, Reduce, EventsOf, IntentsOf, OpenAccepted, PlanOrder, PlanExit;
    var n := Apply(h, cfg, s, c).value;
    if n != s {
      match c
      case EntryCommand(q, ready) =>
        OpenIdle(h, s, PlanOrder(h, q, cfg.policy.value, cfg.arbitration.value, cfg.context, cfg.gate.value).value.intent);
      case ExitCommand(entry, m, sha) =>
        var state := Reduce(h, entry, EventsOf(s.operations, h.intent(entry))).value;
        OpenIdle(h, s, PlanExit(h, ExitRequest(sha, entry, state, m, s.ledger), cfg.policy.value, cfg.context).value.intent);
      case ClockCommand(at) =>
        ExpireIdle(h, s, IntentsOf(s.operations), at);
        FinishIdle(h, s, ExpireAll(h, s, IntentsOf(s.operations), at).value);
      case CancelCommand(i, at, reason) =>
        var events := EventsOf(s.operations, h.intent(i));
        var e := LifecycleEvent(h, i, events, Cancelled, at, Some(reason), None).value;
        LifecycleValid(h, i, events, Cancelled, at, Some(reason), None);
        AppendIdle(h, s, Report(e));
        FinishIdle(h, s, Append(h, s, Report(e)).value);
    }
  }

  /** One command: the trade of a symbol grows by at most the budget of the quote its cursor moved to. */
  lemma {:induction false} CommandBudget(h: Digests, cfg: Configuration, s: Session, c: Command, symbol: Ident)
    requires cfg.Valid() && Sound(h, s) && Apply(h, cfg, s, c).Ok?
    ensures var n := Apply(h, cfg, s, c).value;
            var before, after := Cursor(s.markets, symbol), Cursor(n.markets, symbol);
            && (before.Some? ==> after.Some?)
            && (forall action :: Traded(n.operations, symbol, action) <= Traded(s.operations, symbol, action)
                 + if after.Some? && after != before then SideBudget(before, after.value, action) else 0)
  {
    hide Traded, Cursor, PlaceMarket, ProcessQuote, SubmitEntry, SubmitExit, AdvanceClock, CancelOrder, ReplayAll, AllOpsValid;
    var n := Apply(h, cfg, s, c).value;
    if c.QuoteCommand? {
      if n != s {
        QuoteSpends(h, cfg, s, c.market);
        CursorMoves(s.markets, c.market);
      }
    } else {
      OthersIdle(h, cfg, s, c);
    }
  }

  lemma {:induction false} RunSound(h: Digests, cfg: Configuration, s: Session, commands: seq<Command>)
    requires cfg.Valid() && Sound(h, s) && CommandsValid(commands)
    ensures Sound(h, Run(h, cfg, s, commands))
  {
    hide Apply, Sound;
    if commands != [] {
      RunSound(h, cfg, s, commands[..|commands| - 1]);
      LedgerNeverDrifts(h, cfg, Run(h, cfg, s, commands[..|commands| - 1]), commands[|commands| - 1]);
    }
  }

  /** Over any run of commands from any valid session, while the best price of a side stays put, the
      shares filled on that side are at most the first displayed size plus the sum of the increases. */
  lemma {:induction false} DisplayedSizeBoundsFills(h: Digests, cfg: Configuration, s: Session, commands: seq<Command>, symbol: Ident, action: Action)
    requires cfg.Valid() && Sound(h, s) && CommandsValid(commands)
    requires SamePrice(Taken(h, cfg, s, commands, symbol), action)
    ensures Traded(Run(h, cfg, s, commands).operations, symbol, action)
            <= Traded(s.operations, symbol, action) + Shown(Taken(h, cfg, s, commands, symbol), action)
    ensures Taken(h, cfg, s, commands, symbol) != [] ==>
              var quotes := Taken(h, cfg, s, commands, symbol);
              Cursor(Run(h, cfg, s, commands).markets, symbol) == Some(quotes[|quotes| - 1])
  {
    hide Apply, Sound, Traded, Cursor, SidePrice, SideQuantity, SideBudget, Shown;
    if commands == [] {
      assert Shown([], action) == 0 by { NothingShown(action); }
    } else {
      var front, last := commands[..|commands| - 1], commands[|commands| - 1];
      var earlier, quotes := Taken(h, cfg, s, front, symbol), Taken(h, cfg, s, commands, symbol);
      assert forall i :: 0 <= i < |earlier| ==> earlier[i] == quotes[i];
      DisplayedSizeBoundsFills(h, cfg, s, front, symbol, action);
      var before := Run(h, cfg, s, front);
      RunSound(h, cfg, s, front);
      if Apply(h, cfg, before, last).Ok? {
        CommandBudget(h, cfg, before, last, symbol);
        var previous, current := Cursor(before.markets, symbol), Cursor(Run(h, cfg, s, commands).markets, symbol);
        if current.Some? && current != previous {
          assert quotes == earlier + [current.value];
          ShownMore(earlier, previous, current.value, action);
        } else {
          assert quotes == earlier;
        }
      } else {
        assert quotes == earlier;
      }
    }
  }

  lemma NothingShown(action: Action)
    ensures Shown([], action) == 0
  {}

  lemma ShownMore(earlier: seq<Market>, previous: Option<Market>, market: Market, action: Action)
    requires SamePrice(earlier + [market], action)
    requires earlier != [] ==> previous == Some(earlier[|earlier| - 1])
    ensures SideBudget(previous, market, action) + Shown(earlier, action) <= Shown(earlier + [market], action)
  {
    var quotes := earlier + [market];
    if earlier != [] {
      assert quotes[..|quotes| - 1] == earlier;
      assert SidePrice(quotes[|quotes| - 1], action) == SidePrice(quotes[0], action);
      assert |earlier| > 1 ==> SidePrice(quotes[|quotes| - 2], action) == SidePrice(quotes[0], action);
    }
  }

  // ----- Whole lots -----

  /** In every reachable session each order, each fill, each open remainder and each reservation is a
      whole number of lots. */
  lemma {:induction false} EverythingInLots(h: Digests, cfg: Configuration, s: Session, intent: Intent)
    requires cfg.Valid() && cfg.policy.Some? && Healthy(h, cfg, s) && Order(intent) in s.operations
    requires Reduce(h, intent, EventsOf(s.operations, h.intent(intent))).Ok?
    ensures var lot, state := cfg.policy.value.lotSize, Reduce(h, intent, EventsOf(s.operations, h.intent(intent))).value;
            && intent.quantity % lot == 0 && state.filled % lot == 0 && (intent.quantity - state.filled) % lot == 0
            && WholeLots(s.ledger, lot)
            && forall e :: Report(e) in s.operations ==> FillQuantity(e) % lot == 0
  {
    hide Reduce, EventsOf, ReplayAll, AllValid, Intent.Valid, EvidenceQuantity, EvidenceValue;
    var w := Watch(cfg, s.Ground(), true);
    assert PlannedOp(w, Order(intent)) && Order(intent).Valid();
    EventsValid(s.operations, h.intent(intent));
    AcceptedHistory(h, intent, EventsOf(s.operations, h.intent(intent)));
    EvidenceLots(w, s.operations, h.intent(intent));
    LotSum(intent.quantity, EvidenceQuantity(EventsOf(s.operations, h.intent(intent))), Lot(cfg));
    ReplayLots(h, w, s.operations);
    forall e | Report(e) in s.operations ensures FillQuantity(e) % Lot(cfg) == 0 {
      assert PlannedOp(w, Report(e));
    }
  }
}
