/** Strict priority: who may trade on a quote before whom. */
module QuotePriority {
  import opened PaperModel
  import opened OrderReducer
  import opened SessionLog
  import opened Planner
  import opened Matching
  import opened PaperSession
  import opened SessionSafety
  import opened SessionGuards
  import opened QuoteAllocation

  predicate Ranked(h: Digests, orders: seq<Intent>) {
    forall i, j :: 0 <= i < j < |orders| ==> Precedes(h, orders[i], orders[j])
  }

  predicate Distinct(h: Digests, orders: seq<Intent>) {
    forall i, j :: 0 <= i < j < |orders| ==> h.intent(orders[i]) != h.intent(orders[j])
  }

  lemma PlaceMembers(h: Digests, orders: seq<Intent>, x: Intent)
    ensures forall i :: i in PlaceOrder(h, orders, x) <==> i in orders || i == x
  {
    var placed := PlaceOrder(h, orders, x);
    PlaceKeeps(h, orders, x);
    forall i ensures i in placed <==> i in orders || i == x {
      assert i in placed <==> i in multiset(placed);
      assert i in orders <==> i in multiset(orders);
    }
  }

  lemma PrecedesIsOrder(h: Digests)
    ensures forall a, b :: Precedes(h, a, b) || Precedes(h, b, a)
    ensures forall a, b, c :: Precedes(h, a, b) && Precedes(h, b, c) ==> Precedes(h, a, c)
  {}

  lemma RankedHead(h: Digests, head: Intent, rest: seq<Intent>)
    requires Ranked(h, rest) && forall i :: i in rest ==> Precedes(h, head, i)
    ensures Ranked(h, [head] + rest)
  {
    hide Precedes;
  }

  lemma DistinctHead(h: Digests, head: Intent, rest: seq<Intent>)
    requires Distinct(h, rest) && forall i :: i in rest ==> h.intent(head) != h.intent(i)
    ensures Distinct(h, [head] + rest)
  {}

  lemma {:induction false} PlaceRanks(h: Digests, orders: seq<Intent>, x: Intent)
    requires Ranked(h, orders)
    ensures Ranked(h, PlaceOrder(h, orders, x))
  {
    hide Precedes;
    PrecedesIsOrder(h);
    if orders != [] {
      var head, rest := orders[0], orders[1..];
      assert orders == [head] + rest;
      assert forall i :: i in rest ==> Precedes(h, head, i);
      if Precedes(h, head, x) {
        PlaceRanks(h, rest, x);
        PlaceMembers(h, rest, x);
        RankedHead(h, head, PlaceOrder(h, rest, x));
      } else {
        RankedHead(h, x, orders);
      }
    }
  }

  lemma {:induction false} PlaceDistinct(h: Digests, orders: seq<Intent>, x: Intent)
    requires Distinct(h, orders) && forall i :: i in orders ==> h.intent(i) != h.intent(x)
    ensures Distinct(h, PlaceOrder(h, orders, x))
  {
    hide Precedes;
    if orders != [] {
      var head, rest := orders[0], orders[1..];
      assert orders == [head] + rest;
      if Precedes(h, head, x) {
        PlaceDistinct(h, rest, x);
        PlaceMembers(h, rest, x);
        DistinctHead(h, head, PlaceOrder(h, rest, x));
      } else {
        DistinctHead(h, x, orders);
      }
    }
  }

  lemma {:induction false} SortRanks(h: Digests, orders: seq<Intent>)
    ensures Ranked(h, SortOrders(h, orders))
    ensures Distinct(h, orders) ==> Distinct(h, SortOrders(h, orders))
  {
    hide Precedes;
    if orders != [] {
      var front, last := orders[..|orders| - 1], orders[|orders| - 1];
      SortRanks(h, front);
      SortedMembers(h, front);
      PlaceRanks(h, SortOrders(h, front), last);
      if Distinct(h, orders) {
        assert forall i :: i in front ==> h.intent(i) != h.intent(last);
        PlaceDistinct(h, SortOrders(h, front), last);
      }
    }
  }

  lemma {:induction false} LogDistinct(h: Digests, g: Base, ops: seq<Operation>)
    requires AllOpsValid(ops) && ReplayAll(h, g, ops).Ok?
    ensures Distinct(h, IntentsOf(ops))
    ensures forall i :: i in IntentsOf(ops) ==> h.intent(i) in ReplayAll(h, g, ops).value.intents
  {
    hide Reduce, Settle, Reserve, SpendLiquidity, Operation.Valid;
    if ops != [] {
      LogDistinct(h, g, ops[..|ops| - 1]);
    }
  }

  /** The quote filled some of this order. */
  predicate Gained(h: Digests, s: Session, n: Session, intent: Intent) {
    EvidenceQuantity(EventsOf(n.operations, h.intent(intent))) > EvidenceQuantity(EventsOf(s.operations, h.intent(intent)))
  }

  predicate Complete(h: Digests, s: Session, intent: Intent) {
    var r := Reduce(h, intent, EventsOf(s.operations, h.intent(intent)));
    r.Ok? && r.value.status.Filled?
  }

  /** What one offer does to the order it is made to. */
  lemma {:induction false} OfferOutcome(h: Digests, policy: Policy, context: ContextPolicy, market: Market, a: Allocation, intent: Intent)
    requires policy.lotSize >= 1 && intent.Valid() && AllOpsValid(a.session.operations)
    requires OfferOne(h, policy, context, market, a, intent).Ok?
    ensures var n, events := OfferOne(h, policy, context, market, a, intent).value, EventsOf(a.session.operations, h.intent(intent));
            && (intent.symbol == market.symbol && intent.createdAt <= market.observedAt ==>
                 var m := MatchQuote(h, intent, events, market, policy, context, a.budgets.Of(intent.action));
                 && m.Ok?
                 && EventsOf(n.session.operations, h.intent(intent)) == events + (if m.value.Some? then [m.value.value] else [])
                 && n.budgets.Of(intent.action) == a.budgets.Of(intent.action) - FilledBy(m.value))
            && (EvidenceQuantity(EventsOf(n.session.operations, h.intent(intent))) > EvidenceQuantity(events) ==>
                 && a.budgets.Of(intent.action) >= policy.lotSize
                 && n.budgets.Of(intent.action) <= a.budgets.Of(intent.action) - policy.lotSize)
  {
    hide Append, MatchQuote, EventsOf, Reduce, Eligible, AlreadyUsed, Intent.Valid, AllValid, AllOpsValid, Event.Valid, EvidenceQuantity;
    var events := EventsOf(a.session.operations, h.intent(intent));
    var budget := a.budgets.Of(intent.action);
    if intent.symbol == market.symbol && intent.createdAt <= market.observedAt {
      EventsValid(a.session.operations, h.intent(intent));
      var m := MatchQuote(h, intent, events, market, policy, context, budget).value;
      if m.Some? {
        MatchedEvent(h, intent, events, market, policy, context, budget);
        MatchedFill(h, intent, events, market, policy, context, budget);
        SameDay(h, a.session, Report(m.value));
        ReadAppended(h, a.session.operations, Report(m.value));
        EvidenceMore(events, m.value);
        if m.value.fill.Some? { WholeLotAtLeast(m.value.fill.value.filled, policy.lotSize); }
      }
    }
  }

  lemma EvidenceMore(events: seq<Event>, e: Event)
    ensures EvidenceQuantity(events + [e]) == EvidenceQuantity(events) + FillQuantity(e)
  {
    assert (events + [e])[..|events|] == events;
  }

  lemma WholeLotAtLeast(n: nat, lot: nat)
    requires lot >= 1 && n > 0 && n % lot == 0
    ensures n >= lot
  {}

  /** An offer to an eligible order of whole lots: complete, or skipped because it has already traded
      on this quote, or the side's budget falls below one lot. */
  lemma {:induction false} EligibleOutcome(h: Digests, policy: Policy, context: ContextPolicy, market: Market, a: Allocation, intent: Intent)
    requires policy.lotSize >= 1 && intent.Valid() && AllOpsValid(a.session.operations)
    requires OfferOne(h, policy, context, market, a, intent).Ok?
    requires Eligible(h, intent, EventsOf(a.session.operations, h.intent(intent)), market, policy, context)
    requires (intent.quantity - Reduce(h, intent, EventsOf(a.session.operations, h.intent(intent))).value.filled) % policy.lotSize == 0
    ensures var n, events := OfferOne(h, policy, context, market, a, intent).value, EventsOf(a.session.operations, h.intent(intent));
            && (AlreadyUsed(events, market) ==> !Complete(h, n.session, intent))
            && (!AlreadyUsed(events, market) && !Complete(h, n.session, intent) ==> n.budgets.Of(intent.action) < policy.lotSize)
  {
    hide OfferOne, MatchQuote, EventsOf, Reduce, AlreadyUsed, Intent.Valid, AllValid, AllOpsValid, Event.Valid, EvidenceQuantity;
    var events := EventsOf(a.session.operations, h.intent(intent));
    EventsValid(a.session.operations, h.intent(intent));
    var budget := a.budgets.Of(intent.action);
    OfferOutcome(h, policy, context, market, a, intent);
    MatchedIncomplete(h, intent, events, market, policy, context, budget);
    MatchedEvent(h, intent, events, market, policy, context, budget);
    var m := MatchQuote(h, intent, events, market, policy, context, budget).value;
    if m.Some? { StatusOfLast(h, intent, events, m.value); } else { assert events + [] == events; }
  }

  lemma StatusOfLast(h: Digests, intent: Intent, events: seq<Event>, e: Event)
    requires Reduce(h, intent, events + [e]).Ok?
    ensures Reduce(h, intent, events + [e]).value.status == e.kind
  {
    assert (events + [e])[..|events|] == events;
  }

  lemma AmongShas(h: Digests, orders: seq<Intent>, lo: nat, hi: nat, k: nat)
    requires Distinct(h, orders) && lo <= hi <= |orders| && k < |orders| && !(lo <= k < hi)
    ensures h.intent(orders[k]) !in Shas(h, orders[lo..hi])
  {
    var part := orders[lo..hi];
    forall i | 0 <= i < |part| ensures h.intent(part[i]) != h.intent(orders[k]) {
      assert part[i] == orders[lo + i];
    }
  }

  /** Where a ranked order stands: orders before and after it never touch its history. */
  lemma {:induction false} StepAt(h: Digests, policy: Policy, context: ContextPolicy, market: Market, a: Allocation, orders: seq<Intent>, k: nat)
    requires policy.lotSize >= 1 && AllOpsValid(a.session.operations) && k < |orders|
    requires (forall i :: i in orders ==> i.Valid()) && Distinct(h, orders)
    requires OfferAll(h, policy, context, market, a, orders).Ok?
    ensures OfferAll(h, policy, context, market, a, orders[..k]).Ok?
    ensures var at, sha := OfferAll(h, policy, context, market, a, orders[..k]).value, h.intent(orders[k]);
            var next := OfferOne(h, policy, context, market, at, orders[k]);
            var last := OfferAll(h, policy, context, market, a, orders).value;
            && AllOpsValid(at.session.operations)
            && EventsOf(at.session.operations, sha) == EventsOf(a.session.operations, sha)
            && next.Ok? && next == OfferAll(h, policy, context, market, a, orders[..k + 1])
            && AllOpsValid(next.value.session.operations)
            && EventsOf(last.session.operations, sha) == EventsOf(next.value.session.operations, sha)
  {
    hide OfferOne, OfferAll, EventsOf, Intent.Valid, AllOpsValid, Distinct, Traded, Shas;
    assert orders[..|orders|] == orders && orders[..0] == [];
    NoOrders(h, policy, context, market, a);
    OfferPrefix(h, policy, context, market, a, orders, k);
    OfferPrefix(h, policy, context, market, a, orders, k + 1);
    OfferSpends(h, policy, context, market, a, orders, 0, k);
    OfferSpends(h, policy, context, market, a, orders, k, k + 1);
    OfferSpends(h, policy, context, market, a, orders, k + 1, |orders|);
    AmongShas(h, orders, 0, k, k);
    AmongShas(h, orders, k + 1, |orders|, k);
  }

  /** The budget of a side at a later rank is no more than after an earlier one. */
  lemma {:induction false} BudgetShrinks(h: Digests, policy: Policy, context: ContextPolicy, market: Market, a: Allocation,
                                         orders: seq<Intent>, lo: nat, hi: nat, action: Action)
    requires policy.lotSize >= 1 && AllOpsValid(a.session.operations) && lo <= hi <= |orders|
    requires forall i :: i in orders ==> i.Valid()
    requires OfferAll(h, policy, context, market, a, orders).Ok? && a.budgets.Of(action) >= 0
    ensures OfferAll(h, policy, context, market, a, orders[..lo]).Ok? && OfferAll(h, policy, context, market, a, orders[..hi]).Ok?
    ensures OfferAll(h, policy, context, market, a, orders[..hi]).value.budgets.Of(action)
            <= OfferAll(h, policy, context, market, a, orders[..lo]).value.budgets.Of(action)
  {
    hide OfferOne, OfferAll, EventsOf, Intent.Valid, AllOpsValid, Traded, Shas;
    assert orders[..0] == [];
    NoOrders(h, policy, context, market, a);
    OfferSpends(h, policy, context, market, a, orders, 0, lo);
    OfferSpends(h, policy, context, market, a, orders, lo, hi);
  }

  /** Ranks `i < j` of one allocation, on the same side. */
  lemma {:induction false} RankedPair(h: Digests, policy: Policy, context: ContextPolicy, market: Market, a: Allocation,
                                      orders: seq<Intent>, i: nat, j: nat)
    requires policy.lotSize >= 1 && AllOpsValid(a.session.operations) && i < j < |orders|
    requires (forall x :: x in orders ==> x.Valid()) && Distinct(h, orders)
    requires OfferAll(h, policy, context, market, a, orders).Ok? && a.budgets.Of(orders[i].action) >= 0
    requires orders[i].action == orders[j].action
    requires Eligible(h, orders[i], EventsOf(a.session.operations, h.intent(orders[i])), market, policy, context)
    requires (orders[i].quantity - Reduce(h, orders[i], EventsOf(a.session.operations, h.intent(orders[i]))).value.filled) % policy.lotSize == 0
    requires Gained(h, a.session, OfferAll(h, policy, context, market, a, orders).value.session, orders[j])
    ensures Complete(h, OfferAll(h, policy, context, market, a, orders).value.session, orders[i])
            <==> !AlreadyUsed(EventsOf(a.session.operations, h.intent(orders[i])), market)
  {
    hide OfferOne, OfferAll, EventsOf, Intent.Valid, AllOpsValid, Distinct, Reduce, Eligible, AlreadyUsed, EvidenceQuantity;
    StepAt(h, policy, context, market, a, orders, i);
    StepAt(h, policy, context, market, a, orders, j);
    var atI := OfferAll(h, policy, context, market, a, orders[..i]).value;
    var atJ := OfferAll(h, policy, context, market, a, orders[..j]).value;
    EligibleOutcome(h, policy, context, market, atI, orders[i]);
    BudgetShrinks(h, policy, context, market, a, orders, i + 1, j, orders[i].action);
    OfferOutcome(h, policy, context, market, atJ, orders[j]);
  }

  lemma RankOf(h: Digests, orders: seq<Intent>, a: Intent, b: Intent) returns (i: nat, j: nat)
    requires Ranked(h, orders) && Distinct(h, orders) && a in orders && b in orders && a != b && Precedes(h, a, b)
    ensures i < j < |orders| && orders[i] == a && orders[j] == b
  {
    i :| i < |orders| && orders[i] == a;
    j :| j < |orders| && orders[j] == b;
    assert j < i ==> Precedes(h, b, a);
    assert j < i ==> h.intent(b) != h.intent(a);
  }

  /** Strict priority, exactly: when a quote fills an order, an eligible order of the same side that
      ranks before it ends complete if and only if it had not already traded on this quote's
      stream session and receive sequence. */
  lemma {:induction false} StrictPriority(h: Digests, cfg: Configuration, s: Session, market: Market, a: Intent, b: Intent)
    requires cfg.Valid() && Healthy(h, cfg, s) && cfg.policy.Some? && ProcessQuote(h, cfg, s, market).Ok?
    requires Order(a) in s.operations && Order(b) in s.operations && a != b && a.action == b.action && Precedes(h, a, b)
    requires Eligible(h, a, EventsOf(s.operations, h.intent(a)), market, cfg.policy.value, cfg.context)
    requires Gained(h, s, ProcessQuote(h, cfg, s, market).value, b)
    ensures Complete(h, ProcessQuote(h, cfg, s, market).value, a)
            <==> !AlreadyUsed(EventsOf(s.operations, h.intent(a)), market)
  {
    hide OfferAll, SortOrders, IntentsOf, LocalDay, ReplayAll, AllOpsValid, EventsOf, Reduce, Eligible, AlreadyUsed, EvidenceQuantity,
         Ranked, Distinct, Precedes, AllPlanned, Finish, Intent.Valid, WholeLots;
    var allocation := Allocation(s, QuoteBudgets(Cursor(s.markets, market.symbol), market));
    var orders := SortedOrders(h, cfg, s);
    assert ReplayAll(h, s.Ground(), s.operations).Ok?;
    LogDistinct(h, s.Ground(), s.operations);
    SortRanks(h, IntentsOf(s.operations));
    var i, j := RankOf(h, orders, a, b);
    EligibleReduces(h, a, EventsOf(s.operations, h.intent(a)), market, cfg.policy.value, cfg.context);
    EverythingInLots(h, cfg, s, a);
    var last := OfferAll(h, cfg.policy.value, cfg.context, market, allocation, orders).value.session;
    FinishIdle(h, s, last.(markets := PlaceMarket(s.markets, market)));
    RankedPair(h, cfg.policy.value, cfg.context, market, allocation, orders, i, j);
  }

  lemma EligibleReduces(h: Digests, intent: Intent, events: seq<Event>, market: Market, policy: Policy, context: ContextPolicy)
    requires Eligible(h, intent, events, market, policy, context)
    ensures Reduce(h, intent, events).Ok?
  {}

  /** An identity may come back: when two streams take turns, the cursor check, which looks only one quote
      back, lets a quote of an identity pass on which an order has traded before. */
  lemma IdentityReturns(m: Market)
    requires m.Valid()
    ensures var other := m.(stream := m.stream + 1, quoteReceivedAt := m.quoteReceivedAt + 1, observedAt := m.observedAt + 1);
            var again := m.(quoteReceivedAt := m.quoteReceivedAt + 2, observedAt := m.observedAt + 2);
            && other.Valid() && again.Valid()
            && !CursorConflicts(m, other) && !CursorConflicts(other, again)
            && (forall events :: AlreadyUsed(events, again) <==> AlreadyUsed(events, m))
  {}
}
