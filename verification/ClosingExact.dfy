/** Exactly when the clock and a cancellation are refused, and what a cancellation does. */
module ClosingExact {
  import opened Prelude
  import opened PaperModel
  import opened OrderReducer
  import opened ReducerExact
  import opened LedgerParts
  import opened SessionLog
  import opened SessionBooks
  import opened Planner
  import opened Matching
  import opened MatchingExact
  import opened PaperSession
  import opened SessionSafety
  import opened SessionGuards
  import opened SessionHistory
  import opened SessionSubmission
  import opened QuoteAllocation
  import opened QuotePriority
  import opened SessionClosing

  // ----- When the reducer takes a closing event -----

  predicate Counted(events: seq<Event>) {
    forall k :: 0 <= k < |events| ==> events[k].sequence == k + 1
  }

  /** The event that would close the order. */
  function ClosingEvent(h: Digests, i: Intent, events: seq<Event>, kind: Status, at: Instant, reason: string): Event
    requires Reduce(h, i, events).Ok?
  {
    DraftEvent(h, i, Reduce(h, i, events).value, kind, at, Some(reason), None)
  }

  /** A live order takes a closing event exactly when it is in time order, has a reason, and either its
      deadline has come or, to cancel it, it was accepted. */
  lemma ClosesExactly(h: Digests, i: Intent, events: seq<Event>, kind: Status, at: Instant, reason: string)
    requires i.Valid() && AllValid(events) && Counted(events) && Reduce(h, i, events).Ok? && !Reduce(h, i, events).value.status.Terminal()
    requires kind.Expired? || kind.Cancelled?
    requires NewDigests(h, events, ClosingEvent(h, i, events, kind, at, reason))
    ensures LifecycleEvent(h, i, events, kind, at, Some(reason), None).Ok?
            <==> LastInstant(i, events) <= at && !Blank(reason) && (if kind.Expired? then i.expiresAt <= at else events != [])
  {
    hide RunFold, AllValid, Cost, EvidenceValue, EvidenceQuantity, Blank, Intent.Valid, NewDigests;
    var e := ClosingEvent(h, i, events, kind, at, reason);
    AcceptedHistory(h, i, events);
    StatusRead(h, i, events);
    assert e.Valid() <==> !Blank(reason);
    if e.Valid() { ReducerExactly(h, i, events, e); }
  }

  // ----- Events are numbered -----

  /** Every order's events are numbered from one. */
  ghost predicate Numbered(ops: seq<Operation>) {
    forall sha :: Counted(EventsOf(ops, sha))
  }

  lemma LifecycleCounts(h: Digests, i: Intent, events: seq<Event>, kind: Status, at: Instant, reason: Option<string>, fill: Option<FillEvidence>)
    requires fill.Some? ==> fill.value.filled > 0
    requires LifecycleEvent(h, i, events, kind, at, reason, fill).Ok?
    ensures LifecycleEvent(h, i, events, kind, at, reason, fill).value.sequence == |events| + 1
  {
    hide RunFold, Event.Valid, NextAverage;
  }

  lemma MatchCounts(h: Digests, i: Intent, events: seq<Event>, market: Market, policy: Policy, context: ContextPolicy, available: int)
    requires policy.lotSize >= 1 && MatchQuote(h, i, events, market, policy, context, available).Ok?
    ensures var m := MatchQuote(h, i, events, market, policy, context, available).value; m.Some? ==> m.value.sequence == |events| + 1
  {
    hide RunFold, Event.Valid, NextAverage, AlreadyUsed, Lots;
  }

  lemma AppendNumbered(h: Digests, s: Session, op: Operation)
    requires Numbered(s.operations) && Append(h, s, op).Ok?
    requires op.Report? ==> op.event.sequence == |EventsOf(s.operations, op.event.intentSha)| + 1
    ensures Numbered(Append(h, s, op).value.operations)
  {
    hide EventsOf, Append;
    SameDay(h, s, op);
    ReadAppended(h, s.operations, op);
    forall sha ensures Counted(EventsOf(s.operations + [op], sha)) {
      assert Counted(EventsOf(s.operations, sha));
    }
  }

  lemma OpenNumbered(h: Digests, s: Session, i: Intent)
    requires Sound(h, s) && i.Valid() && Numbered(s.operations) && OpenAccepted(h, s, i).Ok?
    ensures Numbered(OpenAccepted(h, s, i).value.operations)
  {
    hide Append, LifecycleEvent, Finish, EventsOf, Numbered, ReplayAll, Intent.Valid, AllOpsValid, FindOrder;
    var reserved := Append(h, s, Order(i)).value;
    var e := LifecycleEvent(h, i, [], Accepted, i.createdAt, None, None).value;
    LifecycleCounts(h, i, [], Accepted, i.createdAt, None, None);
    LifecycleValid(h, i, [], Accepted, i.createdAt, None, None);
    AppendNumbered(h, s, Order(i));
    SameDay(h, s, Order(i));
    ReadAppended(h, s.operations, Order(i));
    SameDay(h, reserved, Report(e));
    var live := Append(h, reserved, Report(e)).value;
    FinishIdle(h, s, live);
    assert EventsOf(s.operations, h.intent(i)) == [] by { NewOrder(h, s, i, live); }
    AppendNumbered(h, reserved, Report(e));
  }

  /** A submission the validator accepts is of an order new to the log. */
  lemma NewOrder(h: Digests, s: Session, i: Intent, live: Session)
    requires Sound(h, s) && Finish(h, s, live).Ok? && live.Ground() == s.Ground()
    requires |live.operations| == |s.operations| + 2 && live.operations[..|s.operations| + 1] == s.operations + [Order(i)]
    ensures EventsOf(s.operations, h.intent(i)) == []
  {
    hide EventsOf, Reduce, Settle, Reserve, FindOrder, AllOpsValid;
    var g, k := s.Ground(), |s.operations| + 1;
    ReplayLinked(h, g, s.operations);
    assert live != s;
    assert live.(revision := s.revision + 1).Ground() == g;
    assert ReplayAll(h, g, live.operations).Ok?;
    ReplayPrefix(h, g, live.operations, k);
    assert (s.operations + [Order(i)])[..|s.operations|] == s.operations;
  }

  lemma ReplayPrefix(h: Digests, g: Base, ops: seq<Operation>, k: nat)
    requires k <= |ops| && ReplayAll(h, g, ops).Ok?
    ensures ReplayAll(h, g, ops[..k]).Ok?
  {
    hide ReplayAll;
    if ReplayAll(h, g, ops[..k]).Err? { ReplayErrorSticks(h, g, ops, k); }
  }

  lemma {:induction false} ExpireNumbered(h: Digests, s: Session, orders: seq<Intent>, at: Instant)
    requires Numbered(s.operations) && ExpireAll(h, s, orders, at).Ok?
    ensures Numbered(ExpireAll(h, s, orders, at).value.operations)
  {
    hide Reduce, EventsOf, Append, LifecycleEvent, Numbered;
    if orders != [] {
      var front, i := orders[..|orders| - 1], orders[|orders| - 1];
      ExpireNumbered(h, s, front, at);
      var before := ExpireAll(h, s, front, at).value;
      if ExpireAll(h, s, orders, at).value != before {
        var events := EventsOf(before.operations, h.intent(i));
        LifecycleCounts(h, i, events, Expired, at, Some("TIME_IN_FORCE"), None);
        LifecycleValid(h, i, events, Expired, at, Some("TIME_IN_FORCE"), None);
        AppendNumbered(h, before, Report(LifecycleEvent(h, i, events, Expired, at, Some("TIME_IN_FORCE"), None).value));
      }
    }
  }

  lemma {:induction false} OfferNumbered(h: Digests, policy: Policy, context: ContextPolicy, market: Market, a: Allocation, orders: seq<Intent>)
    requires policy.lotSize >= 1 && Numbered(a.session.operations) && OfferAll(h, policy, context, market, a, orders).Ok?
    ensures Numbered(OfferAll(h, policy, context, market, a, orders).value.session.operations)
  {
    hide Reduce, EventsOf, Append, MatchQuote, Numbered, Event.Valid;
    if orders != [] {
      var front, i := orders[..|orders| - 1], orders[|orders| - 1];
      OfferNumbered(h, policy, context, market, a, front);
      var before := OfferAll(h, policy, context, market, a, front).value;
      if i.symbol == market.symbol && i.createdAt <= market.observedAt {
        var events, budget := EventsOf(before.session.operations, h.intent(i)), before.budgets.Of(i.action);
        var m := MatchQuote(h, i, events, market, policy, context, budget).value;
        if m.Some? {
          MatchCounts(h, i, events, market, policy, context, budget);
          MatchedEvent(h, i, events, market, policy, context, budget);
          AppendNumbered(h, before.session, Report(m.value));
        }
      }
    }
  }

  lemma {:induction false} ApplyNumbered(h: Digests, cfg: Configuration, s: Session, c: Command)
    requires cfg.Valid() && Sound(h, s) && c.Valid() && Numbered(s.operations) && Apply(h, cfg, s, c).Ok?
    ensures Numbered(Apply(h, cfg, s, c).value.operations)
  {
    hide Append, LifecycleEvent, Finish, ExpireAll, OfferAll, Reduce, EventsOf, IntentsOf, SortOrders, OpenAccepted, PlanOrder, PlanExit, PlaceMarket,
         Numbered, ReplayAll, Request.Valid, Market.Valid, Intent.Valid, EntryMatches, Ledger.Valid, AllOpsValid;
    var n := Apply(h, cfg, s, c).value;
    if n != s {
      match c
      case EntryCommand(q, ready) =>
        ReadyEntryReserves(h, q, cfg.policy.value, cfg.arbitration.value, cfg.context, cfg.gate.value);
        OpenNumbered(h, s, PlanOrder(h, q, cfg.policy.value, cfg.arbitration.value, cfg.context, cfg.gate.value).value.intent);
      case ExitCommand(entry, m, sha) =>
        var q := ExitRequest(sha, entry, Reduce(h, entry, EventsOf(s.operations, h.intent(entry))).value, m, s.ledger);
        ReplayBooks(h, s.Ground(), s.operations);
        LedgerOfBooks(h, s);
        assert Order(entry).Valid() by { MemberValid(s.operations, Order(entry)); }
        ReadyExitReserves(h, q, cfg.policy.value, cfg.context);
        OpenNumbered(h, s, PlanExit(h, q, cfg.policy.value, cfg.context).value.intent);
      case QuoteCommand(m) =>
        var a := Allocation(s, QuoteBudgets(Cursor(s.markets, m.symbol), m));
        var orders := SortOrders(h, IntentsOf(s.operations));
        OfferNumbered(h, cfg.policy.value, cfg.context, m, a, orders);
        FinishIdle(h, s, OfferAll(h, cfg.policy.value, cfg.context, m, a, orders).value.session.(markets := PlaceMarket(s.markets, m)));
      case ClockCommand(at) =>
        ExpireNumbered(h, s, IntentsOf(s.operations), at);
        FinishIdle(h, s, ExpireAll(h, s, IntentsOf(s.operations), at).value);
      case CancelCommand(i, at, reason) =>
        var events := EventsOf(s.operations, h.intent(i));
        LifecycleCounts(h, i, events, Cancelled, at, Some(reason), None);
        LifecycleValid(h, i, events, Cancelled, at, Some(reason), None);
        var e := LifecycleEvent(h, i, events, Cancelled, at, Some(reason), None).value;
        AppendNumbered(h, s, Report(e));
        FinishIdle(h, s, Append(h, s, Report(e)).value);
    }
  }

  /** In every reachable session each order's events are numbered one by one. */
  lemma {:induction false} RunNumbered(h: Digests, cfg: Configuration, s: Session, commands: seq<Command>)
    requires cfg.Valid() && Initial(s) && CommandsValid(commands)
    ensures Numbered(Run(h, cfg, s, commands).operations)
  {
    hide Apply, Sound, Initial, Numbered;
    if commands == [] {
      assert Numbered(s.operations) by { NothingNumbered(s); }
    } else {
      var front, last := commands[..|commands| - 1], commands[|commands| - 1];
      RunNumbered(h, cfg, s, front);
      RunHealthy(h, cfg, s, front);
      if Apply(h, cfg, Run(h, cfg, s, front), last).Ok? { ApplyNumbered(h, cfg, Run(h, cfg, s, front), last); }
    }
  }

  lemma NothingNumbered(s: Session)
    requires Initial(s)
    ensures Numbered(s.operations)
  {}

  // ----- Exactly when the clock and a cancellation are refused -----

  /** The log never moved later than its last operation. */
  lemma {:induction false} EventTimes(h: Digests, g: Base, ops: seq<Operation>, i: Intent)
    requires ReplayAll(h, g, ops).Ok? && Order(i) in ops && AllOpsValid(ops)
    ensures LastInstant(i, EventsOf(ops, h.intent(i))) <= ReplayAll(h, g, ops).value.lastAt
  {
    hide Reduce, Settle, Reserve, SpendLiquidity, Operation.Valid, Linked, FindOrder;
    var front, last := ops[..|ops| - 1], ops[|ops| - 1];
    assert ops == front + [last];
    if Order(i) in front {
      EventTimes(h, g, front, i);
    } else {
      assert last == Order(i);
      assert EventsOf(front, h.intent(i)) == [] by { UnknownOrder(h, g, front, h.intent(i)); }
    }
  }

  lemma UnknownOrder(h: Digests, g: Base, ops: seq<Operation>, sha: Digest)
    requires ReplayAll(h, g, ops).Ok? && AllOpsValid(ops) && sha !in ReplayAll(h, g, ops).value.intents
    ensures EventsOf(ops, sha) == []
  {
    hide ReplayAll, EventsOf, Reduce, FindOrder;
    ReplayLinked(h, g, ops);
  }

  /** One more event without a fill, on a reachable session. */
  lemma AppendHealthy(h: Digests, cfg: Configuration, s: Session, i: Intent, e: Event)
    requires Healthy(h, cfg, s) && Order(i) in s.operations && e.Valid() && e.intentSha == h.intent(i) && e.fill.None?
    requires Reduce(h, i, EventsOf(s.operations, h.intent(i)) + [e]).Ok? && LastAt(s) <= e.occurredAt
    ensures Append(h, s, Report(e)).Ok?
    ensures var n := Append(h, s, Report(e)).value; Healthy(h, cfg, n) && LastAt(n) == e.occurredAt && n.operations == s.operations + [Report(e)]
  {
    hide Reduce, EventsOf, Settle, ReplayAll, FindOrder, AllOpsValid, AllPlanned, Event.Valid, MarketsOrdered, Books;
    OrderReduces(h, s, i);
    SettlementNeverFails(h, cfg, s, e);
    var n := Append(h, s, Report(e)).value;
    SameDay(h, s, Report(e));
    var w := Watch(cfg, s.Ground(), true);
    NoFillPlanned(w, e);
    OperationsAppended(s.operations, Report(e));
    assert Report(e).Valid();
    ReplayLastAt(h, s);
    ReplayLonger(h, s.Ground(), s.operations, Report(e));
    ReplayLinked(h, s.Ground(), s.operations);
    FoundIn(h, s.Ground(), s.operations, i);
  }

  /** The clock's own events meet no digest collision. */
  ghost predicate ClockFresh(h: Digests, s: Session, orders: seq<Intent>, at: Instant) {
    forall k :: 0 <= k < |orders| && Live(h, s, orders[k]) && orders[k].expiresAt <= at ==>
      Reduce(h, orders[k], EventsOf(s.operations, h.intent(orders[k]))).Ok?
      && NewDigests(h, EventsOf(s.operations, h.intent(orders[k])),
               ClosingEvent(h, orders[k], EventsOf(s.operations, h.intent(orders[k])), Expired, at, "TIME_IN_FORCE"))
  }

  /** Closing one live order of a reachable session, in time. */
  lemma ClosesHealthy(h: Digests, cfg: Configuration, s: Session, i: Intent, kind: Status, at: Instant, reason: string)
    requires Healthy(h, cfg, s) && Order(i) in s.operations && Live(h, s, i) && (kind.Expired? || kind.Cancelled?)
    requires Counted(EventsOf(s.operations, h.intent(i)))
    requires NewDigests(h, EventsOf(s.operations, h.intent(i)), ClosingEvent(h, i, EventsOf(s.operations, h.intent(i)), kind, at, reason))
    requires LastAt(s) <= at && !Blank(reason) && (if kind.Expired? then i.expiresAt <= at else EventsOf(s.operations, h.intent(i)) != [])
    ensures LifecycleEvent(h, i, EventsOf(s.operations, h.intent(i)), kind, at, Some(reason), None).Ok?
    ensures var e := LifecycleEvent(h, i, EventsOf(s.operations, h.intent(i)), kind, at, Some(reason), None).value;
            && Append(h, s, Report(e)).Ok? && Healthy(h, cfg, Append(h, s, Report(e)).value) && LastAt(Append(h, s, Report(e)).value) == at
            && Append(h, s, Report(e)).value.operations == s.operations + [Report(e)]
  {
    hide Reduce, EventsOf, Append, ReplayAll, FindOrder, AllOpsValid, AllPlanned, Event.Valid, Counted, NewDigests, ClosingEvent, Blank, Intent.Valid, AllValid, LastAt, LastInstant;
    var events := EventsOf(s.operations, h.intent(i));
    OrderReduces(h, s, i);
    EventTimes(h, s.Ground(), s.operations, i);
    ReplayLastAt(h, s);
    ClosesExactly(h, i, events, kind, at, reason);
    LifecycleValid(h, i, events, kind, at, Some(reason), None);
    AppendHealthy(h, cfg, s, i, LifecycleEvent(h, i, events, kind, at, Some(reason), None).value);
  }

  lemma {:induction false} ClockRuns(h: Digests, cfg: Configuration, s: Session, orders: seq<Intent>, at: Instant)
    requires Healthy(h, cfg, s) && Numbered(s.operations) && LastAt(s) <= at
    requires QuotePriority.Distinct(h, orders) && forall i :: i in orders ==> Order(i) in s.operations
    requires ClockFresh(h, s, orders, at)
    ensures ExpireAll(h, s, orders, at).Ok?
    ensures var n := ExpireAll(h, s, orders, at).value; Healthy(h, cfg, n) && LastAt(n) <= at && Extends(s, n)
  {
    hide Reduce, EventsOf, Append, LifecycleEvent, Healthy, LastAt, NewDigests, ClosingEvent, Counted, Shas;
    if orders == [] {
      SelfExtends(s);
    } else {
      var k := |orders| - 1;
      var front, i := orders[..k], orders[k];
      OneMoreSha(h, orders);
      assert orders == front + [i];
      ClockRuns(h, cfg, s, front, at);
      ExpiresEach(h, s, front, at);
      var before := ExpireAll(h, s, front, at).value;
      assert EventsOf(before.operations, h.intent(i)) == EventsOf(s.operations, h.intent(i));
      assert Order(i) in before.operations by { assert Order(i) in s.operations && before.operations[..|s.operations|] == s.operations; }
      assert Reduce(h, i, EventsOf(s.operations, h.intent(i))).Ok? by { HealthyReduces(h, cfg, s, i); }
      if Live(h, before, i) && i.expiresAt <= at {
        assert Live(h, s, orders[k]);
        assert !Blank("TIME_IN_FORCE") by { assert "TIME_IN_FORCE"[0] == 'T'; }
        ClosesHealthy(h, cfg, before, i, Expired, at, "TIME_IN_FORCE");
      }
    }
  }

  lemma HealthyReduces(h: Digests, cfg: Configuration, s: Session, i: Intent)
    requires Healthy(h, cfg, s) && Order(i) in s.operations
    ensures Reduce(h, i, EventsOf(s.operations, h.intent(i))).Ok?
  {
    hide Reduce, EventsOf, Sound;
    OrderReduces(h, s, i);
  }

  lemma {:induction false} ClockDates(h: Digests, s: Session, orders: seq<Intent>, at: Instant)
    requires ExpireAll(h, s, orders, at).Ok?
    ensures var n := ExpireAll(h, s, orders, at).value;
            Extends(s, n) && n.Ground() == s.Ground() && forall k :: |s.operations| <= k < |n.operations| ==> n.operations[k].Report? && n.operations[k].At() == at
  {
    hide Reduce, EventsOf, Append, LifecycleEvent;
    if orders != [] {
      var front, i := orders[..|orders| - 1], orders[|orders| - 1];
      ClockDates(h, s, front, at);
      var before := ExpireAll(h, s, front, at).value;
      if ExpireAll(h, s, orders, at).value != before {
        var events := EventsOf(before.operations, h.intent(i));
        LifecycleValid(h, i, events, Expired, at, Some("TIME_IN_FORCE"), None);
        SameDay(h, before, Report(LifecycleEvent(h, i, events, Expired, at, Some("TIME_IN_FORCE"), None).value));
      }
    }
  }

  /** An accepted extension of the log starts no earlier than the log ended. */
  lemma NoRewind(h: Digests, s: Session, current: Session)
    requires Sound(h, s) && Extends(s, current) && current.Ground() == s.Ground() && |current.operations| > |s.operations|
    requires Finish(h, s, current).Ok?
    ensures LastAt(s) <= current.operations[|s.operations|].At()
  {
    hide Reduce, Settle, Reserve, SpendLiquidity, LastAt, AllOpsValid, ReplayOrder, ReplayReport;
    var g, k := s.Ground(), |s.operations|;
    assert current.(revision := s.revision + 1).Ground() == g;
    assert ReplayAll(h, g, current.operations).Ok?;
    ReplayPrefix(h, g, current.operations, k + 1);
    assert current.operations[..k + 1][..k] == s.operations;
    ReplayLastAt(h, s);
  }

  ghost predicate Overdue(h: Digests, s: Session, at: Instant) {
    exists i :: Order(i) in s.operations && Live(h, s, i) && i.expiresAt <= at
  }

  /** On a reachable session, digest collisions aside, the clock is refused exactly when some live order
      is overdue and the clock is behind the log. */
  lemma {:induction false} ClockRefusedExactly(h: Digests, cfg: Configuration, s: Session, at: Instant)
    requires Healthy(h, cfg, s) && Numbered(s.operations) && ClockFresh(h, s, IntentsOf(s.operations), at)
    ensures AdvanceClock(h, s, at).Err? <==> Overdue(h, s, at) && at < LastAt(s)
  {
    hide ExpireAll, Finish, IntentsOf, ReplayAll, LastAt, AllOpsValid, Live, Numbered, ClockFresh, AllPlanned, Ended, Untouched, Released;
    var orders := IntentsOf(s.operations);
    LogDistinct(h, s.Ground(), s.operations);
    IntentsMean(s.operations);
    if LastAt(s) <= at {
      ClockRuns(h, cfg, s, orders, at);
      FinishHealthy(h, cfg, s, ExpireAll(h, s, orders, at).value);
    } else if !Overdue(h, s, at) {
      forall i | i in orders ensures !(Live(h, s, i) && i.expiresAt <= at) { assert Order(i) in s.operations; }
      NobodyExpires(h, cfg, s, orders, at);
      assert Finish(h, s, s) == Ok(s) by { FinishSame(h, s); }
    } else if AdvanceClock(h, s, at).Ok? {
      var i :| Order(i) in s.operations && Live(h, s, i) && i.expiresAt <= at;
      ClockExpires(h, s, at);
      assert Ended(h, s, AdvanceClock(h, s, at).value, i, Expired, at);
      var late := ExpireAll(h, s, orders, at).value;
      ClockDates(h, s, orders, at);
      FinishIdle(h, s, late);
      assert |late.operations| > |s.operations| by { EndedLonger(h, s, AdvanceClock(h, s, at).value, i, at); }
      NoRewind(h, s, late);
    }
  }

  lemma EndedLonger(h: Digests, s: Session, n: Session, i: Intent, at: Instant)
    requires Ended(h, s, n, i, Expired, at) && Extends(s, n)
    ensures |n.operations| > |s.operations|
  {
    assert |n.operations| == |s.operations| ==> n.operations == s.operations;
  }

  lemma FinishSame(h: Digests, s: Session)
    ensures Finish(h, s, s) == Ok(s)
  {}

  lemma FinishHealthy(h: Digests, cfg: Configuration, s: Session, current: Session)
    requires Healthy(h, cfg, current)
    ensures Finish(h, s, current).Ok?
  {
    hide ReplayAll, AllOpsValid, AllPlanned, MarketsOrdered;
    assert current.(revision := s.revision + 1).Ground() == current.Ground();
  }

  lemma {:induction false} NobodyExpires(h: Digests, cfg: Configuration, s: Session, orders: seq<Intent>, at: Instant)
    requires Healthy(h, cfg, s) && forall i :: i in orders ==> Order(i) in s.operations && !(Live(h, s, i) && i.expiresAt <= at)
    ensures ExpireAll(h, s, orders, at) == Ok(s)
  {
    hide Reduce, EventsOf, Append, LifecycleEvent, Healthy;
    if orders != [] {
      var front, i := orders[..|orders| - 1], orders[|orders| - 1];
      assert orders == front + [i];
      NobodyExpires(h, cfg, s, front, at);
      HealthyReduces(h, cfg, s, i);
    }
  }

  // ----- Cancellation -----

  /** A cancellation of a live order of a reachable session, digest collisions aside, is accepted exactly
      when it is in time order, gives a reason and the order was accepted; it then ends the order
      CANCELLED, releases what was reserved for it and touches no other order. */
  lemma {:induction false} CancelExactly(h: Digests, cfg: Configuration, s: Session, i: Intent, at: Instant, reason: string)
    requires Healthy(h, cfg, s) && Numbered(s.operations) && Order(i) in s.operations && Live(h, s, i)
    requires NewDigests(h, EventsOf(s.operations, h.intent(i)), ClosingEvent(h, i, EventsOf(s.operations, h.intent(i)), Cancelled, at, reason))
    ensures CancelOrder(h, s, i, at, reason).Ok? <==> LastAt(s) <= at && !Blank(reason) && EventsOf(s.operations, h.intent(i)) != []
    ensures CancelOrder(h, s, i, at, reason).Ok? ==>
              var n := CancelOrder(h, s, i, at, reason).value;
              && Ended(h, s, n, i, Cancelled, at) && Released(n, h.intent(i)) && n.revision == s.revision + 1
              && IntentsOf(n.operations) == IntentsOf(s.operations)
              && forall sha :: sha != h.intent(i) ==> EventsOf(n.operations, sha) == EventsOf(s.operations, sha)
  {
    hide Reduce, EventsOf, Append, LifecycleEvent, Finish, Healthy, LastAt, LastInstant, NewDigests, ClosingEvent, Counted, Ended, Released, IntentsOf, Blank, AllValid, Intent.Valid;
    var events := EventsOf(s.operations, h.intent(i));
    assert Sound(h, s) by { HealthySound(h, cfg, s); }
    hide Sound;
    OrderReduces(h, s, i);
    assert Counted(events);
    if LastAt(s) <= at && !Blank(reason) && events != [] {
      ClosesHealthy(h, cfg, s, i, Cancelled, at, reason);
      FinishHealthy(h, cfg, s, Append(h, s, Report(LifecycleEvent(h, i, events, Cancelled, at, Some(reason), None).value)).value);
    }
    if CancelOrder(h, s, i, at, reason).Ok? {
      var e := LifecycleEvent(h, i, events, Cancelled, at, Some(reason), None).value;
      var current, n := Append(h, s, Report(e)).value, CancelOrder(h, s, i, at, reason).value;
      ClosesExactly(h, i, events, Cancelled, at, reason);
      LifecycleEnds(h, s, i, Cancelled, at, reason);
      LifecycleValid(h, i, events, Cancelled, at, Some(reason), None);
      SameDay(h, s, Report(e));
      FinishIdle(h, s, current);
      ReportKeepsOrders(s.operations, e);
      assert current.operations[..|s.operations|] == s.operations && current.operations[|s.operations|] == Report(e);
      NoRewind(h, s, current);
      CancelEnds(h, cfg, s, i, at, reason, current);
    }
  }

  lemma HealthySound(h: Digests, cfg: Configuration, s: Session)
    requires Healthy(h, cfg, s)
    ensures Sound(h, s)
  {}

  lemma CancelEnds(h: Digests, cfg: Configuration, s: Session, i: Intent, at: Instant, reason: string, current: Session)
    requires Sound(h, s) && Order(i) in s.operations && CancelOrder(h, s, i, at, reason).Ok?
    requires Ended(h, s, current, i, Cancelled, at) && |current.operations| > |s.operations|
    requires CancelOrder(h, s, i, at, reason) == Finish(h, s, current) && current.operations[..|s.operations|] == s.operations
    ensures var n := CancelOrder(h, s, i, at, reason).value;
            Ended(h, s, n, i, Cancelled, at) && Released(n, h.intent(i)) && n.revision == s.revision + 1
  {
    hide Reduce, EventsOf, CancelOrder, Sound, Released, ReplayAll;
    var n := CancelOrder(h, s, i, at, reason).value;
    FinishIdle(h, s, current);
    assert n.revision == s.revision + 1;
    var none := Configuration(None, None, None, ContextPolicy(0, 0, None, {}), Lineage(0, 0, 0), 0);
    assert Sound(h, n) by { LedgerNeverDrifts(h, none, s, CancelCommand(i, at, reason)); }
    assert Order(i) in n.operations by { assert n.operations[..|s.operations|] == s.operations; }
    DoneReleases(h, n, i);
  }
}
