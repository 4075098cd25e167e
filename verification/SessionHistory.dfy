/** What a transition does to the log: it only appends, and never the same operation twice. */
module SessionHistory {
  import opened Prelude
  import opened PaperModel
  import opened OrderReducer
  import opened SessionLog
  import opened Planner
  import opened Matching
  import opened PaperSession
  import opened SessionSafety

  predicate Extends(s: Session, n: Session) {
    |s.operations| <= |n.operations| && n.operations[..|s.operations|] == s.operations
  }

  lemma ExtendsTwice(a: Session, b: Session, c: Session)
    requires Extends(a, b) && Extends(b, c)
    ensures Extends(a, c)
  {
    assert c.operations[..|a.operations|] == b.operations[..|a.operations|];
  }

  lemma AppendExtends(h: Digests, s: Session, op: Operation)
    requires Append(h, s, op).Ok?
    ensures Extends(s, Append(h, s, op).value)
  {
    hide Append;
    SameDay(h, s, op);
  }

  lemma FinishExtends(h: Digests, s: Session, current: Session)
    requires Extends(s, current) && Finish(h, s, current).Ok?
    ensures var n := Finish(h, s, current).value; Extends(s, n) && (n == s || n.revision == s.revision + 1)
  {
    hide ReplayAll;
  }

  lemma {:induction false} OpenExtends(h: Digests, s: Session, intent: Intent)
    requires OpenAccepted(h, s, intent).Ok?
    ensures var n := OpenAccepted(h, s, intent).value; Extends(s, n) && (n == s || n.revision == s.revision + 1)
  {
    hide Append, LifecycleEvent, Finish, Extends;
    var reserved := Append(h, s, Order(intent)).value;
    var accepted := LifecycleEvent(h, intent, [], Accepted, intent.createdAt, None, None).value;
    var live := Append(h, reserved, Report(accepted)).value;
    AppendExtends(h, s, Order(intent));
    AppendExtends(h, reserved, Report(accepted));
    ExtendsTwice(s, reserved, live);
    FinishExtends(h, s, live);
  }

  lemma {:induction false} ExpireExtends(h: Digests, s: Session, orders: seq<Intent>, at: Instant)
    requires ExpireAll(h, s, orders, at).Ok?
    ensures Extends(s, ExpireAll(h, s, orders, at).value)
  {
    hide Append, LifecycleEvent, Reduce, EventsOf;
    if orders != [] {
      var front, intent := orders[..|orders| - 1], orders[|orders| - 1];
      ExpireExtends(h, s, front, at);
      var before, after := ExpireAll(h, s, front, at).value, ExpireAll(h, s, orders, at).value;
      if after != before {
        var e := LifecycleEvent(h, intent, EventsOf(before.operations, h.intent(intent)), Expired, at, Some("TIME_IN_FORCE"), None);
        AppendExtends(h, before, Report(e.value));
        ExtendsTwice(s, before, after);
      }
    }
  }

  lemma {:induction false} OfferExtends(h: Digests, policy: Policy, context: ContextPolicy, market: Market, a: Allocation, orders: seq<Intent>)
    requires policy.lotSize >= 1 && OfferAll(h, policy, context, market, a, orders).Ok?
    ensures Extends(a.session, OfferAll(h, policy, context, market, a, orders).value.session)
  {
    hide Append, MatchQuote, EventsOf;
    if orders != [] {
      var front, intent := orders[..|orders| - 1], orders[|orders| - 1];
      OfferExtends(h, policy, context, market, a, front);
      var before, after := OfferAll(h, policy, context, market, a, front).value, OfferAll(h, policy, context, market, a, orders).value;
      if after != before {
        var e := MatchQuote(h, intent, EventsOf(before.session.operations, h.intent(intent)), market, policy, context,
                            before.budgets.Of(intent.action)).value;
        AppendExtends(h, before.session, Report(e.value));
        ExtendsTwice(a.session, before.session, after.session);
      }
    }
  }

  /** Every command either changes nothing or raises the revision by one and only appends to the log. */
  lemma {:induction false} ApplyExtends(h: Digests, cfg: Configuration, s: Session, c: Command)
    requires cfg.Valid() && Apply(h, cfg, s, c).Ok?
    ensures var n := Apply(h, cfg, s, c).value; Extends(s, n) && (n == s || n.revision == s.revision + 1)
  {
    hide Append, LifecycleEvent, Finish, ExpireAll, OfferAll, Reduce, EventsOf, IntentsOf, SortOrders, OpenAccepted, PlanOrder, PlanExit, PlaceMarket, Extends;
    var n := Apply(h, cfg, s, c).value;
    assert Extends(s, s) by { SelfExtends(s); }
    if n != s {
      match c
      case EntryCommand(q, ready) =>
        OpenExtends(h, s, PlanOrder(h, q, cfg.policy.value, cfg.arbitration.value, cfg.context, cfg.gate.value).value.intent);
      case ExitCommand(entry, m, sha) =>
        var state := Reduce(h, entry, EventsOf(s.operations, h.intent(entry))).value;
        OpenExtends(h, s, PlanExit(h, ExitRequest(sha, entry, state, m, s.ledger), cfg.policy.value, cfg.context).value.intent);
      case QuoteCommand(m) =>
        var a := Allocation(s, QuoteBudgets(Cursor(s.markets, m.symbol), m));
        var orders := SortOrders(h, IntentsOf(s.operations));
        OfferExtends(h, cfg.policy.value, cfg.context, m, a, orders);
        var last := OfferAll(h, cfg.policy.value, cfg.context, m, a, orders).value.session;
        SameLog(s, last, last.(markets := PlaceMarket(s.markets, m)));
        FinishExtends(h, s, last.(markets := PlaceMarket(s.markets, m)));
      case ClockCommand(at) =>
        ExpireExtends(h, s, IntentsOf(s.operations), at);
        FinishExtends(h, s, ExpireAll(h, s, IntentsOf(s.operations), at).value);
      case CancelCommand(i, at, reason) =>
        var e := LifecycleEvent(h, i, EventsOf(s.operations, h.intent(i)), Cancelled, at, Some(reason), None).value;
        AppendExtends(h, s, Report(e));
        FinishExtends(h, s, Append(h, s, Report(e)).value);
    }
  }

  lemma SelfExtends(s: Session)
    ensures Extends(s, s)
  {}

  lemma SameLog(s: Session, a: Session, b: Session)
    requires Extends(s, a) && a.operations == b.operations
    ensures Extends(s, b)
  {}

  // ----- No operation twice -----

  predicate NoRepeats(ops: seq<Operation>) {
    forall i, j :: 0 <= i < j < |ops| ==> ops[i] != ops[j]
  }

  lemma {:induction false} HashesRecorded(h: Digests, intent: Intent, events: seq<Event>)
    requires RunFold(h, intent, events, true).Ok?
    ensures forall e :: e in events ==> h.event(e) in RunFold(h, intent, events, true).value.hashes
  {
    hide HistoryError, DeadlineError, OutsideLimit;
    if events != [] {
      HashesRecorded(h, intent, events[..|events| - 1]);
    }
  }

  lemma NewEventOnly(h: Digests, intent: Intent, events: seq<Event>, e: Event)
    requires Reduce(h, intent, events + [e]).Ok?
    ensures e !in events
  {
    hide EvidenceError, DeadlineError, OutsideLimit;
    assert (events + [e])[..|events|] == events;
    HashesRecorded(h, intent, events);
  }

  lemma EventKeys(h: Digests, g: Base, ops: seq<Operation>)
    requires ReplayAll(h, g, ops).Ok? && AllOpsValid(ops)
    ensures ReplayAll(h, g, ops).value.events.Keys == ReplayAll(h, g, ops).value.intents.Keys
  {
    hide ReplayAll;
    ReplayLinked(h, g, ops);
  }

  /** An accepted log never holds the same operation twice. */
  lemma {:induction false} ReplayNoRepeats(h: Digests, g: Base, ops: seq<Operation>)
    requires ReplayAll(h, g, ops).Ok? && AllOpsValid(ops)
    ensures NoRepeats(ops)
    ensures var r := ReplayAll(h, g, ops).value;
            forall op :: op in ops ==>
              match op
              case Order(i) => h.intent(i) in r.intents
              case Report(e) => e.intentSha in r.events && e in r.events[e.intentSha]
  {
    hide Reduce, Settle, Reserve, SpendLiquidity, Operation.Valid;
    if ops != [] {
      var front, last := ops[..|ops| - 1], ops[|ops| - 1];
      ReplayNoRepeats(h, g, front);
      EventKeys(h, g, front);
      var r := ReplayAll(h, g, front).value;
      if last.Report? {
        NewEventOnly(h, r.intents[last.event.intentSha], r.events[last.event.intentSha], last.event);
      }
      assert last !in front;
      assert ops == front + [last];
    }
  }
}
