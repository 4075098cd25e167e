/** Which entries a session takes: exactly the admitted, allowed and timely ones, over every run. */
module SessionLimits {
  import opened Prelude
  import opened PaperModel
  import opened OrderReducer
  import LedgerParts
  import opened SessionLog
  import opened Planner
  import opened Matching
  import opened PlannerExact
  import opened PaperSession
  import opened SessionSafety
  import opened SessionGuards
  import opened SessionHistory
  import opened SessionSubmission
  import opened QuoteAllocation
  import opened QuoteExecution
  import opened ClosingExact

  /** The versions match and the quote, the shares and the risk limits allow the entry, on this ledger. */
  predicate Allowed(cfg: Configuration, q: Request, l: Ledger) {
    && cfg.policy.Some? && cfg.gate.Some? && cfg.arbitration.Some?
    && SameVersions(q, cfg.policy.value, cfg.arbitration.value, cfg.context, cfg.gate.value)
    && QuoteAllows(q, cfg.policy.value, cfg.context) && SharesAllow(l, q.symbol, cfg.policy.value.orderQuantity)
    && RiskAllows(q, cfg.policy.value, l) && q.priority.Some?
  }

  /** The readiness report and the session agree with the request. */
  predicate Admitted(cfg: Configuration, account: Account, costs: CostPolicy, day: Day, q: Request, ready: Readiness) {
    && ready.paper && ready.promotion == Some(q.promotion) && ready.lineage == Some(cfg.lineage)
    && ready.previousSession < ready.tradeDate == q.tradeDate == day
    && q.account == account && q.costs == costs
    && q.baselineVersion == cfg.lineage.baselineVersion && q.contextSha == cfg.lineage.contextSha
  }

  /** A submission takes its entry if and only if it is admitted, the first of its arbitration, planned on
      the current ledger, allowed, and no older than the log. Anything else leaves the session alone. */
  lemma {:induction false} EntryTakenExactly(h: Digests, cfg: Configuration, s: Session, q: Request, ready: Readiness)
    requires Sound(h, s) && q.Valid() && cfg.Valid()
    requires forall i :: Allowed(cfg, q, s.ledger) && EntryAsRequested(h, q, cfg.policy.value, i) ==> NoCollision(h, s.Ground(), s.operations, i, s.ledger)
    ensures var r := SubmitEntry(h, cfg, s, q, ready);
            && (r.Ok? && r.value != s <==>
                  && Admitted(cfg, s.account, s.costs, s.ledger.tradeDate, q, ready) && !Entered(s.operations, q.arbitration)
                  && q.resources == s.ledger && Allowed(cfg, q, s.ledger) && LastAt(s) <= q.market.observedAt)
            && (!ready.paper ==> r == Ok(s))
            && (Admitted(cfg, s.account, s.costs, s.ledger.tradeDate, q, ready) && Entered(s.operations, q.arbitration) ==> r == Ok(s))
            && (r.Ok? && r.value != s ==>
                  && |r.value.operations| == |s.operations| + 2 && r.value.operations[..|s.operations|] == s.operations
                  && r.value.operations[|s.operations|].Order? && r.value.operations[|s.operations| + 1].Report?
                  && EntryAsRequested(h, q, cfg.policy.value, r.value.operations[|s.operations|].intent))
  {
    hide OpenAccepted, PlanOrder, ReplayAll, NoCollision, LastAt, Request.Valid, SameVersions, QuoteAllows, SharesAllow, RiskAllows, EntryAsRequested, AllOpsValid, Reserve;
    var r := SubmitEntry(h, cfg, s, q, ready);
    if Admitted(cfg, s.account, s.costs, s.ledger.tradeDate, q, ready) && !Entered(s.operations, q.arbitration)
       && q.resources == s.ledger && cfg.policy.Some? && cfg.gate.Some? && cfg.arbitration.Some? {
      assert EntryAdmitted(cfg, s, q, ready);
      ReadyEntryExactly(h, q, cfg.policy.value, cfg.arbitration.value, cfg.context, cfg.gate.value);
      if Allowed(cfg, q, s.ledger) {
        EntrySubmittedExactly(h, cfg, s, q, ready);
      }
    }
  }

  // ----- Over every run -----

  predicate EntryAt(ops: seq<Operation>, k: int) {
    0 <= k < |ops| && ops[k].Order? && ops[k].intent.leg == Entry
  }

  /** The order is what this request asked for, admitted and allowed on the ledger the log had reached, and
      the first of its arbitration. */
  ghost predicate Passed(h: Digests, cfg: Configuration, g: Base, before: seq<Operation>, q: Request, ready: Readiness, i: Intent) {
    && Admitted(cfg, g.account, g.costs, g.tradeDate, q, ready) && !Entered(before, q.arbitration)
    && ReplayAll(h, g, before).Ok? && q.resources == ReplayAll(h, g, before).value.ledger
    && Allowed(cfg, q, ReplayAll(h, g, before).value.ledger) && EntryAsRequested(h, q, cfg.policy.value, i)
  }

  lemma OpenAdds(h: Digests, s: Session, i: Intent)
    requires OpenAccepted(h, s, i).Ok?
    ensures var ops := OpenAccepted(h, s, i).value.operations;
            |ops| == |s.operations| + 2 && ops[..|s.operations|] == s.operations && ops[|s.operations|] == Order(i) && ops[|s.operations| + 1].Report?
  {
    hide Append, LifecycleEvent, Finish;
    var reserved := Append(h, s, Order(i)).value;
    var e := LifecycleEvent(h, i, [], Accepted, i.createdAt, None, None).value;
    SameDay(h, s, Order(i));
    SameDay(h, reserved, Report(e));
    FinishIdle(h, s, Append(h, reserved, Report(e)).value);
  }

  lemma EntryPasses(h: Digests, cfg: Configuration, s: Session, q: Request, ready: Readiness)
    requires cfg.Valid() && Sound(h, s) && q.Valid() && SubmitEntry(h, cfg, s, q, ready).Ok? && SubmitEntry(h, cfg, s, q, ready).value != s
    ensures var ops := SubmitEntry(h, cfg, s, q, ready).value.operations;
            && |ops| == |s.operations| + 2 && ops[..|s.operations|] == s.operations && ops[|s.operations|].Order? && ops[|s.operations| + 1].Report?
            && Passed(h, cfg, s.Ground(), s.operations, q, ready, ops[|s.operations|].intent)
  {
    hide OpenAccepted, PlanOrder, ReplayAll, Request.Valid, SameVersions, QuoteAllows, SharesAllow, RiskAllows, EntryAsRequested, AllOpsValid;
    ReadyEntryExactly(h, q, cfg.policy.value, cfg.arbitration.value, cfg.context, cfg.gate.value);
    OpenAdds(h, s, PlanOrder(h, q, cfg.policy.value, cfg.arbitration.value, cfg.context, cfg.gate.value).value.intent);
  }

  lemma ExitAdds(h: Digests, cfg: Configuration, s: Session, entry: Intent, m: Market, sha: Digest)
    requires SubmitExit(h, cfg, s, entry, m, sha).Ok? && SubmitExit(h, cfg, s, entry, m, sha).value != s
    ensures var ops := SubmitExit(h, cfg, s, entry, m, sha).value.operations;
            forall k :: |s.operations| <= k < |ops| ==> !EntryAt(ops, k)
  {
    hide OpenAccepted, Reduce, EventsOf, ExitReasons, LedgerParts.EntryMatches, ExitRequestValid;
    var q := ExitRequest(sha, entry, Reduce(h, entry, EventsOf(s.operations, h.intent(entry))).value, m, s.ledger);
    OpenAdds(h, s, PlanExit(h, q, cfg.policy.value, cfg.context).value.intent);
  }

  lemma CancelAdds(h: Digests, s: Session, i: Intent, at: Instant, reason: string)
    requires CancelOrder(h, s, i, at, reason).Ok?
    ensures var ops := CancelOrder(h, s, i, at, reason).value.operations;
            forall k :: |s.operations| <= k < |ops| ==> !EntryAt(ops, k)
  {
    hide Append, LifecycleEvent, Finish, Reduce, EventsOf;
    if CancelOrder(h, s, i, at, reason).value != s {
      var e := LifecycleEvent(h, i, EventsOf(s.operations, h.intent(i)), Cancelled, at, Some(reason), None).value;
      SameDay(h, s, Report(e));
      FinishIdle(h, s, Append(h, s, Report(e)).value);
    }
  }

  lemma QuoteReports(h: Digests, cfg: Configuration, s: Session, m: Market)
    requires cfg.Valid() && Sound(h, s) && ProcessQuote(h, cfg, s, m).Ok?
    ensures var ops := ProcessQuote(h, cfg, s, m).value.operations;
            forall k :: |s.operations| <= k < |ops| ==> !EntryAt(ops, k)
  {
    hide ProcessQuote, Sound;
    QuoteAdds(h, cfg, s, m);
  }

  /** An entry one command adds is the one it asked for. */
  lemma {:induction false} CommandPasses(h: Digests, cfg: Configuration, s: Session, c: Command, k: nat)
    requires cfg.Valid() && Sound(h, s) && c.Valid() && Apply(h, cfg, s, c).Ok?
    requires |s.operations| <= k && EntryAt(Apply(h, cfg, s, c).value.operations, k)
    ensures c.EntryCommand? && k == |s.operations|
    ensures Passed(h, cfg, s.Ground(), s.operations, c.request, c.readiness, Apply(h, cfg, s, c).value.operations[k].intent)
  {
    hide SubmitEntry, SubmitExit, ProcessQuote, ExpireAll, Finish, CancelOrder, Passed, Request.Valid, Market.Valid, IntentsOf, Sound;
    match c
    case EntryCommand(q, ready) => EntryPasses(h, cfg, s, q, ready);
    case ExitCommand(entry, m, sha) => ExitAdds(h, cfg, s, entry, m, sha);
    case QuoteCommand(m) => QuoteReports(h, cfg, s, m);
    case ClockCommand(at) =>
      var orders := IntentsOf(s.operations);
      ClockDates(h, s, orders, at);
      FinishIdle(h, s, ExpireAll(h, s, orders, at).value);
    case CancelCommand(i, at, reason) => CancelAdds(h, s, i, at, reason);
  }

  /** Some command of the run asked for the entry at `k`, and the ledger just before it allowed it. */
  ghost predicate AskedFor(h: Digests, cfg: Configuration, g: Base, commands: seq<Command>, ops: seq<Operation>, k: nat)
    requires EntryAt(ops, k)
  {
    exists j :: 0 <= j < |commands| && AskedBy(h, cfg, g, commands[j], ops[..k], ops[k].intent)
  }

  ghost predicate AskedBy(h: Digests, cfg: Configuration, g: Base, c: Command, before: seq<Operation>, i: Intent) {
    c.EntryCommand? && Passed(h, cfg, g, before, c.request, c.readiness, i)
  }

  /** Every entry of every reachable log was asked for by a command whose versions, quote, shares and risk
      limits allowed it on the ledger the log had at that point. */
  lemma {:induction false} EntriesWithinLimits(h: Digests, cfg: Configuration, s: Session, commands: seq<Command>, k: nat)
    requires cfg.Valid() && Initial(s) && CommandsValid(commands) && EntryAt(Run(h, cfg, s, commands).operations, k)
    ensures AskedFor(h, cfg, s.Ground(), commands, Run(h, cfg, s, commands).operations, k)
  {
    hide Apply, Sound, AskedBy, Initial;
    if commands == [] {
      NothingYet(s);
    } else {
      var front, last := commands[..|commands| - 1], commands[|commands| - 1];
      var before, n := Run(h, cfg, s, front), Run(h, cfg, s, commands);
      RunHealthy(h, cfg, s, front);
      if Apply(h, cfg, before, last).Ok? { ApplyExtends(h, cfg, before, last); }
      if k < |before.operations| {
        assert before.operations[k] == n.operations[k] && before.operations[..k] == n.operations[..k];
        EntriesWithinLimits(h, cfg, s, front, k);
        var j :| 0 <= j < |front| && AskedBy(h, cfg, s.Ground(), front[j], before.operations[..k], before.operations[k].intent);
        assert commands[j] == front[j];
      } else {
        CommandPasses(h, cfg, before, last, k);
        assert n.operations[..k] == before.operations;
        assert AskedBy(h, cfg, s.Ground(), commands[|commands| - 1], n.operations[..k], n.operations[k].intent) by { ByThis(h, cfg, s.Ground(), last, before.operations, n.operations[k].intent); }
      }
    }
  }

  lemma ByThis(h: Digests, cfg: Configuration, g: Base, c: Command, before: seq<Operation>, i: Intent)
    requires c.EntryCommand? && Passed(h, cfg, g, before, c.request, c.readiness, i)
    ensures AskedBy(h, cfg, g, c, before, i)
  {}

  lemma NothingYet(s: Session)
    requires Initial(s)
    ensures s.operations == []
  {}
}
