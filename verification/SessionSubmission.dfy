/** Whole submissions: exactly when a READY plan becomes two operations of the log. */
module SessionSubmission {
  import opened Prelude
  import opened PaperModel
  import opened OrderReducer
  import opened LedgerParts
  import opened PaperLedger
  import opened SessionLog
  import opened SessionBooks
  import opened Planner
  import opened Matching
  import opened PaperSession
  import opened SessionSafety
  import opened SessionGuards

  /** When the log last moved: no operation may be dated earlier. */
  function LastAt(s: Session): Instant {
    if s.operations == [] then s.account.asOf else s.operations[|s.operations| - 1].At()
  }

  lemma ReplayLastAt(h: Digests, s: Session)
    requires ReplayAll(h, s.Ground(), s.operations).Ok?
    ensures ReplayAll(h, s.Ground(), s.operations).value.lastAt == LastAt(s)
  {
    hide Reduce, Settle, Reserve, SpendLiquidity, Initialize;
    if s.operations != [] { hide ReplayAll; ReplayLast(h, s.Ground(), s.operations); }
  }

  lemma ReplayLast(h: Digests, g: Base, ops: seq<Operation>)
    requires ops != [] && ReplayAll(h, g, ops).Ok?
    ensures ReplayAll(h, g, ops).value.lastAt == ops[|ops| - 1].At()
  {
    hide Reduce, Settle, Reserve, SpendLiquidity;
  }

  predicate Entered(ops: seq<Operation>, arbitration: Digest) {
    exists i :: 0 <= i < |ops| && ops[i].Order? && ops[i].intent.leg == Entry && ops[i].intent.arbitration == arbitration
  }

  /** An arbitration the replay has noted has an ENTRY in the log. */
  lemma {:induction false} EntriesReplayed(h: Digests, g: Base, ops: seq<Operation>, arbitration: Digest)
    requires ReplayAll(h, g, ops).Ok? && arbitration in ReplayAll(h, g, ops).value.entries
    ensures Entered(ops, arbitration)
  {
    hide Reduce, Settle, Reserve, SpendLiquidity;
    if ops != [] {
      var front := ops[..|ops| - 1];
      if arbitration in ReplayAll(h, g, front).value.entries {
        EntriesReplayed(h, g, front, arbitration);
        var i :| 0 <= i < |front| && front[i].Order? && front[i].intent.leg == Entry && front[i].intent.arbitration == arbitration;
        assert ops[i] == front[i];
      } else {
        assert ops[|ops| - 1].Order?;
      }
    }
  }

  /** The ACCEPTED event of a new order. */
  function FirstEvent(h: Digests, i: Intent): Event {
    DraftEvent(h, i, OrderState(h.intent(i), Created, 0, None, 0, None), Accepted, i.createdAt, None, None)
  }

  lemma FirstStep(h: Digests, i: Intent)
    requires i.Valid()
    ensures Step(h, i, Start(i), FirstEvent(h, i), true).Ok? && Step(h, i, Start(i), FirstEvent(h, i), true).value.status == Accepted
  {}

  lemma FirstEventFine(h: Digests, i: Intent)
    ensures FirstEvent(h, i).Valid() && FirstEvent(h, i).intentSha == h.intent(i)
    ensures FirstEvent(h, i).occurredAt == i.createdAt && FirstEvent(h, i).fill == None
  {}

  lemma FirstReduced(h: Digests, i: Intent)
    requires i.Valid()
    ensures Reduce(h, i, [FirstEvent(h, i)]).Ok? && !Reduce(h, i, [FirstEvent(h, i)]).value.status.Terminal()
  {
    hide Step, FirstEvent, Intent.Valid, Event.Valid;
    FirstStep(h, i);
    var e := FirstEvent(h, i);
    assert [e][..0] == [];
    assert RunFold(h, i, [], true) == Ok(Start(i));
    assert RunFold(h, i, [e], true) == Step(h, i, Start(i), e, true);
  }

  lemma AcceptsFirst(h: Digests, i: Intent)
    requires i.Valid()
    ensures FirstEvent(h, i).Valid() && FirstEvent(h, i).intentSha == h.intent(i)
    ensures FirstEvent(h, i).occurredAt == i.createdAt && FirstEvent(h, i).fill == None
    ensures Reduce(h, i, [FirstEvent(h, i)]).Ok? && !Reduce(h, i, [FirstEvent(h, i)]).value.status.Terminal()
    ensures LifecycleEvent(h, i, [], Accepted, i.createdAt, None, None) == Ok(FirstEvent(h, i))
  {
    hide Reduce, Intent.Valid, Event.Valid;
    StartAccepted(h, i);
    FirstEventFine(h, i);
    FirstReduced(h, i);
    assert [] + [FirstEvent(h, i)] == [FirstEvent(h, i)];
  }

  /** The session with a new order and its acceptance. */
  function Submitted(h: Digests, s: Session, i: Intent, ledger: Ledger): Session {
    s.(ledger := ledger, revision := s.revision + 1, operations := s.operations + [Order(i), Report(FirstEvent(h, i))])
  }

  /** New to the log, and no second ENTRY of its arbitration. */
  predicate Unused(h: Digests, r: Replay, i: Intent) {
    h.intent(i) !in r.intents && (i.leg == Entry ==> i.arbitration !in r.entries)
  }

  lemma AppendsFirst(h: Digests, s: Session, i: Intent, ledger: Ledger)
    requires ReplayAll(h, s.Ground(), s.operations).Ok? && AllOpsValid(s.operations) && i.Valid()
    requires Unused(h, ReplayAll(h, s.Ground(), s.operations).value, i)
    ensures var reserved := s.(ledger := ledger, operations := s.operations + [Order(i)]);
            Append(h, reserved, Report(FirstEvent(h, i))) == Ok(reserved.(operations := s.operations + [Order(i), Report(FirstEvent(h, i))]))
  {
    hide ReplayAll, Reduce, EventsOf, FindOrder, FirstEvent, Settle, Intent.Valid, AllOpsValid, Event.Valid;
    ReplayLinked(h, s.Ground(), s.operations);
    ReadAppended(h, s.operations, Order(i));
    AcceptsFirst(h, i);
    var e := FirstEvent(h, i);
    assert [] + [e] == [e];
    assert s.operations + [Order(i)] + [Report(e)] == s.operations + [Order(i), Report(e)];
  }

  lemma ReplayLonger(h: Digests, g: Base, ops: seq<Operation>, op: Operation)
    requires ReplayAll(h, g, ops).Ok?
    ensures ReplayAll(h, g, ops + [op]) == ReplayStep(h, g.costs, ReplayAll(h, g, ops).value, op)
  {
    hide ReplayStep;
    assert (ops + [op])[..|ops|] == ops;
  }

  /** Replaying the two new operations: only the clock can refuse them. */
  lemma ReplaysSubmission(h: Digests, g: Base, ops: seq<Operation>, i: Intent)
    requires ReplayAll(h, g, ops).Ok? && i.Valid()
    requires Unused(h, ReplayAll(h, g, ops).value, i) && Reserve(h, ReplayAll(h, g, ops).value.ledger, i).Ok?
    ensures var r := ReplayAll(h, g, ops).value;
            var n := ReplayAll(h, g, ops + [Order(i), Report(FirstEvent(h, i))]);
            if i.createdAt < r.lastAt then n == Err(ClockRewind)
            else n.Ok? && n.value.ledger == Reserve(h, r.ledger, i).value
  {
    hide ReplayAll, Reduce, Reserve, Settle, Intent.Valid, Event.Valid;
    var r, e := ReplayAll(h, g, ops).value, FirstEvent(h, i);
    var one, two := ops + [Order(i)], ops + [Order(i), Report(e)];
    AcceptsFirst(h, i);
    ReplayLonger(h, g, ops, Order(i));
    assert two[..|one|] == one && one + [Report(e)] == two;
    if i.createdAt < r.lastAt {
      ReplayErrorSticks(h, g, two, |one|);
    } else {
      ReplayLonger(h, g, one, Report(e));
      assert [] + [e] == [e];
    }
  }

  /** A new order the ledger accepts is submitted exactly when it is not dated before the log's end. */
  lemma OpensExactly(h: Digests, s: Session, i: Intent)
    requires Sound(h, s) && i.Valid() && Reserve(h, s.ledger, i).Ok?
    requires ReplayAll(h, s.Ground(), s.operations).Ok? && Unused(h, ReplayAll(h, s.Ground(), s.operations).value, i)
    ensures OpenAccepted(h, s, i) == if i.createdAt < LastAt(s) then Err(ClockRewind)
                                     else Ok(Submitted(h, s, i, Reserve(h, s.ledger, i).value))
  {
    hide ReplayAll, Reduce, Reserve, Intent.Valid, AllOpsValid, LifecycleEvent, Unused, FirstEvent, LastAt, MarketsOrdered;
    var ledger := Reserve(h, s.ledger, i).value;
    assert ledger.tradeDate == s.ledger.tradeDate by { SameDay(h, s, Order(i)); }
    AcceptsFirst(h, i);
    AppendsFirst(h, s, i, ledger);
    ReplaysSubmission(h, s.Ground(), s.operations, i);
    ReplayLastAt(h, s);
    var n := Submitted(h, s, i, ledger);
    assert |n.operations| != |s.operations|;
    assert n.Ground() == s.Ground();
  }

  // ----- Entries -----

  /** The checks of an entry submission that come before its plan. */
  predicate EntryAdmitted(cfg: Configuration, s: Session, q: Request, ready: Readiness) {
    && ready.paper && ready.lineage == Some(cfg.lineage) && ready.promotion == Some(q.promotion)
    && ready.previousSession < ready.tradeDate && ready.tradeDate == q.tradeDate == s.ledger.tradeDate
    && q.account == s.account && q.costs == s.costs
    && q.baselineVersion == cfg.lineage.baselineVersion && q.contextSha == cfg.lineage.contextSha
    && !Entered(s.operations, q.arbitration) && q.resources == s.ledger
    && cfg.policy.Some? && cfg.gate.Some? && cfg.arbitration.Some?
  }

  /** An admitted READY entry is submitted, whole, exactly when its market facts are no older than the log. */
  lemma EntrySubmittedExactly(h: Digests, cfg: Configuration, s: Session, q: Request, ready: Readiness)
    requires Sound(h, s) && q.Valid() && cfg.Valid() && EntryAdmitted(cfg, s, q, ready)
    requires PlanOrder(h, q, cfg.policy.value, cfg.arbitration.value, cfg.context, cfg.gate.value).Ok?
    requires PlanOrder(h, q, cfg.policy.value, cfg.arbitration.value, cfg.context, cfg.gate.value).value.Ready?
    requires NoCollision(h, s.Ground(), s.operations,
                         PlanOrder(h, q, cfg.policy.value, cfg.arbitration.value, cfg.context, cfg.gate.value).value.intent, s.ledger)
    ensures var i := PlanOrder(h, q, cfg.policy.value, cfg.arbitration.value, cfg.context, cfg.gate.value).value.intent;
            && Reserve(h, s.ledger, i).Ok?
            && SubmitEntry(h, cfg, s, q, ready) == if q.market.observedAt < LastAt(s) then Err(ClockRewind)
                                                   else Ok(Submitted(h, s, i, Reserve(h, s.ledger, i).value))
  {
    hide ReplayAll, Reserve, OpenAccepted, EntryReasons, NoCollision, Intent.Valid, Request.Valid, AllOpsValid, LastAt, Submitted;
    var i := PlanOrder(h, q, cfg.policy.value, cfg.arbitration.value, cfg.context, cfg.gate.value).value.intent;
    ReadyEntryAppends(h, cfg, s, q);
    ReadyEntryReserves(h, q, cfg.policy.value, cfg.arbitration.value, cfg.context, cfg.gate.value);
    var r := ReplayAll(h, s.Ground(), s.operations).value;
    FreshOrder(h, s.Ground(), s.operations, i);
    if i.arbitration in r.entries { EntriesReplayed(h, s.Ground(), s.operations, i.arbitration); }
    OpensExactly(h, s, i);
  }

  // ----- Exits -----

  /** A READY exit of an open entry is submitted, whole, exactly when its market facts are no older than
      the log. */
  lemma {:induction false} ExitSubmittedExactly(h: Digests, cfg: Configuration, s: Session, entry: Intent, market: Market, sha: Digest)
    requires cfg.Valid() && cfg.policy.Some? && Sound(h, s) && market.Valid() && Order(entry) in s.operations
    requires EntryMatches(s.ledger.reservations, h.intent(entry), Open) != []
    requires Reduce(h, entry, EventsOf(s.operations, h.intent(entry))).Ok?
    requires var q := ExitRequest(sha, entry, Reduce(h, entry, EventsOf(s.operations, h.intent(entry))).value, market, s.ledger);
             && PlanExit(h, q, cfg.policy.value, cfg.context).Ok? && PlanExit(h, q, cfg.policy.value, cfg.context).value.Ready?
             && NoCollision(h, s.Ground(), s.operations, PlanExit(h, q, cfg.policy.value, cfg.context).value.intent, s.ledger)
    ensures var q := ExitRequest(sha, entry, Reduce(h, entry, EventsOf(s.operations, h.intent(entry))).value, market, s.ledger);
            var i := PlanExit(h, q, cfg.policy.value, cfg.context).value.intent;
            && Reserve(h, s.ledger, i).Ok?
            && SubmitExit(h, cfg, s, entry, market, sha) == if market.observedAt < LastAt(s) then Err(ClockRewind)
                                                            else Ok(Submitted(h, s, i, Reserve(h, s.ledger, i).value))
  {
    hide ReplayAll, Reduce, EventsOf, Reserve, OpenAccepted, NoCollision, Intent.Valid, AllOpsValid, LastAt, Submitted, ExitReasons, EntryMatches, Market.Valid;
    var q := ExitRequest(sha, entry, Reduce(h, entry, EventsOf(s.operations, h.intent(entry))).value, market, s.ledger);
    var i := PlanExit(h, q, cfg.policy.value, cfg.context).value.intent;
    ReadyExitAppends(h, cfg, s, entry, market, sha);
    assert i.Valid() && i.leg == Exit by {
      ReplayBooks(h, s.Ground(), s.operations);
      LedgerOfBooks(h, s);
      assert Order(entry).Valid() by { MemberValid(s.operations, Order(entry)); }
      ReadyExitReserves(h, q, cfg.policy.value, cfg.context);
    }
    FreshOrder(h, s.Ground(), s.operations, i);
    OpensExactly(h, s, i);
  }

  lemma MemberValid(ops: seq<Operation>, op: Operation)
    requires AllOpsValid(ops) && op in ops
    ensures op.Valid()
  {}
}
