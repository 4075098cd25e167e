/** Guards that no run can reach: settlements always fit what was reserved, READY plans always
    reserve, and an arbitration never gets a second entry. */
module SessionGuards {
  import opened Prelude
  import opened PaperModel
  import opened OrderReducer
  import opened LedgerParts
  import opened PaperLedger
  import opened SessionLog
  import opened SessionBooks
  import opened SessionAccounts
  import opened Planner
  import opened PaperSession
  import opened SessionSafety

  /** A valid session all of whose operations this configuration produced. */
  ghost predicate Healthy(h: Digests, cfg: Configuration, s: Session) {
    Sound(h, s) && AllPlanned(Watch(cfg, s.Ground(), true), s.operations)
  }

  predicate Initial(s: Session) {
    && s.Ground().Valid() && s.costs.Contains(s.ledger.tradeDate)
    && s.revision == 0 && s.operations == [] && s.markets == []
    && Initialize(s.account, s.ledger.tradeDate) == Ok(s.ledger)
  }

  predicate CommandsValid(commands: seq<Command>) {
    forall i :: 0 <= i < |commands| ==> commands[i].Valid()
  }

  lemma InitialHealthy(h: Digests, cfg: Configuration, s: Session)
    requires Initial(s)
    ensures Healthy(h, cfg, s)
  {}

  /** Every session a run of commands reaches from the empty one is healthy. */
  lemma {:induction false} RunHealthy(h: Digests, cfg: Configuration, s: Session, commands: seq<Command>)
    requires cfg.Valid() && Initial(s) && CommandsValid(commands)
    ensures Healthy(h, cfg, Run(h, cfg, s, commands))
    ensures Run(h, cfg, s, commands).Ground() == s.Ground()
  {
    hide Apply, Sound, Initial;
    if commands == [] {
      InitialHealthy(h, cfg, s);
    } else {
      var front, last := commands[..|commands| - 1], commands[|commands| - 1];
      RunHealthy(h, cfg, s, front);
      ApplyFine(h, Watch(cfg, s.Ground(), true), Run(h, cfg, s, front), last);
    }
  }

  // ----- Settlements -----

  lemma PendingFound(rs: seq<Reservation>, x: Reservation)
    requires Ordered(rs) && x in rs
    ensures EntryMatches(rs, x.entry, x.status) == [x]
  {
    EntryMatchFacts(rs, x.entry, x.status);
    assert x in EntryMatches(rs, x.entry, x.status);
  }

  lemma GiveBack(ps: seq<Position>, symbol: Ident, delta: int)
    requires HasPosition(ps, symbol) && delta >= 0 && forall i :: 0 <= i < |ps| ==> ps[i].available >= 0
    ensures Shift(ps, symbol, delta).Ok?
  {}

  lemma EntrySettles(h: Digests, costs: CostPolicy, r: Replay, intent: Intent, history: seq<Event>)
    requires Books(h, r) && costs.Valid() && costs.Contains(intent.tradeDate)
    requires var sha := h.intent(intent); sha in r.intents && r.intents[sha] == intent && !Done(h, r, sha)
    requires intent.Valid() && intent.leg == Entry && Covered(costs, intent)
    requires AllValid(history) && Reduce(h, intent, history).Ok? && Reduce(h, intent, history).value.status.Terminal()
    ensures SettleEntry(h, r.ledger, intent, Reduce(h, intent, history).value, costs).Ok?
  {
    hide Reduce, Scaled, Cost, Value, EntryMatches, Swap, HasPosition, Done, Explained, Covered;
    var state := Reduce(h, intent, history).value;
    var sha := h.intent(intent);
    assert Backed(h, r, sha);
    PendingFound(r.ledger.reservations, PendingFor(sha, intent));
    AcceptedHistory(h, intent, history);
    ReserveCoversFills(h, costs, intent, history);
    GiveBack(r.ledger.positions, intent.symbol, intent.quantity - state.filled);
    StateNamesIntent(h, intent, history);
  }

  lemma StateNamesIntent(h: Digests, intent: Intent, history: seq<Event>)
    requires Reduce(h, intent, history).Ok?
    ensures Reduce(h, intent, history).value.intentSha == h.intent(intent)
  {}

  lemma ExitSettles(h: Digests, costs: CostPolicy, r: Replay, intent: Intent, history: seq<Event>)
    requires Books(h, r) && costs.Contains(intent.tradeDate)
    requires var sha := h.intent(intent); sha in r.intents && r.intents[sha] == intent && !Done(h, r, sha)
    requires intent.Valid() && intent.leg == Exit
    requires AllValid(history) && Reduce(h, intent, history).Ok? && Reduce(h, intent, history).value.status.Terminal()
    ensures SettleExit(h, r.ledger, intent, Reduce(h, intent, history).value, costs).Ok?
  {
    hide Reduce, Scaled, Cost, Value, ExitMatches, Swap, HasPosition, Done, Explained, EvidenceValue, EvidenceQuantity;
    var sha := h.intent(intent);
    assert Backed(h, r, sha);
    var x :| x in r.ledger.reservations && BacksExit(x, sha, intent);
    ExitReferences(h, r, sha, x);
    ExitMatchUnique(r.ledger.reservations, sha, x);
    AcceptedHistory(h, intent, history);
    StateNamesIntent(h, intent, history);
    assert x.Valid();
  }

  /** In every reachable session, an event the reducer accepts for a known order can always be
      appended: the "fill exceeds reserved cash", negative-inventory, oversold and unmatched
      settlement guards are unreachable whatever the fill history. */
  lemma SettlementNeverFails(h: Digests, cfg: Configuration, s: Session, e: Event)
    requires Healthy(h, cfg, s) && e.Valid()
    requires FindOrder(h, s.operations, e.intentSha).Some?
    requires Reduce(h, FindOrder(h, s.operations, e.intentSha).value, EventsOf(s.operations, e.intentSha) + [e]).Ok?
    ensures Append(h, s, Report(e)).Ok?
  {
    hide Reduce, SettleEntry, SettleExit, EventsOf, FindOrder, ReplayAll, Books, Covered, Intent.Valid, AllValid, Event.Valid, Initialize;
    var g := s.Ground();
    ReplayBooks(h, g, s.operations);
    var r := ReplayAll(h, g, s.operations).value;
    assert r.ledger == s.ledger;
    var sha := e.intentSha;
    var intent, events := r.intents[sha], r.events[sha];
    var history := events + [e];
    OneMoreEvent(events, e);
    ExtensionMeansLive(h, intent, events, e);
    FoundPlanned(h, Watch(cfg, g, true), s.operations, sha);
    if Reduce(h, intent, history).value.status.Terminal() {
      if intent.leg == Entry {
        EntrySettles(h, s.costs, r, intent, history);
      } else {
        ExitSettles(h, s.costs, r, intent, history);
      }
    }
  }

  lemma ExtensionMeansLive(h: Digests, intent: Intent, events: seq<Event>, e: Event)
    requires Reduce(h, intent, events + [e]).Ok?
    ensures Reduce(h, intent, events).Ok? && !Reduce(h, intent, events).value.status.Terminal()
  {
    PrefixAccepted(h, intent, events + [e], |events|);
    assert (events + [e])[..|events|] == events;
  }

  lemma {:induction false} FoundPlanned(h: Digests, w: Watch, ops: seq<Operation>, sha: Digest)
    requires AllPlanned(w, ops) && FindOrder(h, ops, sha).Some?
    ensures PlannedOp(w, Order(FindOrder(h, ops, sha).value))
  {
    hide PlannedOp;
    var front, last := ops[..|ops| - 1], ops[|ops| - 1];
    assert PlannedOp(w, last);
    if FindOrder(h, front, sha).Some? { FoundPlanned(h, w, front, sha); }
  }

  // ----- READY plans -----

  /** The ledger after a prefix of the log. */
  ghost predicate LedgerAt(h: Digests, g: Base, ops: seq<Operation>, k: nat, l: Ledger) {
    k <= |ops| && ReplayAll(h, g, ops[..k]).Ok? && ReplayAll(h, g, ops[..k]).value.ledger == l
  }

  /** The order was planned against a ledger the log once had, of an earlier revision. */
  ghost predicate PlannedBefore(h: Digests, g: Base, ops: seq<Operation>, i: Intent, revision: nat) {
    exists k, l :: LedgerAt(h, g, ops, k, l) && i.ledgerSha == h.ledger(l) && l.revision < revision
  }

  lemma PrefixLedger(h: Digests, g: Base, ops: seq<Operation>, k: nat, l: Ledger)
    requires ops != [] && LedgerAt(h, g, ops[..|ops| - 1], k, l)
    ensures LedgerAt(h, g, ops, k, l)
  {
    hide ReplayAll;
    assert ops[..|ops| - 1][..k] == ops[..k];
  }

  lemma StillBefore(h: Digests, g: Base, ops: seq<Operation>, i: Intent, earlier: nat, later: nat)
    requires ops != [] && PlannedBefore(h, g, ops[..|ops| - 1], i, earlier) && earlier <= later
    ensures PlannedBefore(h, g, ops, i, later)
  {
    hide LedgerAt;
    var k, l :| LedgerAt(h, g, ops[..|ops| - 1], k, l) && i.ledgerSha == h.ledger(l) && l.revision < earlier;
    PrefixLedger(h, g, ops, k, l);
  }

  lemma FirstBefore(h: Digests, g: Base, ops: seq<Operation>, i: Intent, l: Ledger, revision: nat)
    requires ops != [] && ReplayAll(h, g, ops[..|ops| - 1]).Ok? && ReplayAll(h, g, ops[..|ops| - 1]).value.ledger == l
    requires i.ledgerSha == h.ledger(l) && l.revision < revision
    ensures PlannedBefore(h, g, ops, i, revision)
  {
    hide ReplayAll;
    assert LedgerAt(h, g, ops, |ops| - 1, l);
  }

  /** Every order of the log was planned against a ledger of an earlier revision. */
  lemma {:induction false} ReplayAged(h: Digests, g: Base, ops: seq<Operation>, sha: Digest)
    requires ReplayAll(h, g, ops).Ok? && sha in ReplayAll(h, g, ops).value.intents
    ensures PlannedBefore(h, g, ops, ReplayAll(h, g, ops).value.intents[sha], ReplayAll(h, g, ops).value.ledger.revision)
  {
    hide Reduce, Insert, Swap, Replace, Shift, EntryMatches, ExitMatches, EntryCost, SaleValue, SpendLiquidity, PlannedBefore, LedgerAt;
    var front := ops[..|ops| - 1];
    var r, n := ReplayAll(h, g, front).value, ReplayAll(h, g, ops).value;
    assert n.ledger.revision >= r.ledger.revision;
    if sha in r.intents && n.intents[sha] == r.intents[sha] {
      ReplayAged(h, g, front, sha);
      StillBefore(h, g, ops, n.intents[sha], r.ledger.revision, n.ledger.revision);
    } else {
      assert n.intents[sha].ledgerSha == h.ledger(r.ledger) && r.ledger.revision < n.ledger.revision;
      FirstBefore(h, g, ops, n.intents[sha], r.ledger, n.ledger.revision);
    }
  }

  /** The digests met so far tell this order from the log's orders, and the current ledger from the
      log's earlier ones. */
  ghost predicate NoCollision(h: Digests, g: Base, ops: seq<Operation>, i: Intent, current: Ledger) {
    && (FindOrder(h, ops, h.intent(i)).Some? ==> FindOrder(h, ops, h.intent(i)).value == i)
    && (forall k, l :: LedgerAt(h, g, ops, k, l) && h.ledger(l) == h.ledger(current) ==> l == current)
  }

  /** An order planned against the current ledger is new to the log, unless digests collide: the
      strictly increasing ledger revision makes the compare-and-swap token fresh. */
  lemma FreshOrder(h: Digests, g: Base, ops: seq<Operation>, i: Intent)
    requires ReplayAll(h, g, ops).Ok? && AllOpsValid(ops)
    requires NoCollision(h, g, ops, i, ReplayAll(h, g, ops).value.ledger)
    requires i.ledgerSha == h.ledger(ReplayAll(h, g, ops).value.ledger)
    ensures h.intent(i) !in ReplayAll(h, g, ops).value.intents
  {
    hide ReplayAll, LedgerAt;
    ReplayLinked(h, g, ops);
    var r := ReplayAll(h, g, ops).value;
    if h.intent(i) in r.intents { ReplayAged(h, g, ops, h.intent(i)); }
  }

  /** A READY entry planned against the session's current ledger always appends. */
  lemma ReadyEntryAppends(h: Digests, cfg: Configuration, s: Session, q: Request)
    requires Sound(h, s) && q.Valid() && q.resources == s.ledger
    requires cfg.Valid() && cfg.policy.Some? && cfg.gate.Some? && cfg.arbitration.Some?
    requires PlanOrder(h, q, cfg.policy.value, cfg.arbitration.value, cfg.context, cfg.gate.value).Ok?
    requires PlanOrder(h, q, cfg.policy.value, cfg.arbitration.value, cfg.context, cfg.gate.value).value.Ready?
    requires NoCollision(h, s.Ground(), s.operations,
                         PlanOrder(h, q, cfg.policy.value, cfg.arbitration.value, cfg.context, cfg.gate.value).value.intent, s.ledger)
    ensures var i := PlanOrder(h, q, cfg.policy.value, cfg.arbitration.value, cfg.context, cfg.gate.value).value.intent;
            Append(h, s, Order(i)).Ok?
  {
    hide ReplayAll, Reduce, NoCollision, EntryReasons, Insert, Shift, Backed, Ledger.Valid, Intent.Valid, Request.Valid;
    var i := PlanOrder(h, q, cfg.policy.value, cfg.arbitration.value, cfg.context, cfg.gate.value).value.intent;
    ReadyEntryReserves(h, q, cfg.policy.value, cfg.arbitration.value, cfg.context, cfg.gate.value);
    ReplayBooks(h, s.Ground(), s.operations);
    var r := ReplayAll(h, s.Ground(), s.operations).value;
    FreshOrder(h, s.Ground(), s.operations, i);
    forall x | x in s.ledger.reservations ensures x.entry != h.intent(i) {
      assert Explained(h, r, x);
    }
  }

  /** A READY exit planned for an open entry of the session always appends. */
  lemma {:induction false} ReadyExitAppends(h: Digests, cfg: Configuration, s: Session, entry: Intent, market: Market, sha: Digest)
    requires cfg.Valid() && cfg.policy.Some? && Sound(h, s) && market.Valid() && Order(entry) in s.operations
    requires Reduce(h, entry, EventsOf(s.operations, h.intent(entry))).Ok?
    requires var q := ExitRequest(sha, entry, Reduce(h, entry, EventsOf(s.operations, h.intent(entry))).value, market, s.ledger);
             PlanExit(h, q, cfg.policy.value, cfg.context).Ok? && PlanExit(h, q, cfg.policy.value, cfg.context).value.Ready?
    ensures var q := ExitRequest(sha, entry, Reduce(h, entry, EventsOf(s.operations, h.intent(entry))).value, market, s.ledger);
            Append(h, s, Order(PlanExit(h, q, cfg.policy.value, cfg.context).value.intent)).Ok?
  {
    hide ReplayAll, Reduce, EventsOf, PlanExit, ReserveExit, Ledger.Valid, Intent.Valid, Books, Market.Valid;
    assert Order(entry).Valid();
    ReplayBooks(h, s.Ground(), s.operations);
    LedgerOfBooks(h, s);
    var q := ExitRequest(sha, entry, Reduce(h, entry, EventsOf(s.operations, h.intent(entry))).value, market, s.ledger);
    ReadyExitReserves(h, q, cfg.policy.value, cfg.context);
  }

  // ----- One entry per arbitration -----

  ghost predicate SingleEntries(ops: seq<Operation>) {
    forall i, j :: 0 <= i < j < |ops| && ops[i].Order? && ops[j].Order?
                   && ops[i].intent.leg == Entry && ops[j].intent.leg == Entry
                   ==> ops[i].intent.arbitration != ops[j].intent.arbitration
  }

  lemma {:induction false} ReplayEntries(h: Digests, g: Base, ops: seq<Operation>)
    requires ReplayAll(h, g, ops).Ok?
    ensures SingleEntries(ops)
    ensures forall i :: 0 <= i < |ops| && ops[i].Order? && ops[i].intent.leg == Entry
                        ==> ops[i].intent.arbitration in ReplayAll(h, g, ops).value.entries
  {
    hide Reduce, Settle, Reserve, SpendLiquidity;
    if ops != [] {
      var front := ops[..|ops| - 1];
      ReplayEntries(h, g, front);
      var r, n := ReplayAll(h, g, front).value, ReplayAll(h, g, ops).value;
      assert r.entries <= n.entries;
      forall i | 0 <= i < |ops| && ops[i].Order? && ops[i].intent.leg == Entry ensures ops[i].intent.arbitration in n.entries {
        if i < |front| { assert front[i] == ops[i]; }
      }
      forall i, j | 0 <= i < j < |ops| && ops[i].Order? && ops[j].Order? && ops[i].intent.leg == Entry && ops[j].intent.leg == Entry
        ensures ops[i].intent.arbitration != ops[j].intent.arbitration
      {
        assert front[i] == ops[i];
        if j < |front| { assert front[j] == ops[j]; }
      }
    }
  }

  /** Every reachable session gives an arbitration at most one entry, and its books balance. */
  lemma ReachableBalances(h: Digests, cfg: Configuration, s: Session, commands: seq<Command>)
    requires cfg.Valid() && Initial(s) && CommandsValid(commands)
    ensures var n := Run(h, cfg, s, commands);
            && Balanced(h, s.Ground(), n.operations, n.ledger)
            && SingleEntries(n.operations)
  {
    hide Apply, ReplayAll, Balanced, SingleEntries, Run;
    RunHealthy(h, cfg, s, commands);
    var n := Run(h, cfg, s, commands);
    AcceptedLogBalances(h, n.Ground(), n.operations);
    ReplayEntries(h, n.Ground(), n.operations);
  }
}
