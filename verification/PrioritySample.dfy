/** A run of commands, from the empty session, at whose end a quote passes an eligible earlier order by and
    fills a later one. Quotes of stream 1 all carry one identity; stream 2 speaks in between. The first of
    them shows 400 shares and completes an order of 200, which leaves the identity spare capacity. */
module PrioritySample {
  import opened Prelude
  import opened PaperModel
  import opened OrderReducer
  import opened LedgerParts
  import opened PaperLedger
  import opened SessionLog
  import opened Planner
  import opened PlannerExact
  import opened Matching
  import opened PaperSession
  import opened SessionGuards
  import opened QuotePriority
  import opened QuoteLiquidity

  function SampleDigests(): Digests {
    Digests((i: Intent) => i.priority, (e: Event) => 2 * e.intentSha + e.sequence, (l: Ledger) => l.revision,
            (k: EvidenceKey) => if k.previous.Some? then k.previous.value + 1 else 2 * k.intentSha + 1)
  }

  function Account6000(): Account { Account(0, 0, 6000.0, [AccountPosition(0, 600, 0)]) }

  function FreeCosts(): CostPolicy { CostPolicy(0, None, 0.0, 0.0, 0.0) }

  function SampleConfiguration(): Configuration {
    Configuration(Some(Policy(0, 0, 0, None, 0, 0, 0, 200, 100, 60, 0, 60)), Some(GatePolicy(0, 0, 0, 0)), Some(ArbitrationPolicy(0, 0)),
                  ContextPolicy(0, 0, None, {0}), Lineage(0, 0, 0), 25200)
  }

  function SampleMarket(stream: Ident, sequence: nat, at: Instant, ask: real, quantity: nat): Market {
    Market(0, at, at, stream, sequence, ask, quantity, 9.0, 100, 10.0, 20.0, 1.0, 1.0, 0, 0)
  }

  /** The five quotes. */
  function SampleQuote(k: nat): Market {
    if k == 1 then SampleMarket(1, 1, 20, 10.0, 400)
    else if k == 2 then SampleMarket(2, 1, 40, 11.0, 100)
    else if k == 3 then SampleMarket(1, 1, 50, 10.0, 100)
    else if k == 4 then SampleMarket(2, 2, 60, 11.0, 100)
    else SampleMarket(1, 1, 70, 10.0, 100)
  }

  /** The revision of the ledger an order is planned against. */
  function LedgerOf(n: nat): nat { if n == 1 then 0 else n }

  function CreatedAt(n: nat): Instant { if n == 1 then 10 else 30 }

  /** Three buys of 200 shares at 10, by falling priority. */
  function SampleOrder(n: nat): Intent {
    Intent(0, 0, 0, n, 0, 0, 0, 60, Entry, Buy, 200, 10.0, n, CreatedAt(n), CreatedAt(n) + 60 * SECOND, 2000.0, 200, LedgerOf(n), None)
  }

  function SampleAccepted(n: nat): Event { Event(n, 1, Accepted, CreatedAt(n), 0, None, None, 2 * n + 1, None) }

  /** Order 1 is completed by the first quote, order 2 half filled by the third, order 3 by the fifth. */
  function SampleFill(n: nat): Event {
    if n == 1 then Event(1, 2, Filled, 20, 200, Some(10.0), None, 4, Some(FillEvidence(0, Buy, 20, 1, 1, 200, 400, 10.0, 0)))
    else if n == 2 then Event(2, 2, PartiallyFilled, 50, 100, Some(10.0), None, 6, Some(FillEvidence(0, Buy, 50, 1, 1, 100, 100, 10.0, 0)))
    else Event(3, 2, PartiallyFilled, 70, 100, Some(10.0), None, 8, Some(FillEvidence(0, Buy, 70, 1, 1, 100, 100, 10.0, 0)))
  }

  function SampleOps(): seq<Operation> {
    [Order(SampleOrder(1)), Report(SampleAccepted(1)), Report(SampleFill(1)),
     Order(SampleOrder(2)), Report(SampleAccepted(2)), Order(SampleOrder(3)), Report(SampleAccepted(3)),
     Report(SampleFill(2)), Report(SampleFill(3))]
  }

  function SamplePending(n: nat): Reservation { Reservation(n, None, 0, EntryPending, 2000.0, 200, 0, None) }

  function SampleOpen(): Reservation { Reservation(1, None, 0, Open, 0.0, 200, 200, Some(10.0)) }

  function SampleLedger(revision: nat): Ledger {
    if revision == 0 then Ledger(0, 0, 0, 6000.0, [Position(0, 600)], 0, 0.0, [])
    else if revision == 1 then Ledger(0, 0, 1, 4000.0, [Position(0, 400)], 1, 0.0, [SamplePending(1)])
    else if revision == 2 then Ledger(0, 0, 2, 4000.0, [Position(0, 400)], 1, 0.0, [SampleOpen()])
    else if revision == 3 then Ledger(0, 0, 3, 2000.0, [Position(0, 200)], 2, 0.0, [SampleOpen(), SamplePending(2)])
    else Ledger(0, 0, 4, 0.0, [Position(0, 0)], 3, 0.0, [SampleOpen(), SamplePending(2), SamplePending(3)])
  }

  /** Digests the run's own orders, events and ledgers do not collide under. */
  ghost predicate TellsApart(h: Digests) {
    && (forall m: nat, n: nat :: 1 <= m < n <= 3 ==> h.intent(SampleOrder(m)) != h.intent(SampleOrder(n)))
    && (forall m: nat, n: nat :: 1 <= m <= 3 && 1 <= n <= 3 ==> h.event(SampleAccepted(m)) != h.event(SampleFill(n)))
    && (forall m: nat, n: nat :: 1 <= m < n <= 3 ==> h.event(SampleAccepted(m)) != h.event(SampleAccepted(n)))
    && (forall m: nat, n: nat :: 1 <= m < n <= 3 ==> h.event(SampleFill(m)) != h.event(SampleFill(n)))
    && (forall m: nat, n: nat :: m < n <= 4 ==> h.ledger(SampleLedger(m)) != h.ledger(SampleLedger(n)))
  }

  lemma SampleToldApart()
    ensures TellsApart(SampleDigests())
  {}

  // ----- The log, read -----

  function EventsAt(k: nat, n: nat): seq<Event> {
    var accepted := if n == 1 then 2 else if n == 2 then 5 else 7;
    var filled := if n == 1 then 3 else if n == 2 then 8 else 9;
    if k < accepted then [] else if k < filled then [SampleAccepted(n)] else [SampleAccepted(n), SampleFill(n)]
  }

  function OrderedAt(n: nat): nat { if n == 1 then 1 else if n == 2 then 4 else 6 }

  /** Which order an operation belongs to. */
  function Owner(i: nat): nat { if i <= 2 then 1 else if i <= 4 || i == 7 then 2 else 3 }

  predicate PlacesOrder(i: nat) { i == 0 || i == 3 || i == 5 }

  function EventAt(i: nat): Event { if i == 2 || i >= 7 then SampleFill(Owner(i)) else SampleAccepted(Owner(i)) }

  lemma OpTable(i: nat)
    requires i < 9
    ensures |SampleOps()| == 9 && SampleOps()[i] == (if PlacesOrder(i) then Order(SampleOrder(Owner(i))) else Report(EventAt(i)))
    ensures EventAt(i).intentSha == Owner(i) && SampleDigests().intent(SampleOrder(Owner(i))) == Owner(i)
  {}

  lemma EventsStep(k: nat, n: nat)
    requires 1 <= k <= 9 && 1 <= n <= 3
    ensures EventsAt(k, n) == EventsAt(k - 1, n) + (if !PlacesOrder(k - 1) && Owner(k - 1) == n then [EventAt(k - 1)] else [])
  {}

  lemma {:induction false} SampleLog(k: nat, n: nat)
    requires k <= 9 && 1 <= n <= 3
    ensures |SampleOps()| == 9 && EventsOf(SampleOps()[..k], n) == EventsAt(k, n)
    ensures FindOrder(SampleDigests(), SampleOps()[..k], n) == if k < OrderedAt(n) then None else Some(SampleOrder(n))
  {
    hide EventsOf, FindOrder, SampleOps, SampleOrder, SampleFill, SampleAccepted, EventsAt, SampleDigests;
    var h, ops := SampleDigests(), SampleOps();
    OpTable(0);
    if k == 0 {
      assert ops[..0] == [];
      EmptyLog(h, n);
      assert EventsAt(0, n) == [] by { NoEventsYet(n); }
    } else {
      SampleLog(k - 1, n);
      OpTable(k - 1);
      EventsStep(k, n);
      ReadAppended(h, ops[..k - 1], ops[k - 1]);
      assert ops[..k - 1] + [ops[k - 1]] == ops[..k];
    }
  }

  lemma NoEventsYet(n: nat)
    ensures EventsAt(0, n) == []
  {}

  lemma EmptyLog(h: Digests, sha: Digest)
    ensures EventsOf([], sha) == [] && FindOrder(h, [], sha) == None
  {}

  // ----- Histories -----

  function StateAfter(n: nat): OrderState {
    if n == 1 then OrderState(1, Filled, 200, Some(10.0), 2, Some(4)) else OrderState(n, PartiallyFilled, 100, Some(10.0), 2, Some(2 * n + 2))
  }

  lemma SampleHistory(n: nat)
    requires 1 <= n <= 3
    ensures var h, a := SampleDigests(), SampleOrder(n);
            && Reduce(h, a, [SampleAccepted(n)]) == Ok(OrderState(n, Accepted, 0, None, 1, Some(2 * n + 1)))
            && Reduce(h, a, [SampleAccepted(n), SampleFill(n)]) == Ok(StateAfter(n))
  {
    var h, a, e, f := SampleDigests(), SampleOrder(n), SampleAccepted(n), SampleFill(n);
    assert RunFold(h, a, [], true) == Ok(Start(a));
    assert [e][..0] == [];
    var x := Step(h, a, Start(a), e, true);
    assert x.Ok? && x.value.status == Accepted;
    assert RunFold(h, a, [e], true) == x;
    assert [e, f][..1] == [e];
    assert RunFold(h, a, [e, f], true) == Step(h, a, x.value, f, true);
  }

  // ----- Ledger steps -----

  lemma SampleShift(available: nat, delta: int)
    requires available + delta >= 0
    ensures Shift([Position(0, available)], 0, delta) == Ok([Position(0, available + delta)])
  {
    var ps := [Position(0, available)];
    assert ps[0].symbol == 0;
    assert Moved(ps, 0, delta) == [Position(0, available + delta)];
  }

  lemma SampleInserts()
    ensures Insert([], SamplePending(1)) == [SamplePending(1)] && !Keyed([], 1)
    ensures Insert([], SampleOpen()) == [SampleOpen()]
    ensures Insert([SampleOpen()], SamplePending(2)) == [SampleOpen(), SamplePending(2)] && !Keyed([SampleOpen()], 2)
    ensures Insert([SampleOpen(), SamplePending(2)], SamplePending(3)) == [SampleOpen(), SamplePending(2), SamplePending(3)]
    ensures !Keyed([SampleOpen(), SamplePending(2)], 3)
  {
    var a, b, c := SampleOpen(), SamplePending(2), SamplePending(3);
    assert [a][1..] == [] && [a, b][1..] == [b] && [b][1..] == [];
    assert Insert([], b) == [b] && Insert([], c) == [c] && Insert([b], c) == [b, c];
  }

  lemma SampleReserves()
    ensures Reserve(SampleDigests(), SampleLedger(0), SampleOrder(1)) == Ok(SampleLedger(1))
    ensures Reserve(SampleDigests(), SampleLedger(2), SampleOrder(2)) == Ok(SampleLedger(3))
    ensures Reserve(SampleDigests(), SampleLedger(3), SampleOrder(3)) == Ok(SampleLedger(4))
  {
    hide Shift, Insert, Keyed;
    SampleShift(600, 0 - 200);
    SampleShift(400, 0 - 200);
    SampleShift(200, 0 - 200);
    SampleInserts();
  }

  lemma SampleCost()
    ensures EntryReserve(FreeCosts(), 10.0, 200) == 2000.0
    ensures Scaled(Value(Some(10.0), 200), FreeCosts().BuyFactor()) == 2000.0
  {
    var c := FreeCosts();
    assert Cost(10.0, 200) == 2000.0;
    assert c.BuyFactor() == 1.0;
  }

  lemma SampleSettles()
    ensures Settle(SampleDigests(), SampleLedger(1), SampleOrder(1), StateAfter(1), FreeCosts()) == Ok(SampleLedger(2))
  {
    hide Shift, Insert, Scaled, Value;
    SampleShift(400, 0);
    SampleInserts();
    SampleCost();
    var rs := [SamplePending(1)];
    assert rs[1..] == [];
    assert EntryMatches([], 1, EntryPending) == [];
    assert EntryMatches(rs, 1, EntryPending) == [SamplePending(1)];
    assert Without([], 1) == [];
    assert Without(rs, 1) == [];
  }

  // ----- Replay -----

  function LedgerAt(k: nat): Ledger {
    SampleLedger(if k == 0 then 0 else if k <= 2 then 1 else if k == 3 then 2 else if k <= 5 then 3 else 4)
  }

  function IntentsAt(k: nat): map<Digest, Intent> {
    if k == 0 then map[]
    else if k <= 3 then map[1 := SampleOrder(1)]
    else if k <= 5 then map[1 := SampleOrder(1), 2 := SampleOrder(2)]
    else map[1 := SampleOrder(1), 2 := SampleOrder(2), 3 := SampleOrder(3)]
  }

  function HistoriesAt(k: nat): map<Digest, seq<Event>> {
    if k == 0 then map[]
    else if k <= 3 then map[1 := EventsAt(k, 1)]
    else if k <= 5 then map[1 := EventsAt(k, 1), 2 := EventsAt(k, 2)]
    else map[1 := EventsAt(k, 1), 2 := EventsAt(k, 2), 3 := EventsAt(k, 3)]
  }

  function EntriesAt(k: nat): set<Digest> {
    if k == 0 then {} else if k <= 3 then {1} else if k <= 5 then {1, 2} else {1, 2, 3}
  }

  function SampleKey(): LiquidityKey { LiquidityKey(1, 1, 0, Buy) }

  function LiquidityAt(k: nat): map<LiquidityKey, LiquidityUse> {
    if k <= 2 then map[]
    else map[SampleKey() := LiquidityUse(if k <= 7 then 200 else if k == 8 then 300 else 400, 400, 0)]
  }

  function LastAt(k: nat): Instant {
    if k == 0 then 0 else if k <= 2 then 10 else if k == 3 then 20 else if k <= 7 then 30 else if k == 8 then 50 else 70
  }

  function SampleReplay(k: nat): Replay {
    Replay(LedgerAt(k), IntentsAt(k), HistoriesAt(k), EntriesAt(k), LiquidityAt(k), LastAt(k))
  }

  function SampleGround(): Base { Base(Account6000(), FreeCosts(), 0) }

  lemma ReplayOrders(k: nat)
    requires k == 0 || k == 3 || k == 5
    ensures var n := if k == 0 then 1 else if k == 3 then 2 else 3; ReplayOrder(SampleDigests(), SampleReplay(k), SampleOrder(n)) == Ok(SampleReplay(k + 1))
  {
    hide Reserve;
    SampleReserves();
    var n := if k == 0 then 1 else if k == 3 then 2 else 3;
    assert IntentsAt(k)[n := SampleOrder(n)] == IntentsAt(k + 1);
    assert HistoriesAt(k)[n := []] == HistoriesAt(k + 1);
    assert EntriesAt(k) + {n} == EntriesAt(k + 1);
  }

  lemma ReplayAccepted(k: nat)
    requires k == 1 || k == 4 || k == 6
    ensures var n := if k == 1 then 1 else if k == 4 then 2 else 3;
            ReplayReport(SampleDigests(), FreeCosts(), SampleReplay(k), SampleAccepted(n)) == Ok(SampleReplay(k + 1))
  {
    hide Reduce, Settle;
    var n := if k == 1 then 1 else if k == 4 then 2 else 3;
    SampleHistory(n);
    assert HistoriesAt(k)[n] + [SampleAccepted(n)] == [SampleAccepted(n)];
    assert HistoriesAt(k)[n := [SampleAccepted(n)]] == HistoriesAt(k + 1);
  }

  lemma ReplayFill(k: nat)
    requires k == 2 || k == 7 || k == 8
    ensures var n := if k == 2 then 1 else if k == 7 then 2 else 3;
            ReplayReport(SampleDigests(), FreeCosts(), SampleReplay(k), SampleFill(n)) == Ok(SampleReplay(k + 1))
  {
    hide Reduce, Settle, SpendLiquidity;
    var n := if k == 2 then 1 else if k == 7 then 2 else 3;
    SampleHistory(n);
    SampleSettles();
    SampleSpends(k);
    assert HistoriesAt(k)[n] + [SampleFill(n)] == [SampleAccepted(n), SampleFill(n)];
    assert HistoriesAt(k)[n := [SampleAccepted(n), SampleFill(n)]] == HistoriesAt(k + 1);
  }

  lemma SampleSpends(k: nat)
    requires k == 2 || k == 7 || k == 8
    ensures var n := if k == 2 then 1 else if k == 7 then 2 else 3; SpendLiquidity(LiquidityAt(k), SampleFill(n).fill) == Ok(LiquidityAt(k + 1))
  {
    assert LiquidityAt(k)[SampleKey() := LiquidityUse(if k == 2 then 200 else if k == 7 then 300 else 400, 400, 0)] == LiquidityAt(k + 1);
  }

  lemma {:induction false} SampleReplays(k: nat)
    requires k <= 9
    ensures ReplayAll(SampleDigests(), SampleGround(), SampleOps()[..k]) == Ok(SampleReplay(k))
  {
    hide ReplayOrder, ReplayReport;
    var ops := SampleOps();
    if k == 0 {
      assert ops[..0] == [];
      SampleStart();
    } else {
      SampleReplays(k - 1);
      assert ops[..k][..k - 1] == ops[..k - 1];
      if k == 1 || k == 4 || k == 6 {
        ReplayOrders(k - 1);
      } else if k == 2 || k == 5 || k == 7 {
        ReplayAccepted(k - 1);
      } else {
        ReplayFill(k - 1);
      }
    }
  }

  lemma SampleStart()
    ensures ReplayStart(SampleGround()) == Ok(SampleReplay(0))
  {
    var held := [AccountPosition(0, 600, 0)];
    assert held[..0] == [] && InitialPositions([]) == [];
    assert InitialPositions(held) == [Position(0, 600)];
  }

  // ----- Sessions and commands -----

  function LengthAt(k: nat): nat {
    if k == 0 then 0 else if k == 1 then 2 else if k == 2 then 3 else if k == 3 then 5 else if k <= 5 then 7 else if k <= 7 then 8 else 9
  }

  function CursorsAt(k: nat): seq<Market> {
    if k <= 1 then [] else if k <= 4 then [SampleQuote(1)] else [SampleQuote(k - 3)]
  }

  /** The session after `k` commands. */
  function SampleSession(k: nat): Session {
    Session(Account6000(), FreeCosts(), LedgerAt(LengthAt(k)), k, SampleOps()[..Min(LengthAt(k), |SampleOps()|)], CursorsAt(k))
  }

  function SampleRequest(n: nat): Request {
    Request(0, 0, 0, 0, 0, 0, 0, n, 0, 0, 60, Some(n), Promotion(0, 0, 0, 0, 0), SampleMarket(9, n, CreatedAt(n), 10.0, 400),
            Account6000(), FreeCosts(), PaperModel.RiskLimits(1000, 1000000.0, 10, 1.0, 0.0),
            SampleLedger(LedgerOf(n)))
  }

  function SampleReadiness(): Readiness { Readiness(true, Some(Promotion(0, 0, 0, 0, 0)), 0, -1, Some(Lineage(0, 0, 0))) }

  function SampleCommand(k: nat): Command
    requires 1 <= k <= 8
  {
    if k == 1 then EntryCommand(SampleRequest(1), SampleReadiness())
    else if k == 2 then QuoteCommand(SampleQuote(1))
    else if k == 3 then EntryCommand(SampleRequest(2), SampleReadiness())
    else if k == 4 then EntryCommand(SampleRequest(3), SampleReadiness())
    else QuoteCommand(SampleQuote(k - 3))
  }

  function SampleCommands(): seq<Command> {
    [SampleCommand(1), SampleCommand(2), SampleCommand(3), SampleCommand(4), SampleCommand(5), SampleCommand(6), SampleCommand(7)]
  }

  lemma LedgersValid(k: nat)
    requires k <= 4
    ensures SampleLedger(k).Valid()
  {
    var l := SampleLedger(k);
    assert l.positions[0].symbol == 0 && HasPosition(l.positions, 0);
  }

  lemma RequestFine(n: nat)
    requires 1 <= n <= 3
    ensures SampleRequest(n).Valid()
  {
    hide Ledger.Valid;
    LedgersValid(LedgerOf(n));
  }

  lemma QuoteFine(k: nat)
    ensures SampleQuote(k).Valid()
  {}

  lemma CommandFine(k: nat)
    requires 1 <= k <= 8
    ensures SampleCommand(k).Valid()
  {
    hide Request.Valid, Market.Valid, SampleRequest, SampleQuote;
    if k == 1 || k == 3 || k == 4 { RequestFine(if k == 1 then 1 else k - 1); } else { QuoteFine(if k == 2 then 1 else k - 3); }
  }

  lemma CommandsFine()
    ensures CommandsValid(SampleCommands()) && SampleConfiguration().Valid() && SampleQuote(5).Valid()
  {
    hide Command.Valid, SampleCommand, SampleQuote, Market.Valid;
    var cs := SampleCommands();
    QuoteFine(5);
    forall i | 0 <= i < |cs| ensures cs[i].Valid() {
      assert cs[i] == SampleCommand(i + 1);
      CommandFine(i + 1);
    }
  }

  lemma StartsInitial()
    ensures Initial(SampleSession(0))
  {
    SampleStart();
    assert SampleOps()[..0] == [];
  }

  // ----- Entries -----

  lemma SamplePositions(n: nat)
    requires 1 <= n <= 3
    ensures var l := SampleRequest(n).resources;
            && HasPosition(l.positions, 0) && Available(l.positions, 0) >= 200
            && l.revision == LedgerOf(n) && l.startedCycles < 10 && l.realizedPnl == 0.0 && l.cash >= 2000.0
  {
    var ps := SampleRequest(n).resources.positions;
    assert ps[0].symbol == 0 && HasPosition(ps, 0);
    AvailableAt(ps, 0);
  }

  lemma SamplePrice(n: nat)
    requires 1 <= n <= 3
    ensures var m, p := SampleRequest(n).market, SampleConfiguration().policy.value; EntryLimit(m, p) == 10.0 && !Stale(m, p)
  {
    hide SampleLedger;
  }

  lemma SampleUnblocked(n: nat)
    requires 1 <= n <= 3
    ensures EntryReasons(SampleRequest(n), SampleConfiguration().policy.value, SampleConfiguration().context) == []
  {
    hide EntryReserve, Cost, HasPosition, Available, SampleLedger, EntryReasons, EntryLimit, Stale;
    var q, p, c := SampleRequest(n), SampleConfiguration().policy.value, SampleConfiguration().context;
    SamplePrice(n);
    assert p.orderQuantity == 200;
    assert Cost(10.0, 200) <= q.risk.maxOrderNotional by { NotionalOf(); }
    SamplePositions(n);
    assert q.resources.cash - EntryReserve(q.costs, 10.0, 200) >= q.risk.cashReserve by { SampleCost(); }
    UnblockedMeans(q, p, c);
  }

  lemma SamplePlans(n: nat)
    requires 1 <= n <= 3
    ensures var cfg := SampleConfiguration();
            PlanOrder(SampleDigests(), SampleRequest(n), cfg.policy.value, cfg.arbitration.value, cfg.context, cfg.gate.value)
            == Ok(Ready(SampleOrder(n)))
  {
    hide EntryReserve, Cost, EntryReasons, SampleLedger, EntryLimit, HasPosition, Available;
    SamplePositions(n);
    SampleCost();
    SamplePrice(n);
    SampleUnblocked(n);
  }

  lemma NotionalOf()
    ensures Cost(10.0, 200) == 2000.0
  {}

  /** Reserve, accept and validate one planned order. */
  lemma Opens(k: nat, n: nat)
    requires (k == 0 && n == 1) || (k == 2 && n == 2) || (k == 3 && n == 3)
    ensures OpenAccepted(SampleDigests(), SampleSession(k), SampleOrder(n)) == Ok(SampleSession(k + 1))
  {
    hide Reduce, Reserve, Settle, ReplayAll, EventsOf, FindOrder, LedgerAt;
    var h, s, i, e := SampleDigests(), SampleSession(k), SampleOrder(n), SampleAccepted(n);
    var len, ops := LengthAt(k), SampleOps();
    SampleReserves();
    assert LedgerAt(len) == SampleLedger(LedgerOf(n)) && LedgerAt(len + 2) == SampleLedger(if n == 1 then 1 else n + 1) by { LedgerTable(k, n); }
    SampleLog(len + 1, n);
    assert ops[len] == Order(i) && ops[len + 1] == Report(e);
    assert ops[..len] + [Order(i)] == ops[..len + 1];
    assert ops[..len + 1] + [Report(e)] == ops[..len + 2];
    var reserved := Append(h, s, Order(i));
    assert reserved == Ok(s.(ledger := LedgerAt(len + 2), operations := ops[..len + 1]));
    StartAccepted(h, i);
    SampleHistory(n);
    assert [] + [e] == [e];
    assert DraftEvent(h, i, OrderState(n, Status.Created, 0, None, 0, None), Accepted, i.createdAt, None, None) == e;
    assert LifecycleEvent(h, i, [], Accepted, i.createdAt, None, None) == Ok(e);
    var live := Append(h, reserved.value, Report(e));
    assert live == Ok(s.(ledger := LedgerAt(len + 2), operations := ops[..len + 2]));
    Validates(k, live.value);
  }

  lemma LedgerTable(k: nat, n: nat)
    requires (k == 0 && n == 1) || (k == 2 && n == 2) || (k == 3 && n == 3)
    ensures LedgerAt(LengthAt(k)) == SampleLedger(LedgerOf(n)) && LedgerAt(LengthAt(k) + 2) == SampleLedger(if n == 1 then 1 else n + 1)
  {}

  /** The validator accepts the next session. */
  lemma Validates(k: nat, current: Session)
    requires k < 8 && current == SampleSession(k + 1).(revision := k)
    ensures Finish(SampleDigests(), SampleSession(k), current) == Ok(SampleSession(k + 1))
  {
    hide ReplayAll, LedgerAt;
    SampleReplays(LengthAt(k + 1));
    assert current != SampleSession(k) by { Differs(k); }
    assert SampleSession(k + 1).Ground() == SampleGround() by { SameGround(k + 1); }
  }

  lemma SameGround(k: nat)
    ensures SampleSession(k).Ground() == SampleGround()
  {}

  lemma Differs(k: nat)
    requires k < 8
    ensures SampleSession(k + 1).(revision := k) != SampleSession(k)
  {
    if LengthAt(k + 1) == LengthAt(k) {
      assert CursorsAt(k + 1)[0] != CursorsAt(k)[0];
    } else {
      assert |SampleSession(k + 1).operations| != |SampleSession(k).operations|;
    }
  }

  lemma EntryApplies(k: nat, n: nat)
    requires (k == 0 && n == 1) || (k == 2 && n == 2) || (k == 3 && n == 3)
    ensures Apply(SampleDigests(), SampleConfiguration(), SampleSession(k), SampleCommand(k + 1)) == Ok(SampleSession(k + 1))
  {
    hide PlanOrder, OpenAccepted;
    var s, q := SampleSession(k), SampleRequest(n);
    SamplePlans(n);
    Opens(k, n);
    assert SampleCommand(k + 1) == EntryCommand(q, SampleReadiness());
    forall i | 0 <= i < |s.operations| && s.operations[i].Order? ensures s.operations[i].intent.arbitration != n {
      assert s.operations[i] == SampleOps()[i];
    }
    assert q.resources == s.ledger by { LedgerTable(k, n); }
  }

  // ----- Quotes -----

  function SamplePolicy(): Policy { SampleConfiguration().policy.value }

  function SampleContext(): ContextPolicy { SampleConfiguration().context }

  /** A completed order is passed over. */
  lemma MatchDone(q: nat, available: int)
    ensures MatchQuote(SampleDigests(), SampleOrder(1), EventsAt(9, 1), SampleQuote(q), SamplePolicy(), SampleContext(), available) == Ok(None)
  {
    hide Reduce, LifecycleEvent;
    SampleHistory(1);
  }

  /** A quote above the limit fills nothing. */
  lemma MatchAbove(q: nat, n: nat, len: nat)
    requires (q == 2 || q == 4) && (n == 2 || n == 3) && 7 <= len <= 8
    ensures MatchQuote(SampleDigests(), SampleOrder(n), EventsAt(len, n), SampleQuote(q), SamplePolicy(), SampleContext(), 100) == Ok(None)
    requires q == 2 ==> len == 7
  {
    hide Reduce, LifecycleEvent, Lots;
    SampleHistory(n);
  }

  lemma DraftOf(n: nat)
    requires 1 <= n <= 3
    ensures var f := SampleFill(n);
            DraftEvent(SampleDigests(), SampleOrder(n), OrderState(n, Accepted, 0, None, 1, Some(2 * n + 1)), f.kind, f.occurredAt, None, f.fill) == f && f.Valid()
  {
    assert NextAverage(None, 0, 10.0, 200) == 10.0 && NextAverage(None, 0, 10.0, 100) == 10.0;
  }

  lemma LifecycleOf(n: nat)
    requires 1 <= n <= 3
    ensures var f := SampleFill(n);
            LifecycleEvent(SampleDigests(), SampleOrder(n), [SampleAccepted(n)], f.kind, f.occurredAt, None, f.fill) == Ok(f)
  {
    hide Reduce, DraftEvent, Event.Valid;
    SampleHistory(n);
    DraftOf(n);
    assert [SampleAccepted(n)] + [SampleFill(n)] == [SampleAccepted(n), SampleFill(n)];
  }

  /** The first, third and fifth quote fill orders 1, 2 and 3. */
  lemma MatchFills(n: nat)
    requires 1 <= n <= 3
    ensures MatchQuote(SampleDigests(), SampleOrder(n), [SampleAccepted(n)], SampleQuote(2 * n - 1), SamplePolicy(), SampleContext(), if n == 1 then 400 else 100)
            == Ok(Some(SampleFill(n)))
  {
    hide Reduce, LifecycleEvent;
    SampleHistory(n);
    LifecycleOf(n);
    var m := SampleQuote(2 * n - 1);
    assert !AlreadyUsed([SampleAccepted(n)], m);
    assert Lots(200, 400, 100) == 200 && Lots(200, 100, 100) == 100;
  }

  /** Nothing is left of the third quote for order 3. */
  lemma MatchSpent()
    ensures MatchQuote(SampleDigests(), SampleOrder(3), [SampleAccepted(3)], SampleQuote(3), SamplePolicy(), SampleContext(), 0) == Ok(None)
  {
    hide Reduce, LifecycleEvent;
    SampleHistory(3);
    assert Lots(200, 0, 100) == 0;
  }

  /** Order 2 has traded on the identity of the fifth quote: eligible, and skipped. */
  lemma MatchSkips()
    ensures var h, a, m := SampleDigests(), SampleOrder(2), SampleQuote(5);
            && Eligible(h, a, EventsAt(8, 2), m, SamplePolicy(), SampleContext()) && AlreadyUsed(EventsAt(8, 2), m)
            && MatchQuote(h, a, EventsAt(8, 2), m, SamplePolicy(), SampleContext(), 100) == Ok(None)
  {
    hide Reduce, LifecycleEvent, Lots;
    SampleHistory(2);
    assert EventsAt(8, 2)[1] == SampleFill(2);
  }

  // ----- Allocation -----

  lemma {:induction false} SampleIntents(k: nat)
    requires k <= 9
    ensures |SampleOps()| == 9
    ensures IntentsOf(SampleOps()[..k]) == if k == 0 then [] else if k <= 3 then [SampleOrder(1)] else if k <= 5 then [SampleOrder(1), SampleOrder(2)]
                                           else [SampleOrder(1), SampleOrder(2), SampleOrder(3)]
  {
    hide SampleOrder, SampleFill, SampleAccepted, SampleOps;
    OpTable(0);
    if k > 0 {
      SampleIntents(k - 1);
      OpTable(k - 1);
      assert SampleOps()[..k][..k - 1] == SampleOps()[..k - 1];
    }
  }

  lemma SampleSorted()
    ensures SortOrders(SampleDigests(), [SampleOrder(1)]) == [SampleOrder(1)]
    ensures SortOrders(SampleDigests(), [SampleOrder(1), SampleOrder(2), SampleOrder(3)]) == [SampleOrder(1), SampleOrder(2), SampleOrder(3)]
  {
    var h, a, b, c := SampleDigests(), SampleOrder(1), SampleOrder(2), SampleOrder(3);
    assert [a, b, c][..2] == [a, b] && [a, b][..1] == [a] && [a][..0] == [] && [a][1..] == [] && [a, b][1..] == [b] && [b][1..] == [];
    assert SortOrders(h, []) == [] && PlaceOrder(h, [], a) == [a] && PlaceOrder(h, [], b) == [b] && PlaceOrder(h, [], c) == [c];
    assert SortOrders(h, [a]) == [a];
    assert Precedes(h, a, b) && Precedes(h, a, c) && Precedes(h, b, c);
    assert PlaceOrder(h, [a], b) == [a] + PlaceOrder(h, [], b);
    assert SortOrders(h, [a, b]) == [a, b];
    assert PlaceOrder(h, [b], c) == [b] + PlaceOrder(h, [], c);
    assert PlaceOrder(h, [a, b], c) == [a] + PlaceOrder(h, [b], c);
  }

  /** Recording a fill, as the next operation of the log. */
  lemma AppendsFill(k: nat, n: nat)
    requires (k == 1 && n == 1) || (k == 5 && n == 2) || (k == 7 && n == 3)
    ensures Append(SampleDigests(), SampleSession(k), Report(SampleFill(n)))
            == Ok(SampleSession(k).(ledger := LedgerAt(LengthAt(k + 1)), operations := SampleOps()[..LengthAt(k + 1)]))
  {
    hide Reduce, Settle, EventsOf, FindOrder, LedgerAt;
    var len := LengthAt(k);
    SampleLog(len, n);
    SampleHistory(n);
    SampleSettles();
    assert EventsAt(len, n) + [SampleFill(n)] == [SampleAccepted(n), SampleFill(n)];
    assert LengthAt(k + 1) == len + 1 && SampleOps()[len] == Report(SampleFill(n));
    assert SampleOps()[..len] + [SampleOps()[len]] == SampleOps()[..len + 1];
    assert LedgerAt(len) == (if n == 1 then SampleLedger(1) else SampleLedger(4)) && LedgerAt(len + 1) == (if n == 1 then SampleLedger(2) else SampleLedger(4)) by { FillLedgers(k, n); }
  }

  lemma FillLedgers(k: nat, n: nat)
    requires (k == 1 && n == 1) || (k == 5 && n == 2) || (k == 7 && n == 3)
    ensures LedgerAt(LengthAt(k)) == (if n == 1 then SampleLedger(1) else SampleLedger(4))
    ensures LedgerAt(LengthAt(k) + 1) == (if n == 1 then SampleLedger(2) else SampleLedger(4))
  {}

  function QuoteOf(k: nat): nat { if k <= 3 then 1 else k - 2 }

  function BudgetsOf(k: nat): Budgets { if k == 1 then Budgets(400, 100) else Budgets(100, 0) }

  /** The session the allocation of a quote leaves, before its cursor moves. */
  function Allocated(k: nat): Session { SampleSession(k).(ledger := LedgerAt(LengthAt(k + 1)), operations := SampleOps()[..Min(LengthAt(k + 1), |SampleOps()|)]) }

  predicate Quoted(k: nat) { k == 1 || 4 <= k <= 7 }

  /** Offering a quote to the orders of the session after `k` commands, one by one. */
  lemma OffersFirst()
    ensures OfferOne(SampleDigests(), SamplePolicy(), SampleContext(), SampleQuote(1), Allocation(SampleSession(1), Budgets(400, 100)), SampleOrder(1))
            == Ok(Allocation(Allocated(1), Budgets(200, 100)))
  {
    hide MatchQuote, EventsOf, Append, LedgerAt;
    SampleLog(2, 1);
    MatchFills(1);
    AppendsFill(1, 1);
  }

  lemma OffersDone(k: nat)
    requires 4 <= k <= 7
    ensures OfferOne(SampleDigests(), SamplePolicy(), SampleContext(), SampleQuote(k - 2), Allocation(SampleSession(k), Budgets(100, 0)), SampleOrder(1))
            == Ok(Allocation(SampleSession(k), Budgets(100, 0)))
  {
    hide MatchQuote, EventsOf, Append, LedgerAt;
    SampleLog(LengthAt(k), 1);
    MatchDone(k - 2, 100);
  }

  /** What orders 2 and 3 get. */
  lemma OffersSecond(k: nat)
    requires 4 <= k <= 7
    ensures OfferOne(SampleDigests(), SamplePolicy(), SampleContext(), SampleQuote(k - 2), Allocation(SampleSession(k), Budgets(100, 0)), SampleOrder(2))
            == Ok(if k == 5 then Allocation(Allocated(5), Budgets(0, 0)) else Allocation(SampleSession(k), Budgets(100, 0)))
  {
    hide MatchQuote, EventsOf, Append, LedgerAt, Eligible, AlreadyUsed;
    SampleLog(LengthAt(k), 2);
    if k == 5 {
      MatchFills(2);
      AppendsFill(5, 2);
    } else if k == 7 {
      MatchSkips();
    } else {
      MatchAbove(k - 2, 2, LengthAt(k));
    }
  }

  lemma OffersThird(k: nat)
    requires 4 <= k <= 7
    ensures var before := if k == 5 then Allocation(Allocated(5), Budgets(0, 0)) else Allocation(SampleSession(k), Budgets(100, 0));
            OfferOne(SampleDigests(), SamplePolicy(), SampleContext(), SampleQuote(k - 2), before, SampleOrder(3))
            == Ok(Allocation(Allocated(k), if k == 5 || k == 7 then Budgets(0, 0) else Budgets(100, 0)))
  {
    hide MatchQuote, EventsOf, Append, LedgerAt;
    if k == 5 {
      SampleLog(8, 3);
      MatchSpent();
    } else {
      SampleLog(LengthAt(k), 3);
      if k == 7 {
        MatchFills(3);
        AppendsFill(7, 3);
      } else {
        MatchAbove(k - 2, 3, LengthAt(k));
        assert Allocated(k) == SampleSession(k) by { NothingAllocated(k); }
      }
    }
  }

  lemma NothingAllocated(k: nat)
    requires k == 4 || k == 6
    ensures Allocated(k) == SampleSession(k)
  {}

  lemma Allocates(k: nat)
    requires Quoted(k)
    ensures var h := SampleDigests();
            var r := OfferAll(h, SamplePolicy(), SampleContext(), SampleQuote(QuoteOf(k)), Allocation(SampleSession(k), BudgetsOf(k)),
                              SortOrders(h, IntentsOf(SampleSession(k).operations)));
            r.Ok? && r.value.session == Allocated(k)
  {
    hide OfferOne, SortOrders, IntentsOf, SampleOrder, SampleQuote, LedgerAt, SamplePolicy, SampleContext;
    var h, p, c, m := SampleDigests(), SamplePolicy(), SampleContext(), SampleQuote(QuoteOf(k));
    var start := Allocation(SampleSession(k), BudgetsOf(k));
    var x, y, z := SampleOrder(1), SampleOrder(2), SampleOrder(3);
    assert p.lotSize >= 1 by { LotOf(); }
    SampleIntents(LengthAt(k));
    SampleSorted();
    assert [x, y, z][..2] == [x, y] && [x, y][..1] == [x] && [x][..0] == [];
    assert OfferAll(h, p, c, m, start, []) == Ok(start);
    if k == 1 {
      OffersFirst();
    } else {
      OffersDone(k);
      OffersSecond(k);
      OffersThird(k);
      assert OfferAll(h, p, c, m, start, [x]) == Ok(start);
      assert OfferAll(h, p, c, m, start, [x, y]) == OfferOne(h, p, c, m, start, y);
    }
  }

  lemma LotOf()
    ensures SamplePolicy().lotSize == 100
  {}

  lemma BudgetsAre(k: nat)
    requires Quoted(k)
    ensures var previous := Cursor(CursorsAt(k), 0);
            && (k == 1 ==> previous == None) && (k > 1 ==> previous == Some(SampleQuote(if k == 4 then 1 else k - 3)))
            && QuoteBudgets(previous, SampleQuote(QuoteOf(k))) == BudgetsOf(k)
            && (previous.Some? ==> !CursorConflicts(previous.value, SampleQuote(QuoteOf(k))) && previous.value != SampleQuote(QuoteOf(k)))
  {}

  lemma CursorsMove(k: nat)
    requires Quoted(k)
    ensures PlaceMarket(CursorsAt(k), SampleQuote(QuoteOf(k))) == CursorsAt(k + 1)
  {
    if k > 1 { assert CursorsAt(k)[1..] == []; }
    assert PlaceMarket([], SampleQuote(QuoteOf(k))) == [SampleQuote(QuoteOf(k))];
  }

  lemma QuoteApplies(k: nat)
    requires Quoted(k)
    ensures ProcessQuote(SampleDigests(), SampleConfiguration(), SampleSession(k), SampleQuote(QuoteOf(k))) == Ok(SampleSession(k + 1))
  {
    hide OfferAll, SortOrders, IntentsOf, Finish, Cursor, PlaceMarket, CursorConflicts, LedgerAt, SampleQuote, QuoteBudgets;
    var h, cfg, s, m := SampleDigests(), SampleConfiguration(), SampleSession(k), SampleQuote(QuoteOf(k));
    assert m.symbol == 0 && LocalDay(m.observedAt, cfg.utcOffsetSeconds) == 0 by { QuoteDay(QuoteOf(k)); }
    assert s.ledger.tradeDate == 0 by { LedgerDay(LengthAt(k)); }
    BudgetsAre(k);
    Allocates(k);
    CursorsMove(k);
    var current := Allocated(k).(markets := CursorsAt(k + 1));
    assert current == SampleSession(k + 1).(revision := k);
    Validates(k, current);
  }

  lemma QuoteDay(q: nat)
    ensures SampleQuote(q).symbol == 0 && LocalDay(SampleQuote(q).observedAt, 25200) == 0
  {}

  lemma LedgerDay(len: nat)
    ensures LedgerAt(len).tradeDate == 0
  {}

  // ----- The run -----

  lemma {:induction false} SampleRuns(k: nat)
    requires k <= 7
    ensures Run(SampleDigests(), SampleConfiguration(), SampleSession(0), SampleCommands()[..k]) == SampleSession(k)
  {
    hide Apply, SampleSession, SampleCommand;
    var cs := SampleCommands();
    if k == 0 {
      assert cs[..0] == [];
    } else {
      SampleRuns(k - 1);
      assert cs[..k][..k - 1] == cs[..k - 1] && cs[..k][k - 1] == SampleCommand(k);
      CommandApplies(k);
    }
  }

  lemma CommandApplies(k: nat)
    requires 1 <= k <= 7
    ensures Apply(SampleDigests(), SampleConfiguration(), SampleSession(k - 1), SampleCommand(k)) == Ok(SampleSession(k))
  {
    hide ProcessQuote, SubmitEntry, SampleSession, SampleQuote, SampleRequest;
    if k == 1 {
      EntryApplies(0, 1);
    } else if k == 3 {
      EntryApplies(2, 2);
    } else if k == 4 {
      EntryApplies(3, 3);
    } else {
      QuoteApplies(k - 1);
    }
  }

  /** From the empty session a run of valid commands reaches a session and a quote that meet every premise
      of strict priority; the quote is accepted, the later order gains, and the earlier one, eligible, is
      left incomplete. The identity has one lot to spare. */
  lemma PriorityCanFail()
    ensures var h, cfg, start, m := SampleDigests(), SampleConfiguration(), SampleSession(0), SampleQuote(5);
            TellsApart(h) && cfg.Valid() && Initial(start) && CommandsValid(SampleCommands()) && m.Valid() &&
            var s := Run(h, cfg, start, SampleCommands());
            var a, b := SampleOrder(2), SampleOrder(3);
            && Outranked(h, cfg, s, m, a, b) && !Complete(h, ProcessQuote(h, cfg, s, m).value, a)
            && ReplayAll(h, s.Ground(), s.operations).Ok? && Spare(h, s, QuoteKey(m, Buy)) == 100
  {
    hide Reduce, ProcessQuote, EventsOf, Eligible, EvidenceQuantity, Healthy, ReplayAll, Run, Initial, CommandsValid, AlreadyUsed, LedgerAt, TellsApart;
    SampleToldApart();
    var h, cfg, m := SampleDigests(), SampleConfiguration(), SampleQuote(5);
    var a, b, s, n := SampleOrder(2), SampleOrder(3), SampleSession(7), SampleSession(8);
    CommandsFine();
    StartsInitial();
    SampleRuns(7);
    assert SampleCommands()[..7] == SampleCommands();
    RunHealthy(h, cfg, SampleSession(0), SampleCommands());
    QuoteApplies(7);
    MatchSkips();
    SampleLog(8, 2);
    SampleLog(8, 3);
    SampleLog(9, 2);
    SampleLog(9, 3);
    SampleHistory(2);
    EvidenceMore([SampleAccepted(3)], SampleFill(3));
    assert [SampleAccepted(3)] + [SampleFill(3)] == EventsAt(9, 3);
    assert s.operations[3] == Order(a) && s.operations[5] == Order(b);
    SampleReplays(8);
    assert s.Ground() == SampleGround() by { SameGround(7); }
  }
}
