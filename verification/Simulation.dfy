/** Causal cash and inventory accounting of buy-first cycles over one day. */
module Simulation {
  import opened Prelude
  import PaperModel
  import opened Sorting

  datatype Costs = Costs(buyFeeBps: real, sellFeeBps: real, sellTaxBps: real, slippageBps: real)
  {
    predicate Valid() {
      && 0.0 <= buyFeeBps < 10000.0 && 0.0 <= sellFeeBps && 0.0 <= sellTaxBps
      && sellFeeBps + sellTaxBps < 10000.0 && 0.0 <= slippageBps < 10000.0
    }
  }

  datatype Holding = Holding(settled: nat, t1: nat, t2: nat, core: nat)
  {
    function Total(): nat { settled + t1 + t2 }
  }

  datatype Advance = Advance(days: nat, dailyInterestBps: real)

  datatype Proposal = Proposal(id: Digest, symbol: Ident, priority: nat, quantity: nat, entryAt: Instant, horizonAt: Instant,
                               entryVwap: Option<real>, horizonVwap: Option<real>)
  {
    predicate Valid() {
      && quantity >= 1 && entryAt < horizonAt
      && (entryVwap.Some? ==> entryVwap.value > 0.0) && (horizonVwap.Some? ==> horizonVwap.value > 0.0)
    }
  }

  datatype Request = Request(cash: real, holdings: map<Ident, Holding>, costs: Costs, advance: Option<Advance>, risk: PaperModel.RiskLimits,
                             lotSize: nat, proposals: seq<Proposal>)
  {
    predicate Valid() {
      && costs.Valid() && risk.Valid() && lotSize >= 1
      && (advance.Some? ==> advance.value.dailyInterestBps >= 0.0)
      && (forall s :: s in holdings ==> holdings[s].core <= holdings[s].settled)
      && (forall i :: 0 <= i < |proposals| ==> proposals[i].Valid() && proposals[i].symbol in holdings)
      && (forall i, j :: 0 <= i < j < |proposals| ==> proposals[i].id != proposals[j].id)
    }
  }

  datatype Position = Position(settled: int, t1: nat, t2: nat, bought: nat)
  {
    function Total(): int { settled + t1 + t2 + bought }
  }

  datatype Execution = Execution(price: real, notional: real, charge: real)
  {
    function Spend(): real { notional + charge }
  }

  datatype Status = Closed(entry: Execution, exit: Execution) | Rejected(reason: Reason) | StillOpen(reason: Reason)

  datatype Reason = SymbolBusy | EntryBookUnavailable | LotSize | QuantityLimit | CycleLimit | DailyLossLimit
                  | InsufficientSettledAboveCore | OrderNotionalLimit | CashLimit | ExitBookUnavailable | ExitSettledShortfall

  datatype OpenCycle = OpenCycle(proposal: Proposal, entry: Execution)

  datatype State = State(cash: real, pendingSales: real, principal: real, interest: real, positions: map<Ident, Position>,
                         open: map<Ident, OpenCycle>, results: map<Digest, Status>, started: nat, realizedNet: real)

  // ----- Money -----

  function Times(price: real, quantity: nat): real { price * quantity as real }

  function Share(value: real, bps: real): real { value * bps / 10000.0 }

  function Execute(c: Costs, bookPrice: real, buy: bool, quantity: nat): Execution {
    var price := if buy then bookPrice + Share(bookPrice, c.slippageBps) else bookPrice - Share(bookPrice, c.slippageBps);
    var notional := Times(price, quantity);
    Execution(price, notional, Share(notional, if buy then c.buyFeeBps else c.sellFeeBps + c.sellTaxBps))
  }

  /** Interest on a draw from today to settlement. */
  function Interest(a: Advance, draw: real): real { Share(Times(draw, a.days), a.dailyInterestBps) }

  datatype Funding = Funding(draw: real, interest: real)

  /** A permitted advance against pending sales, with its interest to settlement. */
  function FundBuy(q: Request, s: State, spend: real): Option<Funding> {
    var short := spend + q.risk.cashReserve - s.cash;
    if short <= 0.0 then Some(Funding(0.0, 0.0))
    else if q.advance.None? then None
    else
      var interest := Interest(q.advance.value, short);
      if s.principal + short + s.interest + interest > s.pendingSales then None else Some(Funding(short, interest))
  }

  function Net(entry: Execution, exit: Execution): real {
    exit.notional - entry.notional - (entry.charge + exit.charge)
  }

  // ----- One event -----

  datatype Event = Event(exit: bool, proposal: Proposal)
  {
    function At(): Instant { if exit then proposal.horizonAt else proposal.entryAt }
  }

  function EntryReason(q: Request, s: State, p: Proposal): Option<Reason>
    requires p.symbol in q.holdings && p.symbol in s.positions && q.lotSize >= 1
  {
    if p.symbol in s.open then Some(SymbolBusy)
    else if p.entryVwap.None? then Some(EntryBookUnavailable)
    else if p.quantity % q.lotSize != 0 then Some(LotSize)
    else if p.quantity > q.risk.maxCycleQuantity then Some(QuantityLimit)
    else if s.started >= q.risk.maxCyclesPerDay then Some(CycleLimit)
    else if s.realizedNet <= -q.risk.maxDailyLoss then Some(DailyLossLimit)
    else if s.positions[p.symbol].settled - p.quantity < q.holdings[p.symbol].core then Some(InsufficientSettledAboveCore)
    else if Execute(q.costs, p.entryVwap.value, true, p.quantity).notional > q.risk.maxOrderNotional then Some(OrderNotionalLimit)
    else if FundBuy(q, s, Execute(q.costs, p.entryVwap.value, true, p.quantity).Spend()).None? then Some(CashLimit)
    else None
  }

  function Enter(q: Request, s: State, p: Proposal): State
    requires p.symbol in q.holdings && p.symbol in s.positions && q.lotSize >= 1
  {
    var reason := EntryReason(q, s, p);
    if reason.Some? then s.(results := s.results[p.id := Rejected(reason.value)])
    else
      var entry := Execute(q.costs, p.entryVwap.value, true, p.quantity);
      var funding := FundBuy(q, s, entry.Spend()).value;
      var position := s.positions[p.symbol];
      s.(cash := s.cash + funding.draw - entry.Spend(),
         principal := s.principal + funding.draw,
         interest := s.interest + funding.interest,
         realizedNet := s.realizedNet - funding.interest,
         positions := s.positions[p.symbol := position.(bought := position.bought + p.quantity)],
         open := s.open[p.symbol := OpenCycle(p, entry)],
         started := s.started + 1)
  }

  predicate IsOpen(s: State, p: Proposal) {
    p.symbol in s.open && s.open[p.symbol].proposal.id == p.id
  }

  function Leave(q: Request, s: State, p: Proposal): State
    requires p.symbol in q.holdings && p.symbol in s.positions
  {
    if !IsOpen(s, p) then s
    else if p.horizonVwap.None? then s.(results := s.results[p.id := StillOpen(ExitBookUnavailable)])
    else if s.positions[p.symbol].settled - p.quantity < q.holdings[p.symbol].core
    then s.(results := s.results[p.id := StillOpen(ExitSettledShortfall)])
    else
      var entry := s.open[p.symbol].entry;
      var exit := Execute(q.costs, p.horizonVwap.value, false, p.quantity);
      var position := s.positions[p.symbol];
      s.(positions := s.positions[p.symbol := position.(settled := position.settled - p.quantity)],
         pendingSales := s.pendingSales + (exit.notional - exit.charge),
         results := s.results[p.id := Closed(entry, exit)],
         realizedNet := s.realizedNet + Net(entry, exit),
         open := s.open - {p.symbol})
  }

  function Start(q: Request): State {
    State(q.cash, 0.0, 0.0, 0.0,
          map s | s in q.holdings :: Position(q.holdings[s].settled, q.holdings[s].t1, q.holdings[s].t2, 0), map[], map[], 0, 0.0)
  }

  predicate Ready(q: Request, s: State, e: Event) {
    q.lotSize >= 1 && e.proposal.symbol in q.holdings && e.proposal.symbol in s.positions
  }

  function Step(q: Request, s: State, e: Event): State {
    if !Ready(q, s, e) then s else if e.exit then Leave(q, s, e.proposal) else Enter(q, s, e.proposal)
  }

  function Replay(q: Request, events: seq<Event>): State {
    if events == [] then Start(q) else Step(q, Replay(q, events[..|events| - 1]), events[|events| - 1])
  }

  // ----- Sums over the proposals -----

  ghost function Sum(ps: seq<Proposal>, f: Proposal -> real): real {
    if ps == [] then 0.0 else Sum(ps[..|ps| - 1], f) + f(ps[|ps| - 1])
  }

  lemma {:induction false} SumSame(ps: seq<Proposal>, f: Proposal -> real, g: Proposal -> real)
    requires forall i :: 0 <= i < |ps| ==> f(ps[i]) == g(ps[i])
    ensures Sum(ps, f) == Sum(ps, g)
  {
    if ps != [] { SumSame(ps[..|ps| - 1], f, g); }
  }

  lemma {:induction false} SumChange(ps: seq<Proposal>, f: Proposal -> real, g: Proposal -> real, k: nat)
    requires k < |ps| && forall i :: 0 <= i < |ps| && i != k ==> f(ps[i]) == g(ps[i])
    ensures Sum(ps, g) == Sum(ps, f) + g(ps[k]) - f(ps[k])
  {
    if k == |ps| - 1 {
      SumSame(ps[..|ps| - 1], f, g);
    } else {
      SumChange(ps[..|ps| - 1], f, g, k);
    }
  }

  /** What a proposal has earned, as its result says. */
  ghost function Earned(s: State): Proposal -> real {
    (p: Proposal) => if p.id in s.results && s.results[p.id].Closed? then Net(s.results[p.id].entry, s.results[p.id].exit) else 0.0
  }

  /** What a proposal has tied up. */
  ghost function Tied(s: State): Proposal -> real {
    (p: Proposal) => if IsOpen(s, p) then s.open[p.symbol].entry.Spend() else 0.0
  }

  // ----- The invariant -----

  ghost predicate Entered(done: seq<Event>, p: Proposal) { Event(false, p) in done }

  ghost predicate Exited(done: seq<Event>, p: Proposal) { Event(true, p) in done }

  /** Each proposal is untouched, open, or settled with exactly one result. */
  ghost predicate Tracked(done: seq<Event>, s: State, p: Proposal) {
    && (Exited(done, p) ==> Entered(done, p))
    && (!Entered(done, p) ==> p.id !in s.results && !IsOpen(s, p))
    && (Entered(done, p) && !IsOpen(s, p) ==> p.id in s.results && !s.results[p.id].StillOpen?)
    && (IsOpen(s, p) ==> s.open[p.symbol].proposal == p && (p.id in s.results <==> Exited(done, p)))
    && (IsOpen(s, p) && p.id in s.results ==> s.results[p.id] == StillOpen(ExitBookUnavailable))
  }

  /** One symbol's shares: never below the core, and only the open cycle is on top of the start. */
  ghost predicate Shares(q: Request, s: State, symbol: Ident)
    requires symbol in q.holdings
  {
    && symbol in s.positions
    && s.positions[symbol].settled >= q.holdings[symbol].core
    && s.positions[symbol].Total() == q.holdings[symbol].Total() + (if symbol in s.open then s.open[symbol].proposal.quantity else 0)
    && (symbol in s.open ==>
          && s.open[symbol].proposal in q.proposals && s.open[symbol].proposal.symbol == symbol
          && s.positions[symbol].settled - s.open[symbol].proposal.quantity >= q.holdings[symbol].core)
  }

  ghost predicate Money(q: Request, s: State) {
    && s.cash + s.pendingSales - s.principal == q.cash + Sum(q.proposals, Earned(s)) - Sum(q.proposals, Tied(s))
    && s.realizedNet == Sum(q.proposals, Earned(s)) - s.interest
    && 0.0 <= s.principal && 0.0 <= s.interest && s.principal + s.interest <= s.pendingSales
  }

  ghost predicate Inv(q: Request, done: seq<Event>, s: State) {
    && s.positions.Keys == q.holdings.Keys && (forall x :: x in s.open ==> x in q.holdings)
    && (forall x :: x in q.holdings ==> Shares(q, s, x))
    && (forall i :: 0 <= i < |q.proposals| ==> Tracked(done, s, q.proposals[i]))
    && Money(q, s)
  }

  // ----- Money facts -----

  lemma Product(a: real, b: real)
    requires a >= 0.0 && b >= 0.0
    ensures a * b >= 0.0
  {}

  lemma ShareNatural(value: real, bps: real)
    requires value >= 0.0 && bps >= 0.0
    ensures Share(value, bps) >= 0.0
  {}

  lemma ShareBelow(value: real, bps: real)
    requires value >= 0.0 && 0.0 <= bps < 10000.0
    ensures 0.0 <= Share(value, bps) <= value
  {
    Product(value, bps);
    Product(value, 10000.0 - bps);
    assert value * (10000.0 - bps) == value * 10000.0 - value * bps;
  }

  lemma TimesNatural(price: real, n: nat)
    requires price >= 0.0
    ensures Times(price, n) >= 0.0
  {}

  lemma SaleNatural(c: Costs, price: real, n: nat)
    requires c.Valid() && price > 0.0
    ensures var e := Execute(c, price, false, n); e.notional - e.charge >= 0.0
  {
    hide Share, Times;
    ShareBelow(price, c.slippageBps);
    var e := Execute(c, price, false, n);
    TimesNatural(e.price, n);
    ShareBelow(e.notional, c.sellFeeBps + c.sellTaxBps);
  }

  /** An accepted buy leaves cash at or above the reserve, and never advances more than pending sales. */
  lemma FundingFacts(q: Request, s: State, spend: real)
    requires q.Valid() && FundBuy(q, s, spend).Some?
    requires 0.0 <= s.principal && 0.0 <= s.interest && s.principal + s.interest <= s.pendingSales
    ensures var f := FundBuy(q, s, spend).value;
            && f.draw >= 0.0 && f.interest >= 0.0 && s.cash + f.draw - spend >= q.risk.cashReserve
            && s.principal + f.draw + s.interest + f.interest <= s.pendingSales
  {
    hide Share, Times;
    var short := spend + q.risk.cashReserve - s.cash;
    if short > 0.0 {
      TimesNatural(short, q.advance.value.days);
      ShareNatural(Times(short, q.advance.value.days), q.advance.value.dailyInterestBps);
    }
  }

  // ----- Every event -----

  /** The state says the same of this proposal. */
  ghost predicate SameFor(s: State, n: State, x: Proposal) {
    && (x.id in s.results <==> x.id in n.results) && (x.id in s.results ==> s.results[x.id] == n.results[x.id])
    && (IsOpen(s, x) <==> IsOpen(n, x)) && (IsOpen(s, x) ==> s.open[x.symbol] == n.open[x.symbol])
  }

  lemma OthersTracked(q: Request, done: seq<Event>, e: Event, s: State, n: State, k: nat)
    requires q.Valid() && k < |q.proposals| && e.proposal == q.proposals[k]
    requires forall i :: 0 <= i < |q.proposals| ==> Tracked(done, s, q.proposals[i])
    requires forall i :: 0 <= i < |q.proposals| && i != k ==> SameFor(s, n, q.proposals[i])
    requires Tracked(done + [e], n, q.proposals[k])
    ensures forall i :: 0 <= i < |q.proposals| ==> Tracked(done + [e], n, q.proposals[i])
  {
    hide IsOpen;
    forall i | 0 <= i < |q.proposals| && i != k ensures Tracked(done + [e], n, q.proposals[i]) {
      assert q.proposals[i] != e.proposal by { DistinctProposals(q, i, k); }
      assert Tracked(done, s, q.proposals[i]);
    }
  }

  lemma DistinctProposals(q: Request, i: nat, k: nat)
    requires q.Valid() && i < |q.proposals| && k < |q.proposals| && i != k
    ensures q.proposals[i].id != q.proposals[k].id
  {}

  lemma SumsMove(q: Request, s: State, n: State, k: nat)
    requires q.Valid() && k < |q.proposals| && forall i :: 0 <= i < |q.proposals| && i != k ==> SameFor(s, n, q.proposals[i])
    ensures Sum(q.proposals, Earned(n)) == Sum(q.proposals, Earned(s)) + Earned(n)(q.proposals[k]) - Earned(s)(q.proposals[k])
    ensures Sum(q.proposals, Tied(n)) == Sum(q.proposals, Tied(s)) + Tied(n)(q.proposals[k]) - Tied(s)(q.proposals[k])
  {
    hide Net, Execution.Spend, Sum;
    SumChange(q.proposals, Earned(s), Earned(n), k);
    SumChange(q.proposals, Tied(s), Tied(n), k);
  }

  lemma SharesSame(q: Request, s: State, n: State)
    requires n.positions == s.positions && n.open == s.open
    ensures forall x :: x in q.holdings && Shares(q, s, x) ==> Shares(q, n, x)
  {}

  /** Writing a result for a proposal that has none, without touching positions or open cycles. */
  lemma ResultKeeps(q: Request, done: seq<Event>, s: State, e: Event, k: nat, status: Status)
    requires q.Valid() && Inv(q, done, s) && k < |q.proposals| && e.proposal == q.proposals[k] && e !in done
    requires if e.exit then Entered(done, e.proposal) && IsOpen(s, e.proposal) && status == StillOpen(ExitBookUnavailable) else status.Rejected?
    ensures e.proposal.id !in s.results
    ensures Inv(q, done + [e], s.(results := s.results[e.proposal.id := status]))
  {
    hide Shares, Execution.Spend, Net;
    var p := q.proposals[k];
    var n := s.(results := s.results[p.id := status]);
    assert Tracked(done, s, p);
    SharesSame(q, s, n);
    forall i | 0 <= i < |q.proposals| && i != k ensures SameFor(s, n, q.proposals[i]) { DistinctProposals(q, i, k); }
    SumsMove(q, s, n, k);
    OthersTracked(q, done, e, s, n, k);
  }

  lemma SkipKeeps(q: Request, done: seq<Event>, s: State, e: Event, k: nat)
    requires q.Valid() && Inv(q, done, s) && k < |q.proposals| && e.proposal == q.proposals[k] && e.exit
    requires Entered(done, e.proposal) && !IsOpen(s, e.proposal)
    ensures Inv(q, done + [e], s)
  {
    hide Shares, Money, IsOpen;
    assert Tracked(done, s, q.proposals[k]);
    OthersTracked(q, done, e, s, s, k);
  }

  /** A change to one proposal's cycle and its symbol's position. */
  ghost predicate Local(q: Request, s: State, n: State, k: nat)
    requires k < |q.proposals|
  {
    var p := q.proposals[k];
    && n.positions.Keys == s.positions.Keys && (forall x :: x in n.open ==> x in s.open || x == p.symbol)
    && (forall x :: x in s.positions && x != p.symbol ==>
          n.positions[x] == s.positions[x] && (x in n.open <==> x in s.open) && (x in s.open ==> n.open[x] == s.open[x]))
    && (forall i :: 0 <= i < |q.proposals| && i != k ==> SameFor(s, n, q.proposals[i]))
  }

  lemma LocalKeeps(q: Request, done: seq<Event>, s: State, n: State, e: Event, k: nat)
    requires q.Valid() && Inv(q, done, s) && k < |q.proposals| && e.proposal == q.proposals[k] && Local(q, s, n, k)
    requires Shares(q, n, q.proposals[k].symbol) && Tracked(done + [e], n, q.proposals[k]) && Money(q, n)
    ensures Inv(q, done + [e], n)
  {
    hide Money, Tracked, SameFor;
    OthersTracked(q, done, e, s, n, k);
    forall x | x in q.holdings ensures Shares(q, n, x) { assert Shares(q, s, x); }
  }

  lemma AcceptKeeps(q: Request, done: seq<Event>, s: State, k: nat)
    requires q.Valid() && Inv(q, done, s) && k < |q.proposals| && !Entered(done, q.proposals[k])
    requires q.proposals[k].symbol in q.holdings && q.proposals[k].symbol in s.positions && EntryReason(q, s, q.proposals[k]).None?
    ensures Inv(q, done + [Event(false, q.proposals[k])], Enter(q, s, q.proposals[k]))
    ensures Enter(q, s, q.proposals[k]).cash >= q.risk.cashReserve
  {
    hide Net, FundBuy, Execute, Sum;
    var p := q.proposals[k];
    var e := Event(false, p);
    var n := Enter(q, s, p);
    assert Shares(q, s, p.symbol) && Tracked(done, s, p);
    FundingFacts(q, s, Execute(q.costs, p.entryVwap.value, true, p.quantity).Spend());
    AcceptLocal(q, done, s, k);
    SumsMove(q, s, n, k);
    assert Money(q, n);
    hide Money, Local;
    LocalKeeps(q, done, s, n, e, k);
  }

  lemma AcceptLocal(q: Request, done: seq<Event>, s: State, k: nat)
    requires q.Valid() && Inv(q, done, s) && k < |q.proposals| && !Entered(done, q.proposals[k])
    requires q.proposals[k].symbol in q.holdings && q.proposals[k].symbol in s.positions && EntryReason(q, s, q.proposals[k]).None?
    ensures Local(q, s, Enter(q, s, q.proposals[k]), k)
  {
    hide Net, FundBuy, Execute, Money, Shares;
    var n := Enter(q, s, q.proposals[k]);
    forall i | 0 <= i < |q.proposals| && i != k ensures SameFor(s, n, q.proposals[i]) { DistinctProposals(q, i, k); }
  }

  lemma CloseKeeps(q: Request, done: seq<Event>, s: State, k: nat)
    requires q.Valid() && Inv(q, done, s) && k < |q.proposals|
    requires q.proposals[k].symbol in q.holdings && q.proposals[k].symbol in s.positions
    requires Entered(done, q.proposals[k]) && !Exited(done, q.proposals[k]) && IsOpen(s, q.proposals[k]) && q.proposals[k].horizonVwap.Some?
    ensures Inv(q, done + [Event(true, q.proposals[k])], Leave(q, s, q.proposals[k]))
    ensures q.proposals[k].id !in s.results
  {
    hide Execute, Sum;
    var p := q.proposals[k];
    var e := Event(true, p);
    var n := Leave(q, s, p);
    assert Shares(q, s, p.symbol) && Tracked(done, s, p);
    SaleNatural(q.costs, p.horizonVwap.value, p.quantity);
    CloseLocal(q, s, k);
    SumsMove(q, s, n, k);
    assert Money(q, n);
    hide Money, Local;
    LocalKeeps(q, done, s, n, e, k);
  }

  lemma CloseLocal(q: Request, s: State, k: nat)
    requires q.Valid() && k < |q.proposals| && q.proposals[k].symbol in q.holdings && q.proposals[k].symbol in s.positions
    requires IsOpen(s, q.proposals[k]) && q.proposals[k].horizonVwap.Some?
    ensures Local(q, s, Leave(q, s, q.proposals[k]), k)
  {
    hide Execute, Net;
    var n := Leave(q, s, q.proposals[k]);
    forall i | 0 <= i < |q.proposals| && i != k ensures SameFor(s, n, q.proposals[i]) { DistinctProposals(q, i, k); }
  }

  /** While a cycle is open its symbol's settled shares do not move: the exit shortfall never happens. */
  lemma ShortfallUnreachable(q: Request, done: seq<Event>, s: State, p: Proposal)
    requires q.Valid() && Inv(q, done, s) && p in q.proposals && IsOpen(s, p)
    ensures s.positions[p.symbol].settled - p.quantity >= q.holdings[p.symbol].core
  {
    hide Money;
    var k :| 0 <= k < |q.proposals| && q.proposals[k] == p;
    assert Tracked(done, s, q.proposals[k]) && Shares(q, s, p.symbol);
  }

  lemma EventKeeps(q: Request, done: seq<Event>, s: State, e: Event)
    requires q.Valid() && Inv(q, done, s) && e.proposal in q.proposals && e !in done && (e.exit ==> Entered(done, e.proposal))
    ensures Inv(q, done + [e], Step(q, s, e))
  {
    hide Inv, EntryReason;
    var k :| 0 <= k < |q.proposals| && q.proposals[k] == e.proposal;
    var p := q.proposals[k];
    assert Ready(q, s, e) by { KnownSymbols(q, done, s, k); }
    if !e.exit {
      var reason := EntryReason(q, s, p);
      if reason.Some? {
        ResultKeeps(q, done, s, e, k, Rejected(reason.value));
      } else {
        AcceptKeeps(q, done, s, k);
      }
    } else if !IsOpen(s, p) {
      SkipKeeps(q, done, s, e, k);
    } else if p.horizonVwap.None? {
      ResultKeeps(q, done, s, e, k, StillOpen(ExitBookUnavailable));
    } else {
      CloseKeeps(q, done, s, k);
    }
  }

  lemma KnownSymbols(q: Request, done: seq<Event>, s: State, k: nat)
    requires q.Valid() && Inv(q, done, s) && k < |q.proposals|
    ensures q.lotSize >= 1 && q.proposals[k].symbol in q.holdings && q.proposals[k].symbol in s.positions
  {
    hide Money, Shares, Tracked;
  }

  // ----- The day's schedule -----

  /** Time first; exits before entries at one instant; then arbitration priority. */
  predicate Sooner(a: Event, b: Event) {
    || a.At() < b.At()
    || (a.At() == b.At() && a.exit && !b.exit)
    || (a.At() == b.At() && a.exit == b.exit && a.proposal.priority < b.proposal.priority)
  }

  function EventsOf(ps: seq<Proposal>): seq<Event> {
    if ps == [] then []
    else EventsOf(ps[..|ps| - 1]) + [Event(false, ps[|ps| - 1]), Event(true, ps[|ps| - 1])]
  }

  function Schedule(q: Request): seq<Event> { Sort((a: Event, b: Event) => Sooner(a, b), EventsOf(q.proposals)) }

  lemma SoonerIsOrder()
    ensures WeakOrder((a: Event, b: Event) => Sooner(a, b))
  {}

  lemma {:induction false} EventMembers(ps: seq<Proposal>, e: Event)
    ensures e in EventsOf(ps) <==> e.proposal in ps
  {
    if ps != [] {
      EventMembers(ps[..|ps| - 1], e);
      assert ps == ps[..|ps| - 1] + [ps[|ps| - 1]];
    }
  }

  predicate DistinctIds(ps: seq<Proposal>) {
    forall i, j :: 0 <= i < j < |ps| ==> ps[i].id != ps[j].id
  }

  lemma {:induction false} EventCount(ps: seq<Proposal>, e: Event)
    requires DistinctIds(ps)
    ensures multiset(EventsOf(ps))[e] <= 1
  {
    if ps != [] {
      var front, last := ps[..|ps| - 1], ps[|ps| - 1];
      EventCount(front, e);
      EventMembers(front, e);
      assert last !in front;
      assert multiset(EventsOf(ps)) == multiset(EventsOf(front)) + multiset{Event(false, last), Event(true, last)};
    }
  }

  /** Every proposal's entry and exit occur exactly once, the entry first. */
  lemma ScheduleFacts(q: Request)
    requires q.Valid()
    ensures NonDecreasing((a: Event, b: Event) => Sooner(a, b), Schedule(q))
    ensures forall e :: e in Schedule(q) <==> e.proposal in q.proposals
    ensures forall e :: multiset(Schedule(q))[e] <= 1
  {
    hide Sooner;
    SoonerIsOrder();
    SortWithTies((a: Event, b: Event) => Sooner(a, b), EventsOf(q.proposals));
    forall e ensures e in Schedule(q) <==> e.proposal in q.proposals { EventMembers(q.proposals, e); }
    forall e ensures multiset(Schedule(q))[e] <= 1 { EventCount(q.proposals, e); }
  }

  lemma OnceOnly(events: seq<Event>, i: nat, j: nat)
    requires i < j < |events| && forall e :: multiset(events)[e] <= 1
    ensures events[i] != events[j]
  {
    var front, back := events[..j], events[j..];
    assert events == front + back;
    assert front[i] in front && back[0] in back;
    assert multiset(front)[events[i]] >= 1 && multiset(back)[events[j]] >= 1;
    assert multiset(events)[events[j]] == multiset(front)[events[j]] + multiset(back)[events[j]];
  }

  lemma EntryComesFirst(q: Request, k: nat)
    requires q.Valid() && k < |Schedule(q)|
    ensures Schedule(q)[k].proposal in q.proposals && Schedule(q)[k] !in Schedule(q)[..k]
    ensures Schedule(q)[k].exit ==> Entered(Schedule(q)[..k], Schedule(q)[k].proposal)
  {
    hide Schedule, EventsOf;
    ScheduleFacts(q);
    var events := Schedule(q);
    var e := events[k];
    assert e in events;
    forall i | 0 <= i < k ensures events[i] != e { OnceOnly(events, i, k); }
    if e.exit {
      var p := e.proposal;
      assert Event(false, p) in events;
      var i :| 0 <= i < |events| && events[i] == Event(false, p);
      assert p.entryAt < p.horizonAt;
      var less := (a: Event, b: Event) => Sooner(a, b);
      assert k < i ==> !less(Event(false, p), e);
      assert i < k;
      assert events[..k][i] == Event(false, p);
    }
  }

  lemma {:induction false} ReplayKeeps(q: Request, k: nat)
    requires q.Valid() && k <= |Schedule(q)|
    ensures Inv(q, Schedule(q)[..k], Replay(q, Schedule(q)[..k]))
  {
    hide Inv, Step, Schedule;
    var events := Schedule(q);
    if k == 0 {
      StartKeeps(q);
      assert events[..0] == [];
    } else {
      ReplayKeeps(q, k - 1);
      assert events[..k][..k - 1] == events[..k - 1] && events[..k] == events[..k - 1] + [events[k - 1]];
      EntryComesFirst(q, k - 1);
      EventKeeps(q, events[..k - 1], Replay(q, events[..k - 1]), events[k - 1]);
    }
  }

  lemma StartKeeps(q: Request)
    requires q.Valid()
    ensures Inv(q, [], Start(q))
  {
    NothingYet(q.proposals, Earned(Start(q)));
    NothingYet(q.proposals, Tied(Start(q)));
  }

  lemma {:induction false} NothingYet(ps: seq<Proposal>, f: Proposal -> real)
    requires forall i :: 0 <= i < |ps| ==> f(ps[i]) == 0.0
    ensures Sum(ps, f) == 0.0
  {
    if ps != [] { NothingYet(ps[..|ps| - 1], f); }
  }

  // ----- Results -----

  ghost function GrossOf(s: State): Proposal -> real {
    (p: Proposal) => if p.id in s.results && s.results[p.id].Closed? then s.results[p.id].exit.notional - s.results[p.id].entry.notional else 0.0
  }

  ghost function ChargeOf(s: State): Proposal -> real {
    (p: Proposal) => if p.id in s.results && s.results[p.id].Closed? then s.results[p.id].entry.charge + s.results[p.id].exit.charge else 0.0
  }

  lemma {:induction false} SumSplit(ps: seq<Proposal>, s: State)
    ensures Sum(ps, Earned(s)) == Sum(ps, GrossOf(s)) - Sum(ps, ChargeOf(s))
  {
    if ps != [] { SumSplit(ps[..|ps| - 1], s); }
  }

  /** Every proposal gets exactly one result, and none for a settled shortfall. */
  lemma EveryProposalResolved(q: Request, p: Proposal)
    requires q.Valid() && p in q.proposals
    ensures var s := Replay(q, Schedule(q)); p.id in s.results && (IsOpen(s, p) <==> s.results[p.id].StillOpen?)
    ensures Replay(q, Schedule(q)).results[p.id] != StillOpen(ExitSettledShortfall)
  {
    hide Money, Shares, Schedule, Replay;
    var events := Schedule(q);
    assert events[..|events|] == events;
    ReplayKeeps(q, |events|);
    ScheduleFacts(q);
    var k :| 0 <= k < |q.proposals| && q.proposals[k] == p;
    assert Tracked(events, Replay(q, events), q.proposals[k]);
    assert Event(true, p).proposal in q.proposals && Event(false, p).proposal in q.proposals;
  }

  /** At the end of every day: the core is untouched, advances are covered by pending sales, and when
      no cycle is left open both final reconciliation checks hold. */
  lemma DayReconciles(q: Request)
    requires q.Valid()
    ensures var s := Replay(q, Schedule(q));
            && s.principal + s.interest <= s.pendingSales
            && (forall x :: x in q.holdings ==> x in s.positions && s.positions[x].settled >= q.holdings[x].core)
            && (s.open == map[] ==>
                  && (forall x :: x in q.holdings ==> s.positions[x].Total() == q.holdings[x].Total())
                  && s.cash + s.pendingSales - s.principal - s.interest - q.cash
                     == Sum(q.proposals, GrossOf(s)) - Sum(q.proposals, ChargeOf(s)) - s.interest)
  {
    hide Schedule, Replay, Tracked, Sum;
    var events := Schedule(q);
    assert events[..|events|] == events;
    ReplayKeeps(q, |events|);
    var s := Replay(q, events);
    forall x | x in q.holdings ensures x in s.positions && s.positions[x].settled >= q.holdings[x].core { assert Shares(q, s, x); }
    SumSplit(q.proposals, s);
    if s.open == map[] {
      NothingYet(q.proposals, Tied(s));
      forall x | x in q.holdings ensures s.positions[x].Total() == q.holdings[x].Total() { assert Shares(q, s, x); }
    }
  }

  /** Along the whole day, cash moves only with an accepted buy, and every accepted buy leaves it at or
      above the reserve. */
  lemma BuysKeepReserve(q: Request, k: nat)
    requires q.Valid() && k < |Schedule(q)|
    ensures var before, after := Replay(q, Schedule(q)[..k]), Replay(q, Schedule(q)[..k + 1]);
            && (after.started == before.started + 1 || (after.started == before.started && after.cash == before.cash))
            && (after.started == before.started + 1 ==> after.cash >= q.risk.cashReserve)
  {
    hide Schedule, Inv, FundBuy, Execute;
    var events := Schedule(q);
    ReplayKeeps(q, k);
    EntryComesFirst(q, k);
    assert events[..k + 1][..k] == events[..k] && events[..k + 1][k] == events[k];
    var before, e := Replay(q, events[..k]), events[k];
    var i :| 0 <= i < |q.proposals| && q.proposals[i] == e.proposal;
    KnownSymbols(q, events[..k], before, i);
    if !e.exit && EntryReason(q, before, e.proposal).None? {
      AcceptKeeps(q, events[..k], before, i);
    }
  }

  /** The simulator's loop over the day's events. */
  method Simulate(q: Request) returns (s: State)
    requires q.Valid()
    ensures s == Replay(q, Schedule(q))
    ensures forall p :: p in q.proposals ==> p.id in s.results
    ensures s.principal + s.interest <= s.pendingSales
  {
    hide Schedule, Step;
    var events := Schedule(q);
    s := Start(q);
    for i := 0 to |events|
      invariant s == Replay(q, events[..i])
    {
      assert events[..i + 1][..i] == events[..i];
      s := Step(q, s, events[i]);
    }
    assert events[..|events|] == events;
    DayReconciles(q);
    forall p | p in q.proposals ensures p.id in s.results { EveryProposalResolved(q, p); }
  }
}
