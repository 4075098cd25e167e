/** The simulated day in the request's own figures: when each event falls, which entries are taken, and at
    what prices a cycle closes. */
module SimulationExact {
  import opened Simulation

  /** What a buy of one share costs and a sale yields, slippage, fees and tax included. */
  function BuyPrice(c: Costs, book: real): real { book * (1.0 + c.slippageBps / 10000.0) }

  function SellPrice(c: Costs, book: real): real { book * (1.0 - c.slippageBps / 10000.0) }

  predicate Bought(c: Costs, e: Execution, book: real, quantity: nat) {
    && e.price == BuyPrice(c, book) && e.notional == BuyPrice(c, book) * quantity as real
    && e.charge == BuyPrice(c, book) * quantity as real * c.buyFeeBps / 10000.0
  }

  predicate Sold(c: Costs, e: Execution, book: real, quantity: nat) {
    && e.price == SellPrice(c, book) && e.notional == SellPrice(c, book) * quantity as real
    && e.charge == SellPrice(c, book) * quantity as real * (c.sellFeeBps + c.sellTaxBps) / 10000.0
  }

  /** A buy never beats the book and a sale never exceeds it; both are charged on what they exchange. */
  lemma ExecutesAgainstBook(c: Costs, book: real, quantity: nat)
    requires c.Valid() && book > 0.0
    ensures Bought(c, Execute(c, book, true, quantity), book, quantity) && Execute(c, book, true, quantity).price >= book
    ensures Sold(c, Execute(c, book, false, quantity), book, quantity) && 0.0 <= Execute(c, book, false, quantity).price <= book
  {
    ShareBelow(book, c.slippageBps);
    assert book * (c.slippageBps / 10000.0) == Share(book, c.slippageBps);
    assert Execute(c, book, true, quantity).price == BuyPrice(c, book);
    assert Execute(c, book, false, quantity).price == SellPrice(c, book);
  }

  // ----- The schedule -----

  /** Events run by time; at one instant exits before entries, and within a phase by priority. */
  lemma ScheduleOrdered(q: Request, i: nat, j: nat)
    requires q.Valid() && i < j < |Schedule(q)|
    ensures var a, b := Schedule(q)[i], Schedule(q)[j];
            var s, t := if a.exit then a.proposal.horizonAt else a.proposal.entryAt, if b.exit then b.proposal.horizonAt else b.proposal.entryAt;
            s <= t && (s == t ==> (b.exit ==> a.exit) && (a.exit == b.exit ==> a.proposal.priority <= b.proposal.priority))
  {
    hide Schedule;
    ScheduleFacts(q);
    var less := (a: Event, b: Event) => Sooner(a, b);
    assert !less(Schedule(q)[j], Schedule(q)[i]);
  }

  // ----- Which entries are taken -----

  /** Room for the spend above the reserve, in cash or in an advance that pending sales still cover. */
  predicate Affordable(q: Request, s: State, spend: real) {
    var short := spend + q.risk.cashReserve - s.cash;
    || short <= 0.0
    || (&& q.advance.Some?
        && s.principal + s.interest + short + short * q.advance.value.days as real * q.advance.value.dailyInterestBps / 10000.0 <= s.pendingSales)
  }

  predicate Acceptable(q: Request, s: State, p: Proposal)
    requires p.symbol in q.holdings && p.symbol in s.positions && q.lotSize >= 1
  {
    && p.symbol !in s.open && p.entryVwap.Some? && p.quantity % q.lotSize == 0 && p.quantity <= q.risk.maxCycleQuantity
    && s.started < q.risk.maxCyclesPerDay && s.realizedNet > -q.risk.maxDailyLoss
    && q.holdings[p.symbol].core <= s.positions[p.symbol].settled - p.quantity
    && BuyValue(q.costs, p.entryVwap.value, p.quantity) <= q.risk.maxOrderNotional
    && Affordable(q, s, BuySpend(q.costs, p.entryVwap.value, p.quantity))
  }

  /** A purchase before and after its fee. */
  function BuyValue(c: Costs, book: real, quantity: nat): real { BuyPrice(c, book) * quantity as real }

  function BuySpend(c: Costs, book: real, quantity: nat): real { BuyValue(c, book, quantity) * (1.0 + c.buyFeeBps / 10000.0) }

  lemma SpendMeans(c: Costs, book: real, quantity: nat)
    requires c.Valid() && book > 0.0
    ensures var e := Execute(c, book, true, quantity); e.notional == BuyValue(c, book, quantity) && e.Spend() == BuySpend(c, book, quantity)
    ensures Bought(c, Execute(c, book, true, quantity), book, quantity)
  {
    ExecutesAgainstBook(c, book, quantity);
    hide Execute, BuyPrice;
    var value := BuyValue(c, book, quantity);
    assert value * (c.buyFeeBps / 10000.0) == value * c.buyFeeBps / 10000.0;
  }

  lemma AffordableExactly(q: Request, s: State, spend: real)
    ensures FundBuy(q, s, spend).Some? <==> Affordable(q, s, spend)
    ensures FundBuy(q, s, spend).Some? ==>
              var short := spend + q.risk.cashReserve - s.cash;
              && FundBuy(q, s, spend).value.draw == (if short <= 0.0 then 0.0 else short)
              && (short > 0.0 ==> FundBuy(q, s, spend).value.interest == short * q.advance.value.days as real * q.advance.value.dailyInterestBps / 10000.0)
              && (short <= 0.0 ==> FundBuy(q, s, spend).value.interest == 0.0)
  {}

  /** A proposal enters if and only if its symbol is free, its book known, its size within lots and limits, its
      shares above core, and its cost within the notional limit and affordable. */
  lemma EntersExactly(q: Request, s: State, p: Proposal)
    requires q.Valid() && p.Valid() && p.symbol in q.holdings && p.symbol in s.positions
    ensures EntryReason(q, s, p).None? <==> Acceptable(q, s, p)
    ensures !Acceptable(q, s, p) ==> Enter(q, s, p) == s.(results := s.results[p.id := Rejected(EntryReason(q, s, p).value)])
    ensures Acceptable(q, s, p) ==>
              var n := Enter(q, s, p);
              && p.symbol in n.open && n.open[p.symbol].proposal == p && Bought(q.costs, n.open[p.symbol].entry, p.entryVwap.value, p.quantity)
              && n.started == s.started + 1 && n.results == s.results && n.positions[p.symbol].settled == s.positions[p.symbol].settled
              && n.positions[p.symbol].bought == s.positions[p.symbol].bought + p.quantity
  {
    hide Execute, FundBuy, Affordable, BuyValue, BuySpend, Bought, Execution.Spend;
    if p.entryVwap.Some? {
      SpendMeans(q.costs, p.entryVwap.value, p.quantity);
      AffordableExactly(q, s, Execute(q.costs, p.entryVwap.value, true, p.quantity).Spend());
    }
  }

  // ----- Prices of every cycle -----

  /** Open and closed cycles traded at the request's own prices. */
  ghost predicate Priced(q: Request, s: State) {
    && (forall x :: x in s.open ==> BoughtAsAsked(q, s.open[x].proposal, s.open[x].entry))
    && (forall i :: 0 <= i < |q.proposals| && q.proposals[i].id in s.results && s.results[q.proposals[i].id].Closed? ==>
          ClosedAsAsked(q, q.proposals[i], s.results[q.proposals[i].id]))
  }

  predicate BoughtAsAsked(q: Request, p: Proposal, e: Execution) {
    p.entryVwap.Some? && Bought(q.costs, e, p.entryVwap.value, p.quantity)
  }

  predicate ClosedAsAsked(q: Request, p: Proposal, r: Status)
    requires r.Closed?
  {
    BoughtAsAsked(q, p, r.entry) && p.horizonVwap.Some? && Sold(q.costs, r.exit, p.horizonVwap.value, p.quantity)
  }

  lemma StepPrices(q: Request, done: seq<Event>, s: State, e: Event)
    requires q.Valid() && Inv(q, done, s) && e.proposal in q.proposals && Priced(q, s)
    ensures Priced(q, Step(q, s, e))
  {
    hide Execute, FundBuy, Money, Shares, Bought, Sold;
    var k :| 0 <= k < |q.proposals| && q.proposals[k] == e.proposal;
    var p, n := q.proposals[k], Step(q, s, e);
    KnownSymbols(q, done, s, k);
    assert Tracked(done, s, p);
    if p.entryVwap.Some? { ExecutesAgainstBook(q.costs, p.entryVwap.value, p.quantity); }
    if p.horizonVwap.Some? { ExecutesAgainstBook(q.costs, p.horizonVwap.value, p.quantity); }
    hide Inv;
    forall i | 0 <= i < |q.proposals| && q.proposals[i].id in n.results && n.results[q.proposals[i].id].Closed?
      ensures ClosedAsAsked(q, q.proposals[i], n.results[q.proposals[i].id])
    {
      if i != k { DistinctProposals(q, i, k); }
    }
  }

  lemma {:induction false} DayPrices(q: Request, k: nat)
    requires q.Valid() && k <= |Schedule(q)|
    ensures Priced(q, Replay(q, Schedule(q)[..k]))
  {
    hide Inv, Step, Schedule, Priced;
    var events := Schedule(q);
    if k == 0 {
      assert events[..0] == [];
      assert Priced(q, Start(q)) by { StartPriced(q); }
    } else {
      DayPrices(q, k - 1);
      ReplayKeeps(q, k - 1);
      EntryComesFirst(q, k - 1);
      assert events[..k][..k - 1] == events[..k - 1];
      StepPrices(q, events[..k - 1], Replay(q, events[..k - 1]), events[k - 1]);
    }
  }

  lemma StartPriced(q: Request)
    ensures Priced(q, Start(q))
  {}

  /** Every cycle a day closes bought at the entry book plus slippage and sold at the horizon book less slippage;
      its net is what the sale yields after fee and tax, less what the purchase cost with its fee. */
  lemma CyclesAtBookPrices(q: Request, p: Proposal)
    requires q.Valid() && p in q.proposals && p.id in Replay(q, Schedule(q)).results && Replay(q, Schedule(q)).results[p.id].Closed?
    ensures p.entryVwap.Some? && p.horizonVwap.Some?
    ensures var r, c, n := Replay(q, Schedule(q)).results[p.id], q.costs, p.quantity as real;
            && p.entryVwap.value <= r.entry.price == BuyPrice(c, p.entryVwap.value)
            && SellPrice(c, p.horizonVwap.value) == r.exit.price <= p.horizonVwap.value
            && Net(r.entry, r.exit) == r.exit.price * n * (1.0 - (c.sellFeeBps + c.sellTaxBps) / 10000.0) - r.entry.price * n * (1.0 + c.buyFeeBps / 10000.0)
  {
    hide Schedule, Replay, ClosedAsAsked, BuyPrice, SellPrice, Net;
    var events := Schedule(q);
    assert events[..|events|] == events;
    DayPrices(q, |events|);
    var k :| 0 <= k < |q.proposals| && q.proposals[k] == p;
    var r := Replay(q, events).results[p.id];
    assert ClosedAsAsked(q, q.proposals[k], r);
    ClosedMeans(q, p, r);
    NetAsAsked(q, p, r);
  }

  lemma ClosedMeans(q: Request, p: Proposal, r: Status)
    requires q.costs.Valid() && p.Valid() && r.Closed? && ClosedAsAsked(q, p, r)
    ensures p.entryVwap.Some? && p.horizonVwap.Some?
    ensures p.entryVwap.value <= r.entry.price == BuyPrice(q.costs, p.entryVwap.value)
    ensures SellPrice(q.costs, p.horizonVwap.value) == r.exit.price <= p.horizonVwap.value
  {
    hide Execute, BuyPrice, SellPrice;
    ExecutesAgainstBook(q.costs, p.entryVwap.value, p.quantity);
    ExecutesAgainstBook(q.costs, p.horizonVwap.value, p.quantity);
  }

  lemma NetAsAsked(q: Request, p: Proposal, r: Status)
    requires r.Closed? && ClosedAsAsked(q, p, r)
    ensures var c, n := q.costs, p.quantity as real;
            Net(r.entry, r.exit) == r.exit.price * n * (1.0 - (c.sellFeeBps + c.sellTaxBps) / 10000.0) - r.entry.price * n * (1.0 + c.buyFeeBps / 10000.0)
  {
    hide BuyPrice, SellPrice, Net;
    NetMeans(q.costs, r.entry, r.exit, r.entry.price * p.quantity as real, r.exit.price * p.quantity as real);
  }

  lemma NetMeans(c: Costs, entry: Execution, exit: Execution, paid: real, got: real)
    requires entry.notional == paid && entry.charge == paid * c.buyFeeBps / 10000.0
    requires exit.notional == got && exit.charge == got * (c.sellFeeBps + c.sellTaxBps) / 10000.0
    ensures Net(entry, exit) == got * (1.0 - (c.sellFeeBps + c.sellTaxBps) / 10000.0) - paid * (1.0 + c.buyFeeBps / 10000.0)
  {
    assert got * ((c.sellFeeBps + c.sellTaxBps) / 10000.0) == exit.charge;
    assert paid * (c.buyFeeBps / 10000.0) == entry.charge;
  }

  // ----- What becomes of a proposal -----

  /** Where a proposal stands once its entry is past: refused for good, or open or closed. */
  predicate Standing(s: State, p: Proposal, entered: bool) {
    if entered then IsOpen(s, p) || (p.id in s.results && s.results[p.id].Closed?)
    else !IsOpen(s, p) && p.id in s.results && s.results[p.id].Rejected?
  }

  /** A cycle is left open only for want of a book at its horizon. */
  ghost predicate OpenForWantOfBook(q: Request, s: State) {
    forall i :: 0 <= i < |q.proposals| && q.proposals[i].id in s.results && s.results[q.proposals[i].id].StillOpen? ==> q.proposals[i].horizonVwap.None?
  }

  lemma StepStands(q: Request, done: seq<Event>, s: State, e: Event, i: nat, entered: bool)
    requires q.Valid() && Inv(q, done, s) && e.proposal in q.proposals && i < |q.proposals| && Standing(s, q.proposals[i], entered)
    requires e != Event(false, q.proposals[i]) && (e.exit ==> Entered(done, e.proposal)) && e !in done
    ensures Standing(Step(q, s, e), q.proposals[i], entered)
  {
    hide Execute, FundBuy, Money, Shares, EntryReason;
    var k :| 0 <= k < |q.proposals| && q.proposals[k] == e.proposal;
    KnownSymbols(q, done, s, k);
    assert Tracked(done, s, q.proposals[k]) && Tracked(done, s, q.proposals[i]);
    if i != k { DistinctProposals(q, i, k); }
    if e.exit && IsOpen(s, q.proposals[k]) { ShortfallUnreachable(q, done, s, q.proposals[k]); }
    if !e.exit && EntryReason(q, s, q.proposals[k]).None? { FreeSymbol(q, s, q.proposals[k]); }
  }

  lemma FreeSymbol(q: Request, s: State, p: Proposal)
    requires p.symbol in q.holdings && p.symbol in s.positions && q.lotSize >= 1 && EntryReason(q, s, p).None?
    ensures p.symbol !in s.open
  {}

  lemma StepWants(q: Request, done: seq<Event>, s: State, e: Event)
    requires q.Valid() && Inv(q, done, s) && e.proposal in q.proposals && OpenForWantOfBook(q, s)
    ensures OpenForWantOfBook(q, Step(q, s, e))
  {
    hide Execute, FundBuy, Money, Shares, EntryReason;
    var k :| 0 <= k < |q.proposals| && q.proposals[k] == e.proposal;
    KnownSymbols(q, done, s, k);
    if e.exit && IsOpen(s, q.proposals[k]) { ShortfallUnreachable(q, done, s, q.proposals[k]); }
    hide Inv;
    var n := Step(q, s, e);
    forall i | 0 <= i < |q.proposals| && q.proposals[i].id in n.results && n.results[q.proposals[i].id].StillOpen? ensures q.proposals[i].horizonVwap.None? {
      if i != k { DistinctProposals(q, i, k); }
    }
  }

  lemma {:induction false} DayWants(q: Request, k: nat)
    requires q.Valid() && k <= |Schedule(q)|
    ensures OpenForWantOfBook(q, Replay(q, Schedule(q)[..k]))
  {
    hide Inv, Step, Schedule, OpenForWantOfBook;
    var events := Schedule(q);
    if k == 0 {
      assert events[..0] == [];
      assert OpenForWantOfBook(q, Start(q)) by { StartWants(q); }
    } else {
      DayWants(q, k - 1);
      ReplayKeeps(q, k - 1);
      EntryComesFirst(q, k - 1);
      assert events[..k][..k - 1] == events[..k - 1];
      StepWants(q, events[..k - 1], Replay(q, events[..k - 1]), events[k - 1]);
    }
  }

  lemma StartWants(q: Request)
    ensures OpenForWantOfBook(q, Start(q))
  {}

  lemma {:induction false} DayStands(q: Request, k: nat, n: nat, i: nat)
    requires q.Valid() && k < n <= |Schedule(q)| && i < |q.proposals| && Schedule(q)[k] == Event(false, q.proposals[i])
    requires q.proposals[i].symbol in q.holdings && q.proposals[i].symbol in Replay(q, Schedule(q)[..k]).positions
    ensures Standing(Replay(q, Schedule(q)[..n]), q.proposals[i], Acceptable(q, Replay(q, Schedule(q)[..k]), q.proposals[i]))
    decreases n
  {
    hide Inv, Step, Schedule, Acceptable, Standing;
    var events, p := Schedule(q), q.proposals[i];
    var s := Replay(q, events[..k]);
    assert events[..n][..n - 1] == events[..n - 1];
    ReplayKeeps(q, n - 1);
    EntryComesFirst(q, n - 1);
    if n == k + 1 {
      FirstStands(q, events[..k], s, i);
    } else {
      DayStands(q, k, n - 1, i);
      assert events[..n - 1][k] == Event(false, p);
      assert Event(false, p) in events[..n - 1];
      StepStands(q, events[..n - 1], Replay(q, events[..n - 1]), events[n - 1], i, Acceptable(q, s, p));
    }
  }

  lemma FirstStands(q: Request, done: seq<Event>, s: State, i: nat)
    requires q.Valid() && Inv(q, done, s) && i < |q.proposals| && !Entered(done, q.proposals[i])
    requires q.proposals[i].symbol in q.holdings && q.proposals[i].symbol in s.positions
    ensures Standing(Step(q, s, Event(false, q.proposals[i])), q.proposals[i], Acceptable(q, s, q.proposals[i]))
  {
    hide Acceptable, EntryReason, Execute, FundBuy, Bought, Money, Shares;
    var p := q.proposals[i];
    assert Tracked(done, s, p);
    EntersExactly(q, s, p);
  }

  /** The end of every proposal is decided at its entry and its horizon: rejected if it was not acceptable when its entry
      came, otherwise closed if the horizon's book is known, and left open if it is not. */
  lemma ResultExactly(q: Request, i: nat, k: nat)
    requires q.Valid() && i < |q.proposals| && k < |Schedule(q)| && Schedule(q)[k] == Event(false, q.proposals[i])
    requires q.proposals[i].symbol in q.holdings && q.proposals[i].symbol in Replay(q, Schedule(q)[..k]).positions
    ensures var p, s, f := q.proposals[i], Replay(q, Schedule(q)[..k]), Replay(q, Schedule(q));
            && p.id in f.results
            && (f.results[p.id].Rejected? <==> !Acceptable(q, s, p))
            && (f.results[p.id].Closed? <==> Acceptable(q, s, p) && p.horizonVwap.Some?)
            && (f.results[p.id].StillOpen? <==> Acceptable(q, s, p) && p.horizonVwap.None?)
  {
    hide Schedule, Replay, Acceptable, Bought, Sold;
    var events, p := Schedule(q), q.proposals[i];
    assert events[..|events|] == events;
    DayStands(q, k, |events|, i);
    EveryProposalResolved(q, p);
    DayWants(q, |events|);
    DayPrices(q, |events|);
    var f := Replay(q, events);
    assert f.results[p.id].Closed? ==> ClosedAsAsked(q, q.proposals[i], f.results[q.proposals[i].id]);
  }
}
