/** Cash, profit and inventory of every accepted log, stated from the fill evidence alone. */
module SessionAccounts {
  import opened Prelude
  import opened PaperModel
  import opened OrderReducer
  import opened LedgerParts
  import opened PaperLedger
  import opened SessionLog
  import opened SessionBooks

  /** What the last operation of a log closed: nothing, a purchase, or a sale out of a purchase. */
  datatype Settlement = Quiet | Bought(fills: seq<Event>) | Sold(fills: seq<Event>, symbol: Ident, boughtAt: Option<real>)

  /** The volume-weighted price of a set of fills. */
  function AveragePrice(events: seq<Event>): Option<real> {
    if EvidenceQuantity(events) == 0 then None
    else Some(EvidenceValue(events) / EvidenceQuantity(events) as real)
  }

  function SettlementAt(h: Digests, ops: seq<Operation>): Settlement
    requires ops != []
  {
    var last := ops[|ops| - 1];
    if last.Order? then Quiet
    else
      var sha := last.event.intentSha;
      var order, fills := FindOrder(h, ops, sha), EventsOf(ops, sha);
      if order.None? || Reduce(h, order.value, fills).Err? || !Reduce(h, order.value, fills).value.status.Terminal() then Quiet
      else if order.value.leg == Entry then Bought(fills)
      else if order.value.parent.None? || FindOrder(h, ops, order.value.parent.value).None? then Quiet
      else
        var parent := order.value.parent.value;
        Sold(fills, FindOrder(h, ops, parent).value.symbol, AveragePrice(EventsOf(ops, parent)))
  }

  /** Fee-inclusive money paid for the fills of settled entries. */
  function Outlay(h: Digests, costs: CostPolicy, ops: seq<Operation>): real {
    if ops == [] then 0.0
    else
      var s := SettlementAt(h, ops);
      Outlay(h, costs, ops[..|ops| - 1]) + if s.Bought? then Scaled(EvidenceValue(s.fills), costs.BuyFactor()) else 0.0
  }

  /** Fee-inclusive entry cost of the shares settled exits sold. */
  function SoldCost(h: Digests, costs: CostPolicy, ops: seq<Operation>): real {
    if ops == [] then 0.0
    else
      var s := SettlementAt(h, ops);
      SoldCost(h, costs, ops[..|ops| - 1]) + if s.Sold? then EntryCost(costs, s.boughtAt, EvidenceQuantity(s.fills)) else 0.0
  }

  /** Money due from the fills of settled exits, after fee and tax. */
  function Proceeds(h: Digests, costs: CostPolicy, ops: seq<Operation>): real {
    if ops == [] then 0.0
    else
      var s := SettlementAt(h, ops);
      Proceeds(h, costs, ops[..|ops| - 1]) + if s.Sold? then Scaled(EvidenceValue(s.fills), costs.SellFactor()) else 0.0
  }

  /** Shares of a symbol that settled exits sold. */
  function SoldQuantity(h: Digests, ops: seq<Operation>, symbol: Ident): nat {
    if ops == [] then 0
    else
      var s := SettlementAt(h, ops);
      SoldQuantity(h, ops[..|ops| - 1], symbol) + if s.Sold? && s.symbol == symbol then EvidenceQuantity(s.fills) else 0
  }

  ghost predicate CashBalances(h: Digests, base: Base, ops: seq<Operation>, l: Ledger) {
    && base.account.cash - l.cash - PendingCash(l) == Outlay(h, base.costs, ops)
    && Outlay(h, base.costs, ops) == SoldCost(h, base.costs, ops) + HeldCost(base.costs, l)
    && l.realizedPnl == Proceeds(h, base.costs, ops) - SoldCost(h, base.costs, ops)
  }

  ghost predicate SharesBalance(h: Digests, base: Base, ops: seq<Operation>, l: Ledger) {
    forall s :: OwnedQuantity(l, s) + SoldQuantity(h, ops, s) == Available(InitialPositions(base.account.positions), s)
  }

  ghost predicate Balanced(h: Digests, base: Base, ops: seq<Operation>, l: Ledger) {
    CashBalances(h, base, ops, l) && SharesBalance(h, base, ops, l)
  }

  lemma DivideBack(price: real, n: nat)
    requires n > 0
    ensures Cost(price, n) / n as real == price
  {
    var m := n as real;
    var quotient := (price * m) / m;
    assert quotient * m == price * m;
    assert (quotient - price) * m == 0.0;
  }

  lemma AverageIsEvidence(average: Option<real>, filled: nat, events: seq<Event>)
    requires filled == EvidenceQuantity(events) && Value(average, filled) == EvidenceValue(events)
    requires (filled == 0) == (average == None)
    ensures average == AveragePrice(events)
  {
    if average.Some? {
      DivideBack(average.value, filled);
    }
  }

  /** One step of the books: the four totals move by what the last operation settled. */
  lemma Carry(h: Digests, base: Base, ops: seq<Operation>, before: Ledger, after: Ledger)
    requires ops != [] && Balanced(h, base, ops[..|ops| - 1], before)
    requires var s := SettlementAt(h, ops);
             var spent := if s.Bought? then Scaled(EvidenceValue(s.fills), base.costs.BuyFactor()) else 0.0;
             var sold := if s.Sold? then EntryCost(base.costs, s.boughtAt, EvidenceQuantity(s.fills)) else 0.0;
             var due := if s.Sold? then Scaled(EvidenceValue(s.fills), base.costs.SellFactor()) else 0.0;
             && after.cash + PendingCash(after) == before.cash + PendingCash(before) - spent
             && HeldCost(base.costs, after) == HeldCost(base.costs, before) + spent - sold
             && after.realizedPnl == before.realizedPnl + due - sold
             && (forall q :: OwnedQuantity(after, q) == OwnedQuantity(before, q)
                   - if s.Sold? && s.symbol == q then EvidenceQuantity(s.fills) else 0)
    ensures Balanced(h, base, ops, after)
  {
    hide Scaled, EntryCost, SettlementAt, EvidenceValue, EvidenceQuantity, PendingCash, HeldCost, OwnedQuantity, Available, InitialPositions;
    forall q ensures OwnedQuantity(after, q) + SoldQuantity(h, ops, q) == Available(InitialPositions(base.account.positions), q) {
      var front := ops[..|ops| - 1];
      assert OwnedQuantity(before, q) + SoldQuantity(h, front, q) == Available(InitialPositions(base.account.positions), q);
    }
  }

  lemma CarryOrder(h: Digests, base: Base, ops: seq<Operation>, r: Replay)
    requires ops != [] && ops[|ops| - 1].Order? && ops[|ops| - 1].Valid()
    requires r.ledger.Valid() && Balanced(h, base, ops[..|ops| - 1], r.ledger)
    requires ReplayOrder(h, r, ops[|ops| - 1].intent).Ok?
    ensures Balanced(h, base, ops, ReplayOrder(h, r, ops[|ops| - 1].intent).value.ledger)
  {
    hide ReserveEntry, ReserveExit, Balanced, Scaled, EntryCost, PendingCash, HeldCost, OwnedQuantity, Ledger.Valid;
    var intent := ops[|ops| - 1].intent;
    if intent.leg == Entry {
      ReserveEntryConserves(h, r.ledger, intent, base.costs);
    } else {
      ReserveExitConserves(h, r.ledger, intent, base.costs);
    }
    Carry(h, base, ops, r.ledger, ReplayOrder(h, r, intent).value.ledger);
  }

  lemma CarryReport(h: Digests, base: Base, ops: seq<Operation>, r: Replay)
    requires ops != [] && ops[|ops| - 1].Report? && ops[|ops| - 1].Valid()
    requires Linked(h, ops[..|ops| - 1], r) && Books(h, r) && Balanced(h, base, ops[..|ops| - 1], r.ledger)
    requires ReplayReport(h, base.costs, r, ops[|ops| - 1].event).Ok?
    requires Linked(h, ops, ReplayReport(h, base.costs, r, ops[|ops| - 1].event).value)
    ensures Balanced(h, base, ops, ReplayReport(h, base.costs, r, ops[|ops| - 1].event).value.ledger)
  {
    hide Reduce, SettleEntry, SettleExit, SpendLiquidity, Balanced, Books, EventsOf, FindOrder, Scaled, EntryCost, SaleValue, AveragePrice, PendingCash, HeldCost, OwnedQuantity;
    var e := ops[|ops| - 1].event;
    var sha := e.intentSha;
    var n := ReplayReport(h, base.costs, r, e).value;
    AcceptedExtends(h, ops[..|ops| - 1], base.costs, r, e);
    assert FindOrder(h, ops, sha) == Some(n.intents[sha]) && EventsOf(ops, sha) == n.events[sha];
    if !Done(h, n, sha) {
      Carry(h, base, ops, r.ledger, n.ledger);
    } else if r.intents[sha].leg == Entry {
      CarryEntry(h, base, ops, r, n, e);
    } else {
      CarryExit(h, base, ops, r, n, e);
    }
  }

  lemma CarryEntry(h: Digests, base: Base, ops: seq<Operation>, r: Replay, n: Replay, e: Event)
    requires ops != [] && ops[|ops| - 1] == Report(e) && e.Valid()
    requires Linked(h, ops, n) && Books(h, r) && Balanced(h, base, ops[..|ops| - 1], r.ledger)
    requires Extended(h, r, n, e) && r.intents[e.intentSha].leg == Entry && Done(h, n, e.intentSha)
    requires SettleEntry(h, r.ledger, r.intents[e.intentSha], Reduce(h, r.intents[e.intentSha], n.events[e.intentSha]).value, base.costs) == Ok(n.ledger)
    ensures Balanced(h, base, ops, n.ledger)
  {
    hide Reduce, SettleEntry, Balanced, EventsOf, FindOrder, Scaled, Value, PendingCash, HeldCost, OwnedQuantity, Ledger.Valid, Explained, Backed;
    var sha := e.intentSha;
    var intent := r.intents[sha];
    AcceptedHistory(h, intent, n.events[sha]);
    EntrySymbols(h, r, sha);
    assert h.intent(intent) == sha;
    SettleEntryConserves(h, r.ledger, intent, Reduce(h, intent, n.events[sha]).value, base.costs);
    assert SettlementAt(h, ops) == Bought(n.events[sha]);
    Carry(h, base, ops, r.ledger, n.ledger);
  }

  lemma CarryExit(h: Digests, base: Base, ops: seq<Operation>, r: Replay, n: Replay, e: Event)
    requires ops != [] && ops[|ops| - 1] == Report(e) && e.Valid()
    requires Linked(h, ops, n) && Books(h, r) && Balanced(h, base, ops[..|ops| - 1], r.ledger)
    requires Extended(h, r, n, e) && r.intents[e.intentSha].leg == Exit && Done(h, n, e.intentSha)
    requires SettleExit(h, r.ledger, r.intents[e.intentSha], Reduce(h, r.intents[e.intentSha], n.events[e.intentSha]).value, base.costs) == Ok(n.ledger)
    ensures Balanced(h, base, ops, n.ledger)
  {
    hide Reduce, SettleExit, Balanced, EventsOf, FindOrder, Scaled, Value, PendingCash, HeldCost, OwnedQuantity, Ledger.Valid, Backed, ExitMatches, AveragePrice;
    var sha := e.intentSha;
    var intent := r.intents[sha];
    AcceptedHistory(h, intent, n.events[sha]);
    var state := Reduce(h, intent, n.events[sha]).value;
    assert h.intent(intent) == sha;
    SettleExitConserves(h, r.ledger, intent, state, base.costs);
    var prior := SettleExitEffect(h, r.ledger, intent, state, base.costs);
    assert Explained(h, r, prior);
    var bought := Reduce(h, r.intents[prior.entry], r.events[prior.entry]).value;
    assert n.events[prior.entry] == r.events[prior.entry];
    AcceptedHistory(h, r.intents[prior.entry], r.events[prior.entry]);
    AverageIsEvidence(bought.average, bought.filled, r.events[prior.entry]);
    assert SettlementAt(h, ops) == Sold(n.events[sha], prior.symbol, prior.entryAverage);
    Carry(h, base, ops, r.ledger, n.ledger);
  }

  /** For every log `reconcile` accepts: the cash that left is what the settled entries' fills cost,
      that cost is either still held or was sold, the realised result is sale proceeds less the cost
      of what was sold, and every settled share above core is available, reserved or sold. */
  lemma {:induction false} AcceptedLogBalances(h: Digests, base: Base, ops: seq<Operation>)
    requires base.Valid() && AllOpsValid(ops) && ReplayAll(h, base, ops).Ok?
    ensures Balanced(h, base, ops, ReplayAll(h, base, ops).value.ledger)
  {
    hide Balanced, Linked, ReplayOrder, ReplayReport, Ledger.Valid, Explained, Backed;
    ReplayBooks(h, base, ops);
    if ops == [] {
      StartBalanced(h, base);
    } else {
      var front := ops[..|ops| - 1];
      AcceptedLogBalances(h, base, front);
      ReplayBooks(h, base, front);
      if ops[|ops| - 1].Order? {
        CarryOrder(h, base, ops, ReplayAll(h, base, front).value);
      } else {
        CarryReport(h, base, ops, ReplayAll(h, base, front).value);
      }
    }
  }

  lemma StartBalanced(h: Digests, base: Base)
    requires base.Valid() && ReplayStart(base).Ok?
    ensures Balanced(h, base, [], ReplayStart(base).value.ledger)
  {}

  /** With every cycle closed, the realised result is the net sale proceeds less the cash that left. */
  lemma ClosedBooks(h: Digests, base: Base, ops: seq<Operation>)
    requires base.Valid() && AllOpsValid(ops) && ReplayAll(h, base, ops).Ok?
    requires ReplayAll(h, base, ops).value.ledger.reservations == []
    ensures var l := ReplayAll(h, base, ops).value.ledger;
            l.realizedPnl == Proceeds(h, base.costs, ops) - (base.account.cash - l.cash)
  {
    AcceptedLogBalances(h, base, ops);
  }

  /** Core holdings are never sold: whatever the log, the shares of a symbol that exits sold are at
      most its settled quantity above core. */
  lemma CoreNeverSold(h: Digests, base: Base, ops: seq<Operation>, i: nat)
    requires base.Valid() && AllOpsValid(ops) && ReplayAll(h, base, ops).Ok? && i < |base.account.positions|
    ensures var p := base.account.positions[i];
            var l := ReplayAll(h, base, ops).value.ledger;
            && Available(l.positions, p.symbol) + ReservedQuantity(l, p.symbol) + SoldQuantity(h, ops, p.symbol)
               == p.settled - p.coreMin
            && SoldQuantity(h, ops, p.symbol) <= p.settled - p.coreMin
  {
    hide ReplayAll, SoldQuantity, Reduce, Explained, Backed;
    var p := base.account.positions[i];
    var l := ReplayAll(h, base, ops).value.ledger;
    AcceptedLogBalances(h, base, ops);
    ReplayBooks(h, base, ops);
    AcceptedStart(h, base, ops);
    InitialLedger(base.account, base.tradeDate);
    assert OwnedQuantity(l, p.symbol) + SoldQuantity(h, ops, p.symbol) == p.settled - p.coreMin;
    AvailableNatural(l.positions, p.symbol);
    CountNatural(l.reservations, p.symbol);
  }

  lemma {:induction false} AcceptedStart(h: Digests, base: Base, ops: seq<Operation>)
    requires ReplayAll(h, base, ops).Ok?
    ensures Initialize(base.account, base.tradeDate).Ok?
  {
    if ops != [] { AcceptedStart(h, base, ops[..|ops| - 1]); }
  }

  lemma {:induction false} AvailableNatural(ps: seq<Position>, symbol: Ident)
    requires forall i :: 0 <= i < |ps| ==> ps[i].available >= 0
    ensures Available(ps, symbol) >= 0
  {
    if ps != [] { AvailableNatural(ps[1..], symbol); }
  }

  lemma {:induction false} CountNatural(rs: seq<Reservation>, symbol: Ident)
    ensures Count(rs, QuantityOf(symbol)) >= 0
  {
    if rs != [] { CountNatural(rs[1..], symbol); }
  }
}
