/** Each ledger transition, exactly: when it is refused and everything it changes, in the ledger's own figures. */
module LedgerExact {
  import opened Prelude
  import opened PaperModel
  import opened LedgerParts
  import opened OrderReducer
  import opened PaperLedger

  /** The ledger can give this many shares of the symbol, or take them when negative. */
  predicate CanMove(l: Ledger, symbol: Ident, shares: int) {
    exists k :: 0 <= k < |l.positions| && l.positions[k].symbol == symbol && shares <= l.positions[k].available
  }

  /** Exactly the symbol's position gives up the shares. */
  predicate MovedOnly(l: Ledger, n: Ledger, symbol: Ident, shares: int) {
    && |n.positions| == |l.positions|
    && forall k :: 0 <= k < |l.positions| ==>
         n.positions[k] == Position(l.positions[k].symbol, l.positions[k].available - if l.positions[k].symbol == symbol then shares else 0)
  }

  lemma MovesExactly(l: Ledger, symbol: Ident, shares: int)
    requires l.Valid()
    ensures Shift(l.positions, symbol, 0 - shares).Ok? <==> CanMove(l, symbol, shares)
    ensures Shift(l.positions, symbol, 0 - shares).Ok? ==> MovedOnly(l, l.(positions := Shift(l.positions, symbol, 0 - shares).value), symbol, shares)
  {
    var moved := Moved(l.positions, symbol, 0 - shares);
    if CanMove(l, symbol, shares) {
      var k :| 0 <= k < |l.positions| && l.positions[k].symbol == symbol && shares <= l.positions[k].available;
      forall i | 0 <= i < |moved| ensures moved[i].available >= 0 {
        assert i < k ==> l.positions[i].symbol < l.positions[k].symbol;
        assert k < i ==> l.positions[k].symbol < l.positions[i].symbol;
      }
    }
    if Shift(l.positions, symbol, 0 - shares).Ok? {
      var k :| 0 <= k < |l.positions| && l.positions[k].symbol == symbol;
      assert moved[k].available >= 0;
    }
  }

  // ----- Entries -----

  /** An entry reserves on the ledger it was planned on, of its own day, under a new digest, within cash and shares. */
  lemma ReservesEntryExactly(h: Digests, l: Ledger, i: Intent)
    requires l.Valid() && i.Valid()
    ensures ReserveEntry(h, l, i).Ok? <==>
              && i.leg == Entry && i.tradeDate == l.tradeDate && i.ledgerSha == h.ledger(l)
              && (forall x :: x in l.reservations ==> x.entry != h.intent(i))
              && i.reservedCash <= l.cash && CanMove(l, i.symbol, i.quantity)
    ensures ReserveEntry(h, l, i).Ok? ==>
              var n := ReserveEntry(h, l, i).value;
              && n == l.(revision := l.revision + 1, cash := l.cash - i.reservedCash, startedCycles := l.startedCycles + 1,
                         positions := n.positions, reservations := n.reservations)
              && MovedOnly(l, n, i.symbol, i.quantity)
              && forall x :: x in n.reservations <==>
                   x in l.reservations || x == Reservation(h.intent(i), None, i.symbol, EntryPending, i.reservedCash, i.quantity, 0, None)
  {
    hide Shift, Insert, MovedOnly, CanMove, Ledger.Valid;
    MovesExactly(l, i.symbol, i.reservedExit);
    KeyedMeans(l.reservations, h.intent(i));
    if ReserveEntry(h, l, i).Ok? {
      ReserveEntryEffect(h, l, i);
      SamePositions(l, ReserveEntry(h, l, i).value, i.symbol, i.quantity);
    }
  }

  lemma KeyedMeans(rs: seq<Reservation>, sha: Digest)
    ensures Keyed(rs, sha) <==> exists x :: x in rs && x.entry == sha
  {}

  lemma SamePositions(l: Ledger, n: Ledger, symbol: Ident, shares: int)
    ensures MovedOnly(l, l.(positions := n.positions), symbol, shares) ==> MovedOnly(l, n, symbol, shares)
  {}

  /** The fee-inclusive price of a quantity at an average. */
  function PaidFor(costs: CostPolicy, average: Option<real>, quantity: nat): real {
    if average.None? then 0.0 else average.value * quantity as real * (1.0 + costs.buyFeeBps / 10000.0)
  }

  /** What a sale yields after fee and tax. */
  function SoldFor(costs: CostPolicy, average: Option<real>, quantity: nat): real {
    if average.None? then 0.0 else average.value * quantity as real * (1.0 - (costs.sellFeeBps + costs.sellTaxBps) / 10000.0)
  }

  lemma MoneyMeans(costs: CostPolicy, average: Option<real>, quantity: nat)
    ensures EntryCost(costs, average, quantity) == PaidFor(costs, average, quantity)
    ensures SaleValue(costs, average, quantity) == SoldFor(costs, average, quantity)
  {}

  /** A terminal entry settles exactly its own pending reservation, within the cash it set aside: the cost of its fill
      leaves, the rest of cash and shares returns, and a filled entry becomes an open cycle. */
  lemma SettlesEntryExactly(h: Digests, l: Ledger, i: Intent, state: OrderState, costs: CostPolicy, x: Reservation)
    requires l.Valid() && i.Valid() && (state.filled == 0) == (state.average == None) && (state.average.Some? ==> state.average.value > 0.0)
    requires x in l.reservations && x.entry == h.intent(i) && x.status == EntryPending && x.symbol == i.symbol
    ensures SettleEntry(h, l, i, state, costs).Ok? <==>
              && i.leg == Entry && state.intentSha == h.intent(i) && state.status.Terminal()
              && costs.effectiveFrom <= i.tradeDate && (costs.effectiveTo.Some? ==> i.tradeDate <= costs.effectiveTo.value)
              && PaidFor(costs, state.average, state.filled) <= x.cash && CanMove(l, i.symbol, state.filled - x.exitQuantity)
    ensures SettleEntry(h, l, i, state, costs).Ok? ==>
              var n := SettleEntry(h, l, i, state, costs).value;
              && n == l.(revision := l.revision + 1, cash := l.cash + x.cash - PaidFor(costs, state.average, state.filled),
                         positions := n.positions, reservations := n.reservations)
              && MovedOnly(l, n, i.symbol, state.filled - x.exitQuantity)
              && forall y :: y in n.reservations <==>
                   || (y in l.reservations && y.entry != h.intent(i))
                   || (state.filled > 0 && y == Reservation(h.intent(i), None, i.symbol, Open, 0.0, state.filled, state.filled, state.average))
  {
    hide Shift, Swap, MovedOnly, CanMove, EntryMatches, Scaled, Value, PaidFor, Ledger.Valid;
    MovesExactly(l, i.symbol, state.filled - x.exitQuantity);
    MoneyMeans(costs, state.average, state.filled);
    assert EntryMatches(l.reservations, h.intent(i), EntryPending) == [x] by { OnlyPending(l, h.intent(i), EntryPending, x); }
    assert 0 - (state.filled - x.exitQuantity) == x.exitQuantity - state.filled;
    if SettleEntry(h, l, i, state, costs).Ok? {
      assert forall r :: r in l.reservations && r.entry == h.intent(i) ==> r.symbol == i.symbol by { OneKey(l, x); }
      var prior := SettleEntryEffect(h, l, i, state, costs);
      SamePositions(l, SettleEntry(h, l, i, state, costs).value, i.symbol, state.filled - x.exitQuantity);
    }
  }

  lemma OnlyPending(l: Ledger, entry: Digest, status: ReservationStatus, x: Reservation)
    requires l.Valid() && x in l.reservations && x.entry == entry && x.status == status
    ensures EntryMatches(l.reservations, entry, status) == [x]
  {
    EntryMatchFacts(l.reservations, entry, status);
    assert x in EntryMatches(l.reservations, entry, status);
  }

  lemma OneKey(l: Ledger, x: Reservation)
    requires l.Valid() && x in l.reservations
    ensures forall r :: r in l.reservations && r.entry == x.entry ==> r == x
  {
    forall r | r in l.reservations && r.entry == x.entry ensures r == x {
      var a :| 0 <= a < |l.reservations| && l.reservations[a] == r;
      var b :| 0 <= b < |l.reservations| && l.reservations[b] == x;
    }
  }

  // ----- Exits -----

  /** An exit reserves the open cycle of its parent, whole, on the ledger it was planned on; nothing else moves. */
  lemma ReservesExitExactly(h: Digests, l: Ledger, i: Intent)
    requires l.Valid() && i.Valid()
    ensures ReserveExit(h, l, i).Ok? <==>
              && i.leg == Exit && i.ledgerSha == h.ledger(l)
              && exists x :: x in l.reservations && Some(x.entry) == i.parent && x.status == Open && x.exitQuantity == i.quantity
    ensures ReserveExit(h, l, i).Ok? ==>
              var n := ReserveExit(h, l, i).value;
              && n == l.(revision := l.revision + 1, reservations := n.reservations)
              && forall y :: y in n.reservations <==>
                   || (y in l.reservations && Some(y.entry) != i.parent)
                   || exists x :: x in l.reservations && Some(x.entry) == i.parent && y == x.(exit := Some(h.intent(i)), status := ExitPending)
  {
    hide Replace, EntryMatches, Ledger.Valid;
    if i.parent.Some? {
      var found := EntryMatches(l.reservations, i.parent.value, Open);
      OpenFound(l, i.parent.value);
      if |found| == 1 { assert found[0] in found; }
      if x :| x in l.reservations && Some(x.entry) == i.parent && x.status == Open {
        OnlyPending(l, i.parent.value, Open, x);
        OneKey(l, x);
      }
    }
    if ReserveExit(h, l, i).Ok? {
      var prior := ReserveExitEffect(h, l, i);
      OneKey(l, prior);
    }
  }

  lemma OpenFound(l: Ledger, entry: Digest)
    requires l.Valid()
    ensures forall x :: x in EntryMatches(l.reservations, entry, Open) ==> x in l.reservations && x.entry == entry && x.status == Open
  {
    EntryMatchFacts(l.reservations, entry, Open);
  }

  /** A terminal exit settles exactly its own pending cycle: profit rises by what the sale yields less what its shares
      cost, cash stays, and what is left unsold is an open cycle again. */
  lemma SettlesExitExactly(h: Digests, l: Ledger, i: Intent, state: OrderState, costs: CostPolicy, x: Reservation)
    requires l.Valid() && i.Valid() && (state.filled == 0) == (state.average == None)
    requires x in l.reservations && x.exit == Some(h.intent(i)) && x.status == ExitPending
    requires forall y :: y in l.reservations && y.exit == Some(h.intent(i)) && y.status == ExitPending ==> y.entry == x.entry
    ensures SettleExit(h, l, i, state, costs).Ok? <==>
              && i.leg == Exit && state.intentSha == h.intent(i) && state.status.Terminal()
              && costs.effectiveFrom <= i.tradeDate && (costs.effectiveTo.Some? ==> i.tradeDate <= costs.effectiveTo.value)
              && state.filled <= x.exitQuantity
    ensures SettleExit(h, l, i, state, costs).Ok? ==>
              var n := SettleExit(h, l, i, state, costs).value;
              && n == l.(revision := l.revision + 1, reservations := n.reservations,
                         realizedPnl := l.realizedPnl + SoldFor(costs, state.average, state.filled) - (if state.filled == 0 then 0.0 else PaidFor(costs, x.entryAverage, state.filled)))
              && forall y :: y in n.reservations <==>
                   || (y in l.reservations && y.entry != x.entry)
                   || (state.filled < x.exitQuantity
                       && y == Reservation(x.entry, None, x.symbol, Open, 0.0, x.exitQuantity - state.filled, x.exitQuantity - state.filled, x.entryAverage))
  {
    hide Swap, ExitMatches, Scaled, Value, PaidFor, SoldFor, Ledger.Valid;
    MoneyMeans(costs, state.average, state.filled);
    MoneyMeans(costs, x.entryAverage, state.filled);
    assert SoldFor(costs, None, 0) == 0.0 by { NothingSold(costs); }
    assert ExitMatches(l.reservations, h.intent(i)) == [x] by { ExitUnique(l, h.intent(i), x); }
    assert x.Valid() by { ReservationFine(l, x); }
    if SettleExit(h, l, i, state, costs).Ok? {
      var prior := SettleExitEffect(h, l, i, state, costs);
      assert prior == x;
    }
  }

  lemma NothingSold(costs: CostPolicy)
    ensures SoldFor(costs, None, 0) == 0.0
  {}

  lemma ReservationFine(l: Ledger, x: Reservation)
    requires l.Valid() && x in l.reservations
    ensures x.Valid()
  {}

  lemma ExitUnique(l: Ledger, exit: Digest, x: Reservation)
    requires l.Valid() && x in l.reservations && x.exit == Some(exit) && x.status == ExitPending
    requires forall y :: y in l.reservations && y.exit == Some(exit) && y.status == ExitPending ==> y.entry == x.entry
    ensures ExitMatches(l.reservations, exit) == [x]
  {
    ExitMatchUnique(l.reservations, exit, x);
  }
}
