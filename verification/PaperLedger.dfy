/** Compare-and-swap transitions of paper cash and settled inventory, and what each one conserves. */
module PaperLedger {
  import opened Prelude
  import opened PaperModel
  import opened LedgerParts
  import opened OrderReducer

  datatype LedgerError =
    | SnapshotDate | ExceedsInventory | SymbolAbsent
    | CannotReserveEntry | EntrySettlementMismatch | FillExceedsCash
    | CannotReserveExit | ExitSettlementMismatch | ExitExceedsQuantity | UnpricedExit

  /** The calendar day in Asia/Ho_Chi_Minh, seven hours ahead of UTC all year. */
  function MarketDay(at: Instant): Day {
    (at + 7 * 3600 * SECOND) / (86400 * SECOND)
  }

  /** Money after a fee or charge factor. */
  function Scaled(value: real, factor: real): real {
    value * factor
  }

  // ----- Initial ledger -----

  function PlacePosition(ps: seq<Position>, p: Position): seq<Position> {
    if ps == [] then [p]
    else if ps[0].symbol <= p.symbol then [ps[0]] + PlacePosition(ps[1..], p)
    else [p] + ps
  }

  function InitialPositions(held: seq<AccountPosition>): seq<Position> {
    if held == [] then []
    else PlacePosition(InitialPositions(held[..|held| - 1]),
                       var p := held[|held| - 1]; Position(p.symbol, p.settled - p.coreMin))
  }

  function Initialize(account: Account, tradeDate: Day): Result<Ledger, LedgerError> {
    if MarketDay(account.asOf) != tradeDate then Err(SnapshotDate)
    else Ok(Ledger(tradeDate, account.sha256, 0, account.cash,
                   InitialPositions(account.positions), 0, 0.0, []))
  }

  lemma {:induction false} PlaceFacts(ps: seq<Position>, p: Position)
    requires Ascending(ps) && !HasPosition(ps, p.symbol)
    ensures Ascending(PlacePosition(ps, p))
    ensures forall x :: x in PlacePosition(ps, p) <==> x in ps || x == p
  {
    if ps != [] && ps[0].symbol <= p.symbol {
      assert forall i :: 0 <= i < |ps[1..]| ==> ps[1..][i] == ps[i + 1];
      PlaceFacts(ps[1..], p);
      var tail := PlacePosition(ps[1..], p);
      forall j | 0 <= j < |tail| ensures ps[0].symbol < tail[j].symbol {
        assert tail[j] in tail;
      }
      assert ps == [ps[0]] + ps[1..];
    }
  }

  lemma {:induction false} InitialPositionFacts(held: seq<AccountPosition>)
    requires forall i, j :: 0 <= i < j < |held| ==> held[i].symbol != held[j].symbol
    requires forall i :: 0 <= i < |held| ==> held[i].Valid()
    ensures Ascending(InitialPositions(held))
    ensures forall x :: x in InitialPositions(held) <==> Offered(held, x)
  {
    hide PlacePosition;
    if held != [] {
      var front, last := held[..|held| - 1], held[|held| - 1];
      InitialPositionFacts(front);
      var before := InitialPositions(front);
      forall i | 0 <= i < |before| ensures before[i].symbol != last.symbol {
        assert before[i] in before;
        var j :| 0 <= j < |front| && before[i] == Position(front[j].symbol, front[j].settled - front[j].coreMin);
        assert front[j] == held[j];
      }
      PlaceFacts(before, Position(last.symbol, last.settled - last.coreMin));
      OfferedMore(held);
      hide Offered;
    }
  }

  /** The shares above the core of one of these holdings. */
  ghost predicate Offered(held: seq<AccountPosition>, x: Position) {
    exists i :: 0 <= i < |held| && x == Position(held[i].symbol, held[i].settled - held[i].coreMin)
  }

  lemma OfferedMore(held: seq<AccountPosition>)
    requires held != []
    ensures forall x :: Offered(held, x) <==>
              Offered(held[..|held| - 1], x) || x == Position(held[|held| - 1].symbol, held[|held| - 1].settled - held[|held| - 1].coreMin)
  {
    var front := held[..|held| - 1];
    forall x | Offered(front, x) ensures Offered(held, x) {
      var i :| 0 <= i < |front| && x == Position(front[i].symbol, front[i].settled - front[i].coreMin);
      assert held[i] == front[i];
    }
    forall x | Offered(held, x)
      ensures Offered(front, x) || x == Position(held[|held| - 1].symbol, held[|held| - 1].settled - held[|held| - 1].coreMin)
    {
      var i :| 0 <= i < |held| && x == Position(held[i].symbol, held[i].settled - held[i].coreMin);
      assert i < |front| ==> front[i] == held[i];
    }
  }

  lemma {:induction false} AvailableMember(ps: seq<Position>, p: Position)
    requires Ascending(ps) && p in ps
    ensures Available(ps, p.symbol) == p.available
  {
    var i :| 0 <= i < |ps| && ps[i] == p;
    AvailableAt(ps, i);
  }

  /** The first ledger offers every settled share above the core holding, and nothing else. */
  lemma InitialLedger(account: Account, tradeDate: Day)
    requires account.Valid() && Initialize(account, tradeDate).Ok?
    ensures var l := Initialize(account, tradeDate).value;
            && l.Valid() && l.cash == account.cash && l.reservations == []
            && (forall i :: 0 <= i < |account.positions| ==>
                  var p := account.positions[i]; Available(l.positions, p.symbol) == p.settled - p.coreMin)
  {
    InitialPositionFacts(account.positions);
    var ps := InitialPositions(account.positions);
    forall i | 0 <= i < |ps| ensures ps[i].available >= 0 { assert ps[i] in ps; }
    forall i | 0 <= i < |account.positions|
      ensures var p := account.positions[i]; Available(ps, p.symbol) == p.settled - p.coreMin
    {
      var p := account.positions[i];
      AvailableMember(ps, Position(p.symbol, p.settled - p.coreMin));
    }
  }

  // ----- Positions -----

  function Shift(ps: seq<Position>, symbol: Ident, delta: int): Result<seq<Position>, LedgerError> {
    if exists i :: 0 <= i < |ps| && Moved(ps, symbol, delta)[i].available < 0 then Err(ExceedsInventory)
    else if !HasPosition(ps, symbol) then Err(SymbolAbsent)
    else Ok(Moved(ps, symbol, delta))
  }

  /** The source's loop over positions with its `found` flag. */
  method ShiftLoop(ps: seq<Position>, symbol: Ident, delta: int) returns (r: Result<seq<Position>, LedgerError>)
    ensures r == Shift(ps, symbol, delta)
  {
    var found := false;
    var values: seq<Position> := [];
    var moved := Moved(ps, symbol, delta);
    for i := 0 to |ps|
      invariant values == moved[..i]
      invariant forall k :: 0 <= k < i ==> moved[k].available >= 0
      invariant found <==> exists k :: 0 <= k < i && ps[k].symbol == symbol
    {
      var quantity := if ps[i].symbol == symbol then ps[i].available + delta else ps[i].available;
      if ps[i].symbol == symbol {
        found := true;
      }
      assert moved[i] == Position(ps[i].symbol, quantity);
      if quantity < 0 {
        return Err(ExceedsInventory);
      }
      values := values + [Position(ps[i].symbol, quantity)];
    }
    if !found {
      return Err(SymbolAbsent);
    }
    assert moved[..|ps|] == moved;
    r := Ok(values);
  }

  // ----- Transitions -----

  function ReserveEntry(h: Digests, l: Ledger, intent: Intent): Result<Ledger, LedgerError> {
    var sha := h.intent(intent);
    if || intent.leg != Entry
       || intent.tradeDate != l.tradeDate
       || intent.ledgerSha != h.ledger(l)
       || Keyed(l.reservations, sha)
       || intent.reservedCash > l.cash
    then Err(CannotReserveEntry)
    else
      var positions :- Shift(l.positions, intent.symbol, 0 - intent.reservedExit);
      Ok(l.(revision := l.revision + 1,
            cash := l.cash - intent.reservedCash,
            positions := positions,
            startedCycles := l.startedCycles + 1,
            reservations := Insert(l.reservations,
              Reservation(sha, None, intent.symbol, EntryPending, intent.reservedCash,
                          intent.reservedExit, 0, None))))
  }

  /** The open cycle a settlement leaves behind: none when no share is left. */
  function OpenCycle(entry: Digest, symbol: Ident, quantity: nat, average: Option<real>): Option<Reservation> {
    if quantity == 0 then None
    else Some(Reservation(entry, None, symbol, Open, 0.0, quantity, quantity, average))
  }

  function SettleEntry(h: Digests, l: Ledger, intent: Intent, state: OrderState, costs: CostPolicy): Result<Ledger, LedgerError> {
    var sha := h.intent(intent);
    var matches := EntryMatches(l.reservations, sha, EntryPending);
    if || intent.leg != Entry
       || state.intentSha != sha
       || !state.status.Terminal()
       || |matches| != 1
       || !costs.Contains(intent.tradeDate)
    then Err(EntrySettlementMismatch)
    else
      var reservation := matches[0];
      var filled := state.filled;
      var spent := Scaled(Value(state.average, filled), costs.BuyFactor());
      if spent > reservation.cash then Err(FillExceedsCash)
      else
        var positions :- Shift(l.positions, intent.symbol, reservation.exitQuantity - filled);
        Ok(l.(revision := l.revision + 1,
              cash := l.cash + reservation.cash - spent,
              positions := positions,
              reservations := Swap(l.reservations, sha, OpenCycle(sha, intent.symbol, filled, state.average))))
  }

  function ReserveExit(h: Digests, l: Ledger, intent: Intent): Result<Ledger, LedgerError> {
    if intent.parent == None then Err(CannotReserveExit)
    else
      var matches := EntryMatches(l.reservations, intent.parent.value, Open);
      if || intent.leg != Exit
         || intent.ledgerSha != h.ledger(l)
         || |matches| != 1
         || matches[0].exitQuantity != intent.quantity
      then Err(CannotReserveExit)
      else
        var selected := matches[0];
        Ok(l.(revision := l.revision + 1,
              reservations := Replace(l.reservations, selected.entry,
                selected.(exit := Some(h.intent(intent)), status := ExitPending))))
  }

  function EntryCost(costs: CostPolicy, average: Option<real>, quantity: nat): real {
    Scaled(Value(average, quantity), costs.BuyFactor())
  }

  function SaleValue(costs: CostPolicy, average: Option<real>, quantity: nat): real {
    Scaled(Value(average, quantity), costs.SellFactor())
  }

  function SettleExit(h: Digests, l: Ledger, intent: Intent, state: OrderState, costs: CostPolicy): Result<Ledger, LedgerError> {
    var sha := h.intent(intent);
    var matches := ExitMatches(l.reservations, sha);
    if || intent.leg != Exit
       || state.intentSha != sha
       || !state.status.Terminal()
       || |matches| != 1
       || !costs.Contains(intent.tradeDate)
    then Err(ExitSettlementMismatch)
    else
      var reservation := matches[0];
      var sold := state.filled;
      if sold > reservation.exitQuantity then Err(ExitExceedsQuantity)
      else if sold != 0 && (state.average == None || reservation.entryAverage == None) then Err(UnpricedExit)
      else
        var realized := if sold == 0 then 0.0
                        else SaleValue(costs, state.average, sold) - EntryCost(costs, reservation.entryAverage, sold);
        var outstanding := reservation.exitQuantity - sold;
        Ok(l.(revision := l.revision + 1,
              realizedPnl := l.realizedPnl + realized,
              reservations := Swap(l.reservations, reservation.entry,
                OpenCycle(reservation.entry, reservation.symbol, outstanding, reservation.entryAverage))))
  }

  // ----- What the ledger holds -----

  function CashOf(): Reservation -> real { (r: Reservation) => r.cash }

  function HeldOf(costs: CostPolicy): Reservation -> real {
    (r: Reservation) => EntryCost(costs, r.entryAverage, r.entryFilled)
  }

  function QuantityOf(symbol: Ident): Reservation -> int {
    (r: Reservation) => if r.symbol == symbol then r.exitQuantity else 0
  }

  /** Cash set aside for entries that may still fill. */
  function PendingCash(l: Ledger): real { Total(l.reservations, CashOf()) }

  /** Fee-inclusive entry cost of the shares bought and not yet sold. */
  function HeldCost(costs: CostPolicy, l: Ledger): real { Total(l.reservations, HeldOf(costs)) }

  /** Settled shares of a symbol promised to open cycles. */
  function ReservedQuantity(l: Ledger, symbol: Ident): int { Count(l.reservations, QuantityOf(symbol)) }

  function OwnedQuantity(l: Ledger, symbol: Ident): int {
    Available(l.positions, symbol) + ReservedQuantity(l, symbol)
  }

  lemma ShiftValid(ps: seq<Position>, symbol: Ident, delta: int)
    requires Ascending(ps) && Shift(ps, symbol, delta).Ok?
    ensures var q := Shift(ps, symbol, delta).value;
            && Ascending(q)
            && (forall i :: 0 <= i < |q| ==> q[i].available >= 0)
            && (forall s :: HasPosition(ps, s) <==> HasPosition(q, s))
  {
    var q := Shift(ps, symbol, delta).value;
    assert |q| == |ps| && forall i :: 0 <= i < |q| ==> q[i].symbol == ps[i].symbol;
    forall s ensures HasPosition(ps, s) <==> HasPosition(q, s) {
      if HasPosition(ps, s) {
        var i :| 0 <= i < |ps| && ps[i].symbol == s;
        assert q[i].symbol == s;
      }
    }
  }

  lemma ReservationsValid(l: Ledger, rs: seq<Reservation>, positions: seq<Position>)
    requires l.Valid() && Ordered(rs)
    requires forall s :: HasPosition(l.positions, s) ==> HasPosition(positions, s)
    requires forall x :: x in rs ==> x in l.reservations || (x.Valid() && HasPosition(positions, x.symbol))
    ensures forall i :: 0 <= i < |rs| ==> rs[i].Valid() && HasPosition(positions, rs[i].symbol)
  {
    forall i | 0 <= i < |rs| ensures rs[i].Valid() && HasPosition(positions, rs[i].symbol) {
      assert rs[i] in rs;
    }
  }

  /** Reserving an entry moves cash and shares into a reservation and creates or destroys none. */
  lemma ReserveEntryConserves(h: Digests, l: Ledger, intent: Intent, costs: CostPolicy)
    requires l.Valid() && intent.Valid() && ReserveEntry(h, l, intent).Ok?
    ensures var n := ReserveEntry(h, l, intent).value;
            && n.Valid()
            && n.cash + PendingCash(n) == l.cash + PendingCash(l)
            && HeldCost(costs, n) == HeldCost(costs, l)
            && n.realizedPnl == l.realizedPnl
            && (forall s :: OwnedQuantity(n, s) == OwnedQuantity(l, s))
  {
    hide Scaled, Insert, Total, Count, Moved, HasPosition, Available;
    var n := ReserveEntry(h, l, intent).value;
    var r := Reservation(h.intent(intent), None, intent.symbol, EntryPending, intent.reservedCash,
                         intent.reservedExit, 0, None);
    InsertFacts(l.reservations, r);
    ShiftValid(l.positions, intent.symbol, 0 - intent.reservedExit);
    ReservationsValid(l, n.reservations, n.positions);
    SumInsert(l.reservations, r, CashOf());
    SumInsert(l.reservations, r, HeldOf(costs));
    ZeroCost(costs);
    forall s ensures OwnedQuantity(n, s) == OwnedQuantity(l, s) {
      AvailableMoved(l.positions, intent.symbol, 0 - intent.reservedExit, s);
      CountInsert(l.reservations, r, QuantityOf(s));
    }
  }

  lemma ZeroCost(costs: CostPolicy)
    ensures forall n: nat :: EntryCost(costs, None, n) == 0.0
    ensures forall a: Option<real> :: EntryCost(costs, a, 0) == 0.0 && SaleValue(costs, a, 0) == 0.0
  {}

  /** Settling an entry spends exactly the fee-inclusive cost of its fills, which the ledger then
      holds as an open cycle, and returns the rest of the cash and shares. */
  lemma SettleEntryConserves(h: Digests, l: Ledger, intent: Intent, state: OrderState, costs: CostPolicy)
    requires l.Valid() && SettleEntry(h, l, intent, state, costs).Ok?
    requires (state.filled == 0) == (state.average == None)
    requires state.average.Some? ==> state.average.value > 0.0
    requires forall r :: r in l.reservations && r.entry == h.intent(intent) ==> r.symbol == intent.symbol
    ensures var n := SettleEntry(h, l, intent, state, costs).value;
            var spent := EntryCost(costs, state.average, state.filled);
            && n.Valid()
            && n.cash + PendingCash(n) == l.cash + PendingCash(l) - spent
            && HeldCost(costs, n) == HeldCost(costs, l) + spent
            && n.realizedPnl == l.realizedPnl
            && (forall s :: OwnedQuantity(n, s) == OwnedQuantity(l, s))
  {
    hide Scaled, Cost, Insert, Without, Total, Count, Moved, HasPosition, Available, EntryMatches, ExitMatches, Replace, Swap;
    var n := SettleEntry(h, l, intent, state, costs).value;
    var sha := h.intent(intent);
    var matches := EntryMatches(l.reservations, sha, EntryPending);
    EntryMatchFacts(l.reservations, sha, EntryPending);
    var prior := matches[0];
    assert prior in matches;
    var left := OpenCycle(sha, intent.symbol, state.filled, state.average);
    SwapFacts(l.reservations, sha, left);
    ShiftValid(l.positions, intent.symbol, prior.exitQuantity - state.filled);
    ReservationsValid(l, n.reservations, n.positions);
    SwapTotal(l.reservations, prior, left, CashOf());
    SwapTotal(l.reservations, prior, left, HeldOf(costs));
    ZeroCost(costs);
    forall s ensures OwnedQuantity(n, s) == OwnedQuantity(l, s) {
      AvailableMoved(l.positions, intent.symbol, prior.exitQuantity - state.filled, s);
      SwapCount(l.reservations, prior, left, QuantityOf(s));
    }
  }

  /** Reserving an exit changes no amount at all. */
  lemma ReserveExitConserves(h: Digests, l: Ledger, intent: Intent, costs: CostPolicy)
    requires l.Valid() && ReserveExit(h, l, intent).Ok?
    ensures var n := ReserveExit(h, l, intent).value;
            && n.Valid()
            && n.cash == l.cash && PendingCash(n) == PendingCash(l)
            && HeldCost(costs, n) == HeldCost(costs, l)
            && n.realizedPnl == l.realizedPnl
            && (forall s :: OwnedQuantity(n, s) == OwnedQuantity(l, s))
  {
    hide Scaled, Cost, Insert, Without, Total, Count, Moved, HasPosition, Available, EntryMatches, ExitMatches, Replace, Swap;
    var n := ReserveExit(h, l, intent).value;
    EntryMatchFacts(l.reservations, intent.parent.value, Open);
    var prior := EntryMatches(l.reservations, intent.parent.value, Open)[0];
    assert prior in EntryMatches(l.reservations, intent.parent.value, Open);
    var r := prior.(exit := Some(h.intent(intent)), status := ExitPending);
    ReplaceIsReinsert(l.reservations, prior, r);
    var remaining := Without(l.reservations, prior.entry);
    WithoutFacts(l.reservations, prior.entry);
    InsertFacts(remaining, r);
    ReservationsValid(l, n.reservations, n.positions);
    SumWithout(l.reservations, prior, CashOf());
    SumInsert(remaining, r, CashOf());
    SumWithout(l.reservations, prior, HeldOf(costs));
    SumInsert(remaining, r, HeldOf(costs));
    forall s ensures OwnedQuantity(n, s) == OwnedQuantity(l, s) {
      CountWithout(l.reservations, prior, QuantityOf(s));
      CountInsert(remaining, r, QuantityOf(s));
    }
  }

  lemma CostSplit(costs: CostPolicy, average: Option<real>, n: nat, sold: nat)
    requires sold <= n
    ensures EntryCost(costs, average, n) == EntryCost(costs, average, sold) + EntryCost(costs, average, n - sold)
  {
    if average.Some? {
      assert average.value * n as real == average.value * sold as real + average.value * (n - sold) as real;
    }
    var a, b := Value(average, sold), Value(average, n - sold);
    assert (a + b) * costs.BuyFactor() == a * costs.BuyFactor() + b * costs.BuyFactor();
  }

  /** Settling an exit never touches cash: the shares sold leave the held cost at their entry price
      and their net proceeds enter the realised result alone. */
  lemma SettleExitConserves(h: Digests, l: Ledger, intent: Intent, state: OrderState, costs: CostPolicy)
    requires l.Valid() && SettleExit(h, l, intent, state, costs).Ok?
    requires (state.filled == 0) == (state.average == None)
    ensures var n := SettleExit(h, l, intent, state, costs).value;
            var sold := ExitMatches(l.reservations, h.intent(intent))[0];
            && n.Valid()
            && n.cash == l.cash && PendingCash(n) == PendingCash(l) && n.positions == l.positions
            && HeldCost(costs, n) == HeldCost(costs, l) - EntryCost(costs, sold.entryAverage, state.filled)
            && n.realizedPnl == l.realizedPnl + SaleValue(costs, state.average, state.filled)
                                - EntryCost(costs, sold.entryAverage, state.filled)
            && (forall s :: OwnedQuantity(n, s)
                  == OwnedQuantity(l, s) - if s == sold.symbol then state.filled else 0)
  {
    hide Scaled, Cost, Insert, Without, Total, Count, Moved, HasPosition, Available, ExitMatches, Swap;
    var n := SettleExit(h, l, intent, state, costs).value;
    var matches := ExitMatches(l.reservations, h.intent(intent));
    ExitMatchFacts(l.reservations, h.intent(intent));
    var prior := matches[0];
    assert prior in matches;
    var left := OpenCycle(prior.entry, prior.symbol, prior.exitQuantity - state.filled, prior.entryAverage);
    CostSplit(costs, prior.entryAverage, prior.exitQuantity, state.filled);
    ZeroCost(costs);
    SwapFacts(l.reservations, prior.entry, left);
    SwapTotal(l.reservations, prior, left, CashOf());
    SwapTotal(l.reservations, prior, left, HeldOf(costs));
    ReservationsValid(l, n.reservations, n.positions);
    forall s ensures OwnedQuantity(n, s) == OwnedQuantity(l, s) - if s == prior.symbol then state.filled else 0 {
      SwapCount(l.reservations, prior, left, QuantityOf(s));
    }
  }

  // ----- What each transition does to the set of reservations -----

  /** Reservations filed under `key` give way to `left`; all others stay. */
  ghost predicate Refiled(l: Ledger, n: Ledger, key: Digest, left: Option<Reservation>) {
    forall x :: x in n.reservations <==> (x in l.reservations && x.entry != key) || Some(x) == left
  }

  lemma ReserveEntryEffect(h: Digests, l: Ledger, intent: Intent)
    requires l.Valid() && intent.Valid() && ReserveEntry(h, l, intent).Ok?
    ensures var n := ReserveEntry(h, l, intent).value;
            && n.Valid()
            && !Keyed(l.reservations, h.intent(intent))
            && Refiled(l, n, h.intent(intent),
                 Some(Reservation(h.intent(intent), None, intent.symbol, EntryPending, intent.reservedCash,
                                  intent.quantity, 0, None)))
  {
    hide Insert, Total, Count, Moved, HasPosition, Available;
    ReserveEntryConserves(h, l, intent, CostPolicy(0, None, 0.0, 0.0, 0.0));
    InsertFacts(l.reservations, Reservation(h.intent(intent), None, intent.symbol, EntryPending,
                                            intent.reservedCash, intent.quantity, 0, None));
  }

  lemma ReserveExitEffect(h: Digests, l: Ledger, intent: Intent) returns (prior: Reservation)
    requires l.Valid() && ReserveExit(h, l, intent).Ok?
    ensures prior in l.reservations && Some(prior.entry) == intent.parent && prior.status == Open
    ensures prior.exitQuantity == intent.quantity
    ensures var n := ReserveExit(h, l, intent).value;
            && n.Valid()
            && Refiled(l, n, prior.entry, Some(prior.(exit := Some(h.intent(intent)), status := ExitPending)))
  {
    hide Insert, Without, Total, Count, HasPosition, EntryMatches, Replace;
    ReserveExitConserves(h, l, intent, CostPolicy(0, None, 0.0, 0.0, 0.0));
    EntryMatchFacts(l.reservations, intent.parent.value, Open);
    prior := EntryMatches(l.reservations, intent.parent.value, Open)[0];
    assert prior in EntryMatches(l.reservations, intent.parent.value, Open);
    var left := prior.(exit := Some(h.intent(intent)), status := ExitPending);
    ReplaceIsReinsert(l.reservations, prior, left);
    SwapFacts(l.reservations, prior.entry, Some(left));
  }

  lemma SettleEntryEffect(h: Digests, l: Ledger, intent: Intent, state: OrderState, costs: CostPolicy) returns (prior: Reservation)
    requires l.Valid() && SettleEntry(h, l, intent, state, costs).Ok?
    requires (state.filled == 0) == (state.average == None)
    requires state.average.Some? ==> state.average.value > 0.0
    requires forall r :: r in l.reservations && r.entry == h.intent(intent) ==> r.symbol == intent.symbol
    ensures prior in l.reservations && prior.entry == h.intent(intent) && prior.status == EntryPending
    ensures var n := SettleEntry(h, l, intent, state, costs).value;
            && n.Valid()
            && Refiled(l, n, prior.entry, OpenCycle(prior.entry, intent.symbol, state.filled, state.average))
  {
    hide Scaled, Cost, Insert, Without, Total, Count, Moved, HasPosition, Available, EntryMatches, Swap;
    var sha := h.intent(intent);
    SettleEntryConserves(h, l, intent, state, costs);
    EntryMatchFacts(l.reservations, sha, EntryPending);
    prior := EntryMatches(l.reservations, sha, EntryPending)[0];
    assert prior in EntryMatches(l.reservations, sha, EntryPending);
    SwapFacts(l.reservations, sha, OpenCycle(sha, intent.symbol, state.filled, state.average));
  }

  lemma SettleExitEffect(h: Digests, l: Ledger, intent: Intent, state: OrderState, costs: CostPolicy) returns (prior: Reservation)
    requires l.Valid() && SettleExit(h, l, intent, state, costs).Ok?
    requires (state.filled == 0) == (state.average == None)
    ensures ExitMatches(l.reservations, h.intent(intent)) == [prior]
    ensures prior in l.reservations && prior.exit == Some(h.intent(intent)) && prior.status == ExitPending
    ensures state.filled <= prior.exitQuantity
    ensures var n := SettleExit(h, l, intent, state, costs).value;
            && n.Valid()
            && Refiled(l, n, prior.entry,
                 OpenCycle(prior.entry, prior.symbol, prior.exitQuantity - state.filled, prior.entryAverage))
  {
    hide Scaled, Cost, Insert, Without, Total, Count, HasPosition, ExitMatches, Swap;
    SettleExitConserves(h, l, intent, state, costs);
    ExitMatchFacts(l.reservations, h.intent(intent));
    prior := ExitMatches(l.reservations, h.intent(intent))[0];
    assert prior in ExitMatches(l.reservations, h.intent(intent));
    SwapFacts(l.reservations, prior.entry,
      OpenCycle(prior.entry, prior.symbol, prior.exitQuantity - state.filled, prior.entryAverage));
  }
}
