/** Records of the paper execution engine, with the source's validators as `Valid` predicates. */
module PaperModel {
  import opened Prelude

  // ----- Accounts, costs and risk -----

  datatype CostPolicy = CostPolicy(effectiveFrom: Day, effectiveTo: Option<Day>,
                                   buyFeeBps: real, sellFeeBps: real, sellTaxBps: real)
  {
    predicate Valid() {
      && 0.0 <= buyFeeBps < 10000.0
      && 0.0 <= sellFeeBps < 10000.0
      && 0.0 <= sellTaxBps < 10000.0
      && sellFeeBps + sellTaxBps < 10000.0
      && (effectiveTo.Some? ==> effectiveFrom <= effectiveTo.value)
    }

    predicate Contains(day: Day) {
      effectiveFrom <= day && (effectiveTo.Some? ==> day <= effectiveTo.value)
    }

    /** What one VND of purchase costs once the fee is added. */
    function BuyFactor(): real { 1.0 + buyFeeBps / 10000.0 }

    /** What one VND of sale yields once fee and tax are taken. */
    function SellFactor(): real { 1.0 - (sellFeeBps + sellTaxBps) / 10000.0 }
  }

  datatype RiskLimits = RiskLimits(maxCycleQuantity: nat, maxOrderNotional: real,
                                   maxCyclesPerDay: nat, maxDailyLoss: real, cashReserve: real)
  {
    predicate Valid() { maxOrderNotional > 0.0 && maxDailyLoss > 0.0 && cashReserve >= 0.0 }
  }

  datatype AccountPosition = AccountPosition(symbol: Ident, settled: nat, coreMin: nat)
  {
    predicate Valid() { coreMin <= settled }
  }

  datatype Account = Account(sha256: Digest, asOf: Instant, cash: real, positions: seq<AccountPosition>)
  {
    predicate Valid() {
      && cash >= 0.0
      && |positions| > 0
      && (forall i :: 0 <= i < |positions| ==> positions[i].Valid())
      && (forall i, j :: 0 <= i < j < |positions| ==> positions[i].symbol != positions[j].symbol)
    }
  }

  // ----- Market facts -----

  datatype Market = Market(symbol: Ident, observedAt: Instant, quoteReceivedAt: Instant,
                           stream: Ident, sequence: nat,
                           askPrice: real, askQuantity: nat, bidPrice: real, bidQuantity: nat,
                           reference: real, ceiling: real, floor: real, tick: real, status: Ident, source: Digest)
  {
    predicate Valid() {
      && quoteReceivedAt <= observedAt
      && sequence >= 1 && askQuantity >= 1 && bidQuantity >= 1
      && 0.0 < floor <= reference <= ceiling
      && floor <= askPrice <= ceiling
      && floor <= bidPrice < askPrice
      && tick > 0.0
    }
  }

  // ----- Orders -----

  datatype Leg = Entry | Exit
  datatype Action = Buy | Sell

  /** Versions and hashes that are only ever copied or compared travel in `configSha`, `requestSha`
      and `lineage`; everything the engine computes with is a field of its own. */
  datatype Intent = Intent(configSha: Digest, requestSha: Digest, lineage: Digest,
                           arbitration: Digest, symbol: Ident, tradeDate: Day,
                           decisionAt: Instant, horizonSeconds: nat,
                           leg: Leg, action: Action, quantity: nat, limitPrice: real, priority: nat,
                           createdAt: Instant, expiresAt: Instant,
                           reservedCash: real, reservedExit: nat,
                           ledgerSha: Digest, parent: Option<Digest>)
  {
    predicate Valid() {
      && quantity >= 1 && limitPrice > 0.0 && reservedCash >= 0.0
      && decisionAt <= createdAt < expiresAt
      && reservedExit == quantity
      && (leg == Entry ==> action == Buy && parent == None && reservedCash > 0.0)
      && (leg == Exit ==> action == Sell && parent.Some? && reservedCash == 0.0)
    }
  }

  datatype FillEvidence = FillEvidence(symbol: Ident, action: Action, observedAt: Instant,
                                       stream: Ident, sequence: nat, filled: nat, available: nat,
                                       price: real, source: Digest)
  {
    predicate Valid() { 1 <= filled <= available && price > 0.0 && sequence >= 1 }
  }

  datatype Status = Created | Accepted | PartiallyFilled | Filled | Rejected | Cancelled | Expired
  {
    predicate Terminal() { Filled? || Rejected? || Cancelled? || Expired? }
  }

  datatype Event = Event(intentSha: Digest, sequence: nat, kind: Status, occurredAt: Instant,
                         cumulative: nat, average: Option<real>, reason: Option<string>,
                         adapterId: Digest, fill: Option<FillEvidence>)
  {
    predicate Valid() {
      && kind != Created
      && sequence >= 1
      && ((cumulative == 0) == (average == None))
      && (average.Some? ==> average.value > 0.0)
      && (if kind.Rejected? || kind.Cancelled? || kind.Expired?
          then reason.Some? && !Blank(reason.value) else reason == None)
      && ((kind.PartiallyFilled? || kind.Filled?) == fill.Some?)
      && (fill.Some? ==> fill.value.Valid())
    }
  }

  predicate Blank(text: string) {
    forall i :: 0 <= i < |text| ==> text[i] in {' ', '\t', '\n', '\r'}
  }

  datatype OrderState = OrderState(intentSha: Digest, status: Status, filled: nat,
                                   average: Option<real>, eventCount: nat, lastEvent: Option<Digest>)

  // ----- Ledger -----

  datatype Position = Position(symbol: Ident, available: int)

  datatype ReservationStatus = EntryPending | Open | ExitPending

  datatype Reservation = Reservation(entry: Digest, exit: Option<Digest>, symbol: Ident,
                                     status: ReservationStatus, cash: real,
                                     exitQuantity: nat, entryFilled: nat, entryAverage: Option<real>)
  {
    predicate Valid() {
      && cash >= 0.0
      && ((entryFilled == 0) == (entryAverage == None))
      && (entryAverage.Some? ==> entryAverage.value > 0.0)
      && (status == EntryPending ==> exit == None && cash > 0.0 && entryFilled == 0)
      && (status == Open ==>
            exit == None && cash == 0.0 && entryFilled > 0 && exitQuantity == entryFilled)
      && (status == ExitPending ==>
            exit.Some? && cash == 0.0 && entryFilled > 0 && exitQuantity == entryFilled)
    }
  }

  datatype Ledger = Ledger(tradeDate: Day, accountSha: Digest, revision: nat, cash: real,
                           positions: seq<Position>, startedCycles: nat, realizedPnl: real,
                           reservations: seq<Reservation>)
  {
    predicate Valid() {
      && cash >= 0.0
      && (forall i :: 0 <= i < |positions| ==> positions[i].available >= 0)
      && (forall i, j :: 0 <= i < j < |positions| ==> positions[i].symbol < positions[j].symbol)
      && (forall i :: 0 <= i < |reservations| ==> reservations[i].Valid())
      && (forall i, j :: 0 <= i < j < |reservations| ==> reservations[i].entry < reservations[j].entry)
      && (forall i :: 0 <= i < |reservations| ==> HasPosition(positions, reservations[i].symbol))
    }
  }

  predicate HasPosition(positions: seq<Position>, symbol: Ident) {
    exists i :: 0 <= i < |positions| && positions[i].symbol == symbol
  }

  /** What a fill event is made from; the adapter's identifier is a digest of exactly this. */
  datatype EvidenceKey = EvidenceKey(intentSha: Digest, previous: Option<Digest>, kind: Status,
                                     at: Instant, reason: Option<string>, fill: Option<FillEvidence>)

  /** The canonical-JSON hashes of the engine, as arbitrary functions: results hold whatever the
      hashes are, unless they name the digests that must not collide. */
  datatype Digests = Digests(intent: Intent -> Digest, event: Event -> Digest,
                             ledger: Ledger -> Digest, evidence: EvidenceKey -> Digest)
}
