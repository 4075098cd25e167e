/** The append-only order-event reducer: one loop over the events of one order. */
module OrderReducer {
  import opened Prelude
  import opened PaperModel

  datatype ReduceError =
    | InconsistentHistory | AcceptedWithFill | RejectedWithFill | PartialQuantity | IncompleteFill
    | AverageWithoutQuantity | QuantityWithoutEvidence | MissingAverage | EvidenceMismatch
    | FillOutsideLimit | AverageOutsideLimit | AfterExpiry | BeforeDeadline

  datatype FillPosition = FillPosition(at: Instant, stream: Ident, sequence: nat)
  {
    predicate AtOrBefore(other: FillPosition) {
      || at < other.at
      || (at == other.at && stream < other.stream)
      || (at == other.at && stream == other.stream && sequence <= other.sequence)
    }
  }

  datatype FillIdentity = FillIdentity(stream: Ident, sequence: nat, source: Digest)

  /** The loop variables of the reducer. */
  datatype Fold = Fold(status: Status, filled: nat, average: Option<real>, lastAt: Instant,
                       lastSequence: nat, hashes: set<Digest>, adapterIds: set<Digest>,
                       fillIds: set<FillIdentity>, lastFill: Option<FillPosition>)

  function Start(intent: Intent): Fold {
    Fold(Created, 0, None, intent.createdAt, 0, {}, {}, {}, None)
  }

  predicate Allowed(from: Status, to: Status) {
    match from
    case Created => to.Accepted? || to.Rejected? || to.Expired?
    case Accepted => to.PartiallyFilled? || to.Filled? || to.Cancelled? || to.Expired?
    case PartiallyFilled => to.PartiallyFilled? || to.Filled? || to.Cancelled? || to.Expired?
    case _ => false
  }

  predicate OutsideLimit(intent: Intent, price: real) {
    || (intent.action == Buy && price > intent.limitPrice)
    || (intent.action == Sell && price < intent.limitPrice)
  }

  /** The volume-weighted average after one more fill. */
  function NextAverage(average: Option<real>, filled: nat, price: real, increment: nat): real
    requires filled + increment > 0
  {
    ((if average.Some? then average.value else 0.0) * filled as real + price * increment as real)
    / (filled + increment) as real
  }

  /** The checks on the fill evidence of one event. */
  function EvidenceError(intent: Intent, acc: Fold, e: Event): Option<ReduceError>
    requires e.fill.Some? && e.cumulative > acc.filled
  {
    var f := e.fill.value;
    var increment := e.cumulative - acc.filled;
    if acc.filled != 0 && acc.average == None then Some(MissingAverage)
    else
      var expected := if acc.filled == 0 then f.price
                      else NextAverage(acc.average, acc.filled, f.price, increment);
      if || f.symbol != intent.symbol
         || f.action != intent.action
         || f.filled != increment
         || f.observedAt < intent.createdAt
         || f.observedAt > e.occurredAt
         || e.average != Some(expected)
         || FillIdentity(f.stream, f.sequence, f.source) in acc.fillIds
         || (acc.lastFill.Some?
             && FillPosition(f.observedAt, f.stream, f.sequence).AtOrBefore(acc.lastFill.value))
      then Some(EvidenceMismatch)
      else if OutsideLimit(intent, f.price) then Some(FillOutsideLimit)
      else None
  }

  /** The checks that come before the average-price limit check. */
  function HistoryError(h: Digests, intent: Intent, acc: Fold, e: Event): Option<ReduceError> {
    if || e.intentSha != h.intent(intent)
       || h.event(e) in acc.hashes
       || e.adapterId in acc.adapterIds
       || e.sequence <= acc.lastSequence
       || e.occurredAt < acc.lastAt
       || acc.status.Terminal()
       || !Allowed(acc.status, e.kind)
       || e.cumulative < acc.filled
       || e.cumulative > intent.quantity
    then Some(InconsistentHistory)
    else if e.kind.Accepted? && e.cumulative != 0 then Some(AcceptedWithFill)
    else if e.kind.Rejected? && e.cumulative != 0 then Some(RejectedWithFill)
    else if e.kind.PartiallyFilled? && !(acc.filled < e.cumulative < intent.quantity) then Some(PartialQuantity)
    else if e.kind.Filled? && e.cumulative != intent.quantity then Some(IncompleteFill)
    else if e.cumulative == acc.filled && e.average != acc.average then Some(AverageWithoutQuantity)
    else if (e.cumulative > acc.filled) != e.fill.Some? then Some(QuantityWithoutEvidence)
    else if e.fill.Some? then EvidenceError(intent, acc, e)
    else None
  }

  /** The checks that come after it. */
  function DeadlineError(intent: Intent, e: Event): Option<ReduceError> {
    if (e.kind.Accepted? || e.kind.PartiallyFilled? || e.kind.Filled?) && e.occurredAt > intent.expiresAt
    then Some(AfterExpiry)
    else if e.kind.Expired? && e.occurredAt < intent.expiresAt then Some(BeforeDeadline)
    else None
  }

  function Record(h: Digests, acc: Fold, e: Event): Fold {
    Fold(e.kind, e.cumulative, e.average, e.occurredAt, e.sequence,
         acc.hashes + {h.event(e)}, acc.adapterIds + {e.adapterId},
         if e.fill.None? then acc.fillIds
         else acc.fillIds + {FillIdentity(e.fill.value.stream, e.fill.value.sequence, e.fill.value.source)},
         if e.fill.None? then acc.lastFill
         else Some(FillPosition(e.fill.value.observedAt, e.fill.value.stream, e.fill.value.sequence)))
  }

  /** One iteration of the reducer. `checkAverage` switches the second, average-price limit check;
      the source always runs with it on. */
  function Step(h: Digests, intent: Intent, acc: Fold, e: Event, checkAverage: bool): Result<Fold, ReduceError> {
    if HistoryError(h, intent, acc, e).Some? then Err(HistoryError(h, intent, acc, e).value)
    else if checkAverage && e.average.Some? && OutsideLimit(intent, e.average.value) then Err(AverageOutsideLimit)
    else if DeadlineError(intent, e).Some? then Err(DeadlineError(intent, e).value)
    else Ok(Record(h, acc, e))
  }

  function RunFold(h: Digests, intent: Intent, events: seq<Event>, checkAverage: bool): Result<Fold, ReduceError> {
    if events == [] then Ok(Start(intent))
    else
      var acc :- RunFold(h, intent, events[..|events| - 1], checkAverage);
      Step(h, intent, acc, events[|events| - 1], checkAverage)
  }

  function Summary(h: Digests, intent: Intent, events: seq<Event>, acc: Fold): OrderState {
    OrderState(h.intent(intent), acc.status, acc.filled, acc.average, |events|,
               if events == [] then None else Some(h.event(events[|events| - 1])))
  }

  /** What the reducer computes: the specification of `ReduceLoop`. */
  function Reduce(h: Digests, intent: Intent, events: seq<Event>): Result<OrderState, ReduceError> {
    var acc :- RunFold(h, intent, events, true);
    Ok(Summary(h, intent, events, acc))
  }

  lemma {:induction false} ErrorSticks(h: Digests, intent: Intent, events: seq<Event>, k: nat, checkAverage: bool)
    requires k <= |events|
    requires RunFold(h, intent, events[..k], checkAverage).Err?
    ensures RunFold(h, intent, events, checkAverage) == RunFold(h, intent, events[..k], checkAverage)
  {
    if k < |events| {
      var shorter := events[..|events| - 1];
      assert shorter[..k] == events[..k];
      ErrorSticks(h, intent, shorter, k, checkAverage);
    } else {
      assert events[..k] == events;
    }
  }

  /** The source's loop, raising at the first inconsistent event. */
  method ReduceLoop(h: Digests, intent: Intent, events: seq<Event>) returns (r: Result<OrderState, ReduceError>)
    ensures r == Reduce(h, intent, events)
  {
    var acc := Start(intent);
    for i := 0 to |events|
      invariant RunFold(h, intent, events[..i], true) == Ok(acc)
    {
      var next := Step(h, intent, acc, events[i], true);
      assert events[..i + 1][..i] == events[..i];
      if next.Err? {
        ErrorSticks(h, intent, events, i + 1, true);
        return Err(next.error);
      }
      acc := next.value;
    }
    assert events[..|events|] == events;
    r := Ok(Summary(h, intent, events, acc));
  }

  // ----- What an accepted history means -----

  function FillQuantity(e: Event): nat {
    if e.fill.Some? then e.fill.value.filled else 0
  }

  function FillValue(e: Event): real {
    if e.fill.Some? then Cost(e.fill.value.price, e.fill.value.filled) else 0.0
  }

  /** Shares evidenced by the fills of a history. */
  function EvidenceQuantity(events: seq<Event>): nat {
    if events == [] then 0
    else EvidenceQuantity(events[..|events| - 1]) + FillQuantity(events[|events| - 1])
  }

  /** Money exchanged by the fills of a history, before fees. */
  function EvidenceValue(events: seq<Event>): real {
    if events == [] then 0.0
    else EvidenceValue(events[..|events| - 1]) + FillValue(events[|events| - 1])
  }

  predicate AllValid(events: seq<Event>) {
    forall i :: 0 <= i < |events| ==> events[i].Valid()
  }

  function Cost(price: real, quantity: nat): real {
    price * quantity as real
  }

  /** The value of a position at its average price. */
  function Value(average: Option<real>, filled: nat): real {
    if average.Some? then Cost(average.value, filled) else 0.0
  }

  lemma FillArithmetic(average: Option<real>, filled: nat, price: real, increment: nat, limit: real)
    requires filled + increment > 0
    ensures Cost(NextAverage(average, filled, price, increment), filled + increment)
            == Value(average, filled) + Cost(price, increment)
    ensures price <= limit && Value(average, filled) <= Cost(limit, filled)
            ==> Value(average, filled) + Cost(price, increment) <= Cost(limit, filled + increment)
    ensures price >= limit && Value(average, filled) >= Cost(limit, filled)
            ==> Value(average, filled) + Cost(price, increment) >= Cost(limit, filled + increment)
  {
    var total := Value(average, filled) + price * increment as real;
    assert (total / (filled + increment) as real) * (filled + increment) as real == total;
    assert limit * (filled + increment) as real == limit * filled as real + limit * increment as real;
    assert (limit - price) * increment as real == limit * increment as real - price * increment as real;
  }

  lemma QuotientBound(limit: real, n: nat, average: real)
    requires n > 0
    ensures Cost(average, n) <= Cost(limit, n) <==> average <= limit
  {
    assert average * n as real - limit * n as real == (average - limit) * n as real;
  }

  /** What every accepted fold satisfies; the totals come from the evidence, not from the fold. */
  ghost predicate FoldSound(intent: Intent, events: seq<Event>, acc: Fold) {
    && acc.filled == EvidenceQuantity(events)
    && Value(acc.average, acc.filled) == EvidenceValue(events)
    && ((acc.filled == 0) == (acc.average == None))
    && (acc.average.Some? ==> acc.average.value > 0.0)
    && acc.filled <= intent.quantity
    && ((acc.filled == intent.quantity) <==> acc.status.Filled?)
    && ((acc.status.Created? || acc.status.Accepted? || acc.status.Rejected?) ==> acc.filled == 0)
    && (acc.status.PartiallyFilled? ==> acc.filled > 0)
    && (intent.action == Buy ==> EvidenceValue(events) <= Cost(intent.limitPrice, acc.filled))
    && (intent.action == Sell ==> EvidenceValue(events) >= Cost(intent.limitPrice, acc.filled))
    && (events == [] <==> acc.status.Created?)
    && acc.lastAt >= intent.createdAt
    && (events != [] ==> acc.lastAt == events[|events| - 1].occurredAt)
  }

  /** Past the history checks, the event's figures are those of the evidence and inside the limit. */
  lemma {:induction false} EventFigures(h: Digests, intent: Intent, events: seq<Event>, acc: Fold, e: Event)
    requires intent.Valid() && e.Valid() && FoldSound(intent, events, acc)
    requires HistoryError(h, intent, acc, e) == None
    ensures e.cumulative == acc.filled + FillQuantity(e)
    ensures Value(e.average, e.cumulative) == EvidenceValue(events) + FillValue(e)
    ensures intent.action == Buy ==> Value(e.average, e.cumulative) <= Cost(intent.limitPrice, e.cumulative)
    ensures intent.action == Sell ==> Value(e.average, e.cumulative) >= Cost(intent.limitPrice, e.cumulative)
  {
    hide Cost, NextAverage;
    if e.fill.Some? {
      var f := e.fill.value;
      assert EvidenceError(intent, acc, e) == None;
      assert f.filled == e.cumulative - acc.filled;
      assert acc.filled == 0 ==> e.average == Some(f.price);
      FillArithmetic(acc.average, acc.filled, f.price, f.filled, intent.limitPrice);
    } else {
      assert e.cumulative == acc.filled && e.average == acc.average;
    }
  }

  lemma StepFoldSound(h: Digests, intent: Intent, events: seq<Event>, acc: Fold, e: Event, checkAverage: bool)
    requires intent.Valid() && e.Valid() && FoldSound(intent, events, acc)
    requires Step(h, intent, acc, e, checkAverage).Ok?
    ensures FoldSound(intent, events + [e], Step(h, intent, acc, e, checkAverage).value)
  {
    hide Cost;
    var all := events + [e];
    assert all[..|all| - 1] == events;
    EventFigures(h, intent, events, acc, e);
  }

  lemma {:induction false} AcceptedIsSound(h: Digests, intent: Intent, events: seq<Event>, checkAverage: bool)
    requires intent.Valid() && AllValid(events)
    requires RunFold(h, intent, events, checkAverage).Ok?
    ensures FoldSound(intent, events, RunFold(h, intent, events, checkAverage).value)
  {
    if events != [] {
      var front := events[..|events| - 1];
      AcceptedIsSound(h, intent, front, checkAverage);
      StepFoldSound(h, intent, front, RunFold(h, intent, front, checkAverage).value, events[|events| - 1], checkAverage);
      assert front + [events[|events| - 1]] == events;
    }
  }

  /** Cumulative quantity is the evidence's quantity, average times quantity is exactly the money
      the fills exchanged, an order is complete exactly when its status says so, and its cost never
      passes the limit price. */
  lemma {:induction false} AcceptedHistory(h: Digests, intent: Intent, events: seq<Event>)
    requires intent.Valid() && AllValid(events)
    requires Reduce(h, intent, events).Ok?
    ensures var s := Reduce(h, intent, events).value;
            && s.filled == EvidenceQuantity(events) <= intent.quantity
            && Value(s.average, s.filled) == EvidenceValue(events)
            && (s.filled == intent.quantity <==> s.status.Filled?)
            && ((s.filled == 0) == (s.average == None))
            && (s.average.Some? ==> s.average.value > 0.0)
            && (intent.action == Buy ==> EvidenceValue(events) <= Cost(intent.limitPrice, s.filled))
            && (intent.action == Sell ==> EvidenceValue(events) >= Cost(intent.limitPrice, s.filled))
            && (events == [] <==> s.status.Created?)
  {
    hide Cost;
    AcceptedIsSound(h, intent, events, true);
  }

  /** Every prefix of an accepted history is accepted, and no event follows a terminal one. */
  lemma {:induction false} PrefixAccepted(h: Digests, intent: Intent, events: seq<Event>, k: nat)
    requires k <= |events| && Reduce(h, intent, events).Ok?
    ensures Reduce(h, intent, events[..k]).Ok?
    ensures k < |events| ==> !Reduce(h, intent, events[..k]).value.status.Terminal()
    ensures k < |events| ==> events[k].intentSha == h.intent(intent)
  {
    if k == |events| {
      assert events[..k] == events;
    } else {
      var front := events[..|events| - 1];
      if k == |front| {
        assert events[..k] == front;
      } else {
        PrefixAccepted(h, intent, front, k);
        assert front[..k] == events[..k];
      }
    }
  }

  lemma AverageCheckRedundantStep(h: Digests, intent: Intent, events: seq<Event>, acc: Fold, e: Event)
    requires intent.Valid() && e.Valid() && FoldSound(intent, events, acc)
    ensures Step(h, intent, acc, e, false) == Step(h, intent, acc, e, true)
  {
    hide Cost;
    if HistoryError(h, intent, acc, e) == None && e.average.Some? {
      EventFigures(h, intent, events, acc, e);
      QuotientBound(intent.limitPrice, e.cumulative, e.average.value);
      QuotientBound(e.average.value, e.cumulative, intent.limitPrice);
    }
  }

  /** The per-fill limit check already implies the average-price limit check: dropping the second
      one changes no result, not even which error is raised. */
  lemma {:induction false} AverageCheckRedundant(h: Digests, intent: Intent, events: seq<Event>)
    requires intent.Valid() && AllValid(events)
    ensures RunFold(h, intent, events, false) == RunFold(h, intent, events, true)
  {
    if events != [] {
      var front := events[..|events| - 1];
      AverageCheckRedundant(h, intent, front);
      if RunFold(h, intent, front, true).Ok? {
        AcceptedIsSound(h, intent, front, true);
        AverageCheckRedundantStep(h, intent, front, RunFold(h, intent, front, true).value, events[|events| - 1]);
      }
    }
  }
}
