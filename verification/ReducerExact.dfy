/** Which event an accepted order history takes next: exactly, in the history's own figures. */
module ReducerExact {
  import opened Prelude
  import opened PaperModel
  import opened OrderReducer

  // ----- Reading a history -----

  function LastStatus(events: seq<Event>): Status { if events == [] then Created else events[|events| - 1].kind }

  function LastInstant(i: Intent, events: seq<Event>): Instant { if events == [] then i.createdAt else events[|events| - 1].occurredAt }

  function LastNumber(events: seq<Event>): nat { if events == [] then 0 else events[|events| - 1].sequence }

  /** The newest fill of the history. */
  function LastFill(events: seq<Event>): Option<FillEvidence> {
    if events == [] then None
    else if events[|events| - 1].fill.Some? then events[|events| - 1].fill
    else LastFill(events[..|events| - 1])
  }

  ghost predicate NewDigests(h: Digests, events: seq<Event>, e: Event) {
    forall k :: 0 <= k < |events| ==> h.event(events[k]) != h.event(e) && events[k].adapterId != e.adapterId
  }

  ghost predicate NewIdentity(events: seq<Event>, f: FillEvidence) {
    forall k :: 0 <= k < |events| && events[k].fill.Some? ==>
      !(events[k].fill.value.stream == f.stream && events[k].fill.value.sequence == f.sequence && events[k].fill.value.source == f.source)
  }

  /** Strictly after, by receipt, then stream, then sequence. */
  predicate PositionAfter(f: FillEvidence, was: FillEvidence) {
    || was.observedAt < f.observedAt
    || (was.observedAt == f.observedAt && was.stream < f.stream)
    || (was.observedAt == f.observedAt && was.stream == f.stream && was.sequence < f.sequence)
  }

  lemma {:induction false} FoldReads(h: Digests, i: Intent, events: seq<Event>)
    requires RunFold(h, i, events, true).Ok?
    ensures var acc := RunFold(h, i, events, true).value;
            && acc.status == LastStatus(events) && acc.lastAt == LastInstant(i, events) && acc.lastSequence == LastNumber(events)
            && (acc.lastFill.None? <==> LastFill(events).None?)
            && (acc.lastFill.Some? ==> acc.lastFill.value == FillPosition(LastFill(events).value.observedAt, LastFill(events).value.stream, LastFill(events).value.sequence))
  {
    hide HistoryError, DeadlineError, OutsideLimit;
    if events != [] { FoldReads(h, i, events[..|events| - 1]); }
  }

  lemma {:induction false} DigestsRead(h: Digests, i: Intent, events: seq<Event>, e: Event)
    requires RunFold(h, i, events, true).Ok?
    ensures var acc := RunFold(h, i, events, true).value; h.event(e) !in acc.hashes && e.adapterId !in acc.adapterIds <==> NewDigests(h, events, e)
  {
    hide HistoryError, DeadlineError, OutsideLimit;
    if events != [] {
      var front := events[..|events| - 1];
      DigestsRead(h, i, front, e);
      assert forall k :: 0 <= k < |front| ==> front[k] == events[k];
      if NewDigests(h, events, e) { assert h.event(events[|events| - 1]) != h.event(e); }
    }
  }

  lemma {:induction false} IdentitiesRead(h: Digests, i: Intent, events: seq<Event>, f: FillEvidence)
    requires RunFold(h, i, events, true).Ok?
    ensures FillIdentity(f.stream, f.sequence, f.source) !in RunFold(h, i, events, true).value.fillIds <==> NewIdentity(events, f)
  {
    hide HistoryError, DeadlineError, OutsideLimit;
    if events != [] {
      var front := events[..|events| - 1];
      IdentitiesRead(h, i, front, f);
      assert forall k :: 0 <= k < |front| ==> front[k] == events[k];
      if NewIdentity(events, f) { assert events[|events| - 1].fill.Some? ==> FillIdentity(events[|events| - 1].fill.value.stream, events[|events| - 1].fill.value.sequence, events[|events| - 1].fill.value.source) != FillIdentity(f.stream, f.sequence, f.source); }
    }
  }

  // ----- The next event -----

  /** Of this order, new, numbered and dated in order, while the order is live. */
  ghost predicate Follows(h: Digests, i: Intent, events: seq<Event>, e: Event) {
    && e.intentSha == h.intent(i) && NewDigests(h, events, e)
    && LastNumber(events) < e.sequence && LastInstant(i, events) <= e.occurredAt
    && !LastStatus(events).Terminal()
  }

  /** The event keeps the quantity filled so far, at its average. */
  ghost predicate KeepsFills(events: seq<Event>, e: Event) {
    e.fill.None? && e.cumulative == EvidenceQuantity(events) && Value(e.average, e.cumulative) == EvidenceValue(events)
  }

  /** The fill adds its shares and its money, once, in receipt order, at a price the limit allows. */
  ghost predicate AddsFill(i: Intent, events: seq<Event>, e: Event) {
    && e.fill.Some?
    && var f := e.fill.value;
       && f.symbol == i.symbol && f.action == i.action
       && e.cumulative == EvidenceQuantity(events) + f.filled
       && Value(e.average, e.cumulative) == EvidenceValue(events) + f.price * f.filled as real
       && i.createdAt <= f.observedAt <= e.occurredAt
       && NewIdentity(events, f) && (LastFill(events).Some? ==> PositionAfter(f, LastFill(events).value))
       && (if i.action == Buy then f.price <= i.limitPrice else i.limitPrice <= f.price)
  }

  /** What each kind of event needs. */
  ghost predicate Takes(h: Digests, i: Intent, events: seq<Event>, e: Event) {
    && Follows(h, i, events, e)
    && match e.kind
       case Created => false
       case Accepted => events == [] && KeepsFills(events, e) && e.occurredAt <= i.expiresAt
       case Rejected => events == [] && KeepsFills(events, e)
       case Cancelled => events != [] && KeepsFills(events, e)
       case Expired => KeepsFills(events, e) && i.expiresAt <= e.occurredAt
       case PartiallyFilled => events != [] && AddsFill(i, events, e) && e.cumulative < i.quantity && e.occurredAt <= i.expiresAt
       case Filled => events != [] && AddsFill(i, events, e) && e.cumulative == i.quantity && e.occurredAt <= i.expiresAt
  }

  lemma SameAverage(a: Option<real>, b: Option<real>, n: nat)
    requires (n == 0 <==> a.None?) && (n == 0 <==> b.None?)
    ensures Value(a, n) == Value(b, n) <==> a == b
  {
    if n > 0 && a.value != b.value {
      assert (a.value - b.value) * n as real != 0.0;
    }
  }

  lemma QuietStep(h: Digests, i: Intent, events: seq<Event>, acc: Fold, e: Event)
    requires i.Valid() && e.Valid() && FoldSound(i, events, acc) && RunFold(h, i, events, true) == Ok(acc)
    requires acc.average.Some? ==> !OutsideLimit(i, acc.average.value)
    requires e.fill.None?
    ensures Step(h, i, acc, e, true).Ok? <==> Takes(h, i, events, e)
  {
    hide RunFold, EvidenceQuantity, EvidenceValue, OutsideLimit, Cost, Value, NewDigests;
    FoldReads(h, i, events);
    DigestsRead(h, i, events, e);
    if acc.filled == e.cumulative { SameAverage(acc.average, e.average, acc.filled); }
  }

  /** The stated average is the expected one exactly when the money adds up. */
  lemma AverageAdds(acc: Fold, e: Event, money: real)
    requires e.Valid() && e.fill.Some? && e.cumulative == acc.filled + e.fill.value.filled && Value(acc.average, acc.filled) == money
    requires (acc.filled == 0) == (acc.average == None)
    ensures var f := e.fill.value;
            var expected := if acc.filled == 0 then f.price else NextAverage(acc.average, acc.filled, f.price, f.filled);
            e.average == Some(expected) <==> Value(e.average, e.cumulative) == money + f.price * f.filled as real
  {
    var f := e.fill.value;
    var expected := if acc.filled == 0 then f.price else NextAverage(acc.average, acc.filled, f.price, f.filled);
    NextMoney(acc.average, acc.filled, f.price, f.filled);
    assert Value(Some(expected), e.cumulative) == money + f.price * f.filled as real;
    hide NextAverage, Value;
    SameAverage(e.average, Some(expected), e.cumulative);
  }

  lemma NextMoney(average: Option<real>, filled: nat, price: real, increment: nat)
    requires increment > 0 && (filled == 0) == (average == None)
    ensures var expected := if filled == 0 then price else NextAverage(average, filled, price, increment);
            Value(Some(expected), filled + increment) == Value(average, filled) + price * increment as real
  {
    if filled > 0 {
      var total := average.value * filled as real + price * increment as real;
      assert NextAverage(average, filled, price, increment) == total / (filled + increment) as real;
      assert total / (filled + increment) as real * (filled + increment) as real == total;
    }
  }

  lemma PositionMeans(f: FillEvidence, was: FillEvidence)
    ensures FillPosition(f.observedAt, f.stream, f.sequence).AtOrBefore(FillPosition(was.observedAt, was.stream, was.sequence)) <==> !PositionAfter(f, was)
  {}

  lemma EvidenceExactly(h: Digests, i: Intent, events: seq<Event>, acc: Fold, e: Event)
    requires i.Valid() && e.Valid() && FoldSound(i, events, acc) && RunFold(h, i, events, true) == Ok(acc)
    requires e.fill.Some? && e.cumulative > acc.filled
    ensures EvidenceError(i, acc, e).None? <==> AddsFill(i, events, e)
  {
    hide RunFold, EvidenceQuantity, EvidenceValue, Cost, Value, NewDigests, NewIdentity, NextAverage, PositionAfter, FillPosition.AtOrBefore;
    var f := e.fill.value;
    FoldReads(h, i, events);
    IdentitiesRead(h, i, events, f);
    if LastFill(events).Some? { PositionMeans(f, LastFill(events).value); }
    if e.cumulative == acc.filled + f.filled { AverageAdds(acc, e, EvidenceValue(events)); }
  }

  lemma FillStep(h: Digests, i: Intent, events: seq<Event>, acc: Fold, e: Event)
    requires i.Valid() && e.Valid() && FoldSound(i, events, acc) && RunFold(h, i, events, true) == Ok(acc)
    requires e.fill.Some?
    ensures Step(h, i, acc, e, false).Ok? <==> Takes(h, i, events, e)
  {
    hide RunFold, EvidenceQuantity, EvidenceValue, OutsideLimit, Cost, Value, NewDigests, EvidenceError, AddsFill;
    FoldReads(h, i, events);
    DigestsRead(h, i, events, e);
    assert AddsFill(i, events, e) ==> e.cumulative > acc.filled by { FillGrows(i, events, e); }
    if e.cumulative > acc.filled { EvidenceExactly(h, i, events, acc, e); }
  }

  lemma FillGrows(i: Intent, events: seq<Event>, e: Event)
    requires e.Valid()
    ensures AddsFill(i, events, e) ==> e.cumulative > EvidenceQuantity(events)
  {
    hide Value;
  }

  lemma {:induction false} AverageInside(h: Digests, i: Intent, events: seq<Event>)
    requires RunFold(h, i, events, true).Ok?
    ensures var acc := RunFold(h, i, events, true).value; acc.average.Some? ==> !OutsideLimit(i, acc.average.value)
  {
    hide HistoryError, DeadlineError, OutsideLimit;
  }

  /** An accepted history takes a valid event next if and only if it follows in number and time on a live order and
      its kind's own conditions hold: a first acceptance or rejection, a cancellation after acceptance, an expiry at
      or after the deadline, or a fill before it that adds its shares and money within the limit, once and in
      receipt order. */
  lemma ReducerExactly(h: Digests, i: Intent, events: seq<Event>, e: Event)
    requires i.Valid() && AllValid(events) && e.Valid() && Reduce(h, i, events).Ok?
    ensures Reduce(h, i, events + [e]).Ok? <==> Takes(h, i, events, e)
  {
    hide Step, Takes, FoldSound;
    var acc := RunFold(h, i, events, true).value;
    AcceptedIsSound(h, i, events, true);
    AverageInside(h, i, events);
    assert (events + [e])[..|events|] == events;
    assert RunFold(h, i, events + [e], true) == Step(h, i, acc, e, true);
    if e.fill.None? {
      QuietStep(h, i, events, acc, e);
    } else {
      FillStep(h, i, events, acc, e);
      AverageCheckRedundantStep(h, i, events, acc, e);
    }
  }
}
