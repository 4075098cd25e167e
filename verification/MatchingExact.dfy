/** A quote that can fill an order does: exactly when, how much, at what price. */
module MatchingExact {
  import opened Prelude
  import opened PaperModel
  import opened OrderReducer
  import opened ReducerExact
  import opened Planner
  import opened Matching

  /** The order's own part: live and accepted, its deadline ahead, nothing of it dated after the quote. */
  predicate OrderOpen(h: Digests, i: Intent, events: seq<Event>, market: Market) {
    && events != [] && Reduce(h, i, events).Ok? && !Reduce(h, i, events).value.status.Terminal()
    && i.symbol == market.symbol && i.createdAt <= market.observedAt < i.expiresAt
    && events[|events| - 1].occurredAt <= market.observedAt
  }

  /** The quote's part: tradable, received after the order was made, fresh, and crossing its limit. */
  predicate QuoteCrosses(i: Intent, market: Market, policy: Policy, context: ContextPolicy) {
    && market.status in context.tradable && i.createdAt < market.quoteReceivedAt
    && market.observedAt - market.quoteReceivedAt <= policy.maxQuoteAgeSeconds * 1_000_000
    && (if i.action == Buy then market.askPrice <= i.limitPrice else i.limitPrice <= market.bidPrice)
  }

  /** Whole lots of what is open and offered. */
  function WholeLots(open: int, available: int, lot: nat): int
    requires lot >= 1
  {
    var least := if open < available then open else available;
    least - least % lot
  }

  /** The identity of the quote is new to the order, and comes after its last fill. */
  predicate NewToOrder(events: seq<Event>, market: Market) {
    && (forall k :: 0 <= k < |events| && events[k].fill.Some? ==> !(events[k].fill.value.stream == market.stream && events[k].fill.value.sequence == market.sequence))
    && (LastFill(events).Some? ==>
          var was := LastFill(events).value;
          || was.observedAt < market.quoteReceivedAt
          || (was.observedAt == market.quoteReceivedAt && was.stream < market.stream)
          || (was.observedAt == market.quoteReceivedAt && was.stream == market.stream && was.sequence < market.sequence))
  }

  function FillOf(i: Intent, market: Market, quantity: nat, available: nat): FillEvidence {
    FillEvidence(i.symbol, i.action, market.quoteReceivedAt, market.stream, market.sequence, quantity, available,
                 if i.action == Buy then market.askPrice else market.bidPrice, market.source)
  }

  lemma LotsMean(open: int, available: int, lot: nat)
    requires lot >= 1
    ensures Lots(open, available, lot) == WholeLots(open, available, lot)
  {
    var m := Min(open, available);
    assert m == m / lot * lot + m % lot;
  }

  /** The event the matcher would draft. */
  function FillEvent(h: Digests, i: Intent, events: seq<Event>, market: Market, quantity: nat, available: nat): Event
    requires Reduce(h, i, events).Ok? && quantity >= 1
  {
    var state := Reduce(h, i, events).value;
    DraftEvent(h, i, state, if quantity + state.filled == i.quantity then Filled else PartiallyFilled, market.observedAt, None, Some(FillOf(i, market, quantity, available)))
  }

  lemma FillEventFine(h: Digests, i: Intent, events: seq<Event>, market: Market, quantity: nat, available: nat)
    requires i.Valid() && AllValid(events) && market.Valid() && Reduce(h, i, events).Ok? && 1 <= quantity <= available
    ensures var e, f := FillEvent(h, i, events, market, quantity, available), FillOf(i, market, quantity, available);
            && e.Valid() && e.fill == Some(f) && e.intentSha == h.intent(i) && e.sequence == |events| + 1 && e.occurredAt == market.observedAt
            && e.cumulative == EvidenceQuantity(events) + quantity
            && Value(e.average, e.cumulative) == EvidenceValue(events) + f.price * quantity as real
            && e.kind == (if e.cumulative == i.quantity then Filled else PartiallyFilled)
  {
    hide RunFold, EvidenceQuantity, EvidenceValue, Cost, AllValid;
    AcceptedHistory(h, i, events);
    var state, f := Reduce(h, i, events).value, FillOf(i, market, quantity, available);
    Draft(state.average, state.filled, f.price, quantity);
  }

  lemma Draft(average: Option<real>, filled: nat, price: real, increment: nat)
    requires increment > 0 && price > 0.0 && (filled == 0) == (average == None) && (average.Some? ==> average.value > 0.0)
    ensures NextAverage(average, filled, price, increment) > 0.0
    ensures Value(Some(NextAverage(average, filled, price, increment)), filled + increment) == Value(average, filled) + price * increment as real
  {
    var was := if average.Some? then average.value else 0.0;
    assert was * filled as real >= 0.0;
    assert price * increment as real > 0.0;
    var total := was * filled as real + price * increment as real;
    assert NextAverage(average, filled, price, increment) == total / (filled + increment) as real;
    assert total / (filled + increment) as real * (filled + increment) as real == total;
  }

  /** An open order and a crossing quote that is new to it trade: the matcher returns a fill of every whole lot open
      and offered, at the displayed price, complete or partial, and the reducer accepts it. */
  lemma CrossingFills(h: Digests, i: Intent, events: seq<Event>, market: Market, policy: Policy, context: ContextPolicy, available: int)
    requires i.Valid() && AllValid(events) && market.Valid() && policy.lotSize >= 1 && i.configSha == policy.sha
    requires OrderOpen(h, i, events, market) && QuoteCrosses(i, market, policy, context) && NewToOrder(events, market)
    requires 0 <= available <= (if i.action == Buy then market.askQuantity else market.bidQuantity)
    requires LastNumber(events) <= |events|
    requires var quantity := WholeLots(i.quantity - EvidenceQuantity(events), available, policy.lotSize);
             quantity >= 1 && NewDigests(h, events, FillEvent(h, i, events, market, quantity, available))
    ensures var quantity := WholeLots(i.quantity - EvidenceQuantity(events), available, policy.lotSize);
            MatchQuote(h, i, events, market, policy, context, available) == Ok(Some(FillEvent(h, i, events, market, quantity, available)))
  {
    hide Reduce, EvidenceQuantity, AllValid, Lots, WholeLots, NewDigests, Intent.Valid, Market.Valid, NewToOrder, LifecycleEvent, FillEvent;
    var open := i.quantity - EvidenceQuantity(events);
    var quantity := WholeLots(open, available, policy.lotSize);
    LotsMean(open, available, policy.lotSize);
    assert EvidenceQuantity(events) <= i.quantity by { NeverOver(h, i, events); }
    LotsWithin(open, available, policy.lotSize);
    FillDrafted(h, i, events, market, quantity, available);
    assert !AlreadyUsed(events, market) by { UnusedToo(events, market); }
    StatusRead(h, i, events);
    assert LastStatus(events) != Created by { NeverCreated(h, i, events); }
  }

  lemma NeverOver(h: Digests, i: Intent, events: seq<Event>)
    requires i.Valid() && AllValid(events) && Reduce(h, i, events).Ok?
    ensures EvidenceQuantity(events) <= i.quantity
  {
    hide RunFold, EvidenceQuantity, EvidenceValue, Cost, AllValid;
    AcceptedHistory(h, i, events);
  }

  lemma UnusedToo(events: seq<Event>, market: Market)
    requires NewToOrder(events, market)
    ensures !AlreadyUsed(events, market)
  {}

  lemma NeverCreated(h: Digests, i: Intent, events: seq<Event>)
    requires i.Valid() && AllValid(events) && Reduce(h, i, events).Ok? && events != []
    ensures LastStatus(events) != Created
  {
    hide RunFold, EvidenceQuantity, EvidenceValue, Cost, AllValid;
    AcceptedHistory(h, i, events);
    StatusRead(h, i, events);
  }

  lemma FillDrafted(h: Digests, i: Intent, events: seq<Event>, market: Market, quantity: nat, available: nat)
    requires i.Valid() && AllValid(events) && market.Valid() && OrderOpen(h, i, events, market) && NewToOrder(events, market)
    requires i.createdAt < market.quoteReceivedAt && (if i.action == Buy then market.askPrice <= i.limitPrice else i.limitPrice <= market.bidPrice)
    requires 1 <= quantity <= available && quantity <= i.quantity - EvidenceQuantity(events) && LastNumber(events) <= |events|
    requires NewDigests(h, events, FillEvent(h, i, events, market, quantity, available))
    ensures var state := Reduce(h, i, events).value;
            && state.filled == EvidenceQuantity(events)
            && LifecycleEvent(h, i, events, if quantity + state.filled == i.quantity then Filled else PartiallyFilled, market.observedAt, None,
                              Some(FillOf(i, market, quantity, available))) == Ok(FillEvent(h, i, events, market, quantity, available))
  {
    hide Reduce, EvidenceQuantity, EvidenceValue, Cost, AllValid, NewDigests, Intent.Valid, Market.Valid, Event.Valid, Value, DraftEvent, Takes;
    AcceptedHistory(h, i, events);
    var e := FillEvent(h, i, events, market, quantity, available);
    FillEventFine(h, i, events, market, quantity, available);
    FillTaken(h, i, events, market, e, quantity, available);
    ReducerExactly(h, i, events, e);
  }

  lemma FillTaken(h: Digests, i: Intent, events: seq<Event>, market: Market, e: Event, quantity: nat, available: nat)
    requires i.Valid() && AllValid(events) && market.Valid() && OrderOpen(h, i, events, market) && NewToOrder(events, market)
    requires i.createdAt < market.quoteReceivedAt && (if i.action == Buy then market.askPrice <= i.limitPrice else i.limitPrice <= market.bidPrice)
    requires quantity <= i.quantity - EvidenceQuantity(events) && LastNumber(events) <= |events| && NewDigests(h, events, e)
    requires e.fill == Some(FillOf(i, market, quantity, available)) && e.intentSha == h.intent(i) && e.sequence == |events| + 1 && e.occurredAt == market.observedAt
    requires e.cumulative == EvidenceQuantity(events) + quantity
    requires Value(e.average, e.cumulative) == EvidenceValue(events) + e.fill.value.price * quantity as real
    requires e.kind == (if e.cumulative == i.quantity then Filled else PartiallyFilled)
    ensures Takes(h, i, events, e)
  {
    hide Reduce, EvidenceQuantity, EvidenceValue, AllValid, NewDigests, Intent.Valid, Value, NewIdentity;
    StatusRead(h, i, events);
    NewIdentityToo(events, market, e.fill.value);
    assert market.quoteReceivedAt <= market.observedAt by { Received(market); }
    hide Market.Valid;
  }

  lemma Received(market: Market)
    requires market.Valid()
    ensures market.quoteReceivedAt <= market.observedAt
  {}

  lemma NewIdentityToo(events: seq<Event>, market: Market, f: FillEvidence)
    requires NewToOrder(events, market) && f.stream == market.stream && f.sequence == market.sequence
    ensures NewIdentity(events, f)
  {}

  lemma StatusRead(h: Digests, i: Intent, events: seq<Event>)
    requires Reduce(h, i, events).Ok?
    ensures Reduce(h, i, events).value.status == LastStatus(events)
  {
    FoldReads(h, i, events);
  }

  lemma LotsWithin(open: int, available: int, lot: nat)
    requires lot >= 1 && open >= 0 && available >= 0
    ensures 0 <= WholeLots(open, available, lot) <= open && WholeLots(open, available, lot) <= available
  {}
}
