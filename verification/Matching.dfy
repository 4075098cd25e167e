/** Conservative top-of-book matching of one order against one quote. */
module Matching {
  import opened Prelude
  import opened PaperModel
  import opened OrderReducer
  import opened SessionLog
  import opened Planner

  /** The event the adapter would record next; the reducer stays authoritative. */
  function DraftEvent(h: Digests, intent: Intent, state: OrderState, kind: Status, at: Instant,
                      reason: Option<string>, fill: Option<FillEvidence>): Event
    requires fill.Some? ==> state.filled + fill.value.filled > 0
  {
    Event(h.intent(intent), state.eventCount + 1, kind, at,
          state.filled + (if fill.Some? then fill.value.filled else 0),
          if fill.None? then state.average
          else Some(NextAverage(state.average, state.filled, fill.value.price, fill.value.filled)),
          reason,
          h.evidence(EvidenceKey(h.intent(intent), state.lastEvent, kind, at, reason, fill)),
          fill)
  }

  function LifecycleEvent(h: Digests, intent: Intent, events: seq<Event>, kind: Status, at: Instant,
                          reason: Option<string>, fill: Option<FillEvidence>): Result<Event, SessionError>
    requires fill.Some? ==> fill.value.filled > 0
  {
    var state :- LiftReduce(Reduce(h, intent, events));
    var e := DraftEvent(h, intent, state, kind, at, reason, fill);
    if !e.Valid() then Err(InvalidEvent)
    else
      var _ :- LiftReduce(Reduce(h, intent, events + [e]));
      Ok(e)
  }

  function SidePrice(market: Market, action: Action): real {
    if action == Buy then market.askPrice else market.bidPrice
  }

  function SideQuantity(market: Market, action: Action): nat {
    if action == Buy then market.askQuantity else market.bidQuantity
  }

  /** The order has already filled from a quote with this stream session and receive sequence. */
  predicate AlreadyUsed(events: seq<Event>, market: Market) {
    exists i :: 0 <= i < |events| && events[i].fill.Some?
                && events[i].fill.value.stream == market.stream && events[i].fill.value.sequence == market.sequence
  }

  /** Whole lots of `available` that an order with `open` shares left can take. */
  function Lots(open: int, available: int, lotSize: nat): int
    requires lotSize >= 1
  {
    Min(open, available) / lotSize * lotSize
  }

  function MatchQuote(h: Digests, intent: Intent, events: seq<Event>, market: Market, policy: Policy,
                      context: ContextPolicy, available: int): Result<Option<Event>, SessionError>
    requires policy.lotSize >= 1
  {
    var state :- LiftReduce(Reduce(h, intent, events));
    if state.status.Terminal() then Ok(None)
    else if intent.configSha != policy.sha || market.symbol != intent.symbol then Err(MatchMismatch)
    else if || market.observedAt < intent.createdAt
            || (events != [] && market.observedAt < events[|events| - 1].occurredAt)
    then Err(MatchRewind)
    else if market.observedAt >= intent.expiresAt then
      var e :- LifecycleEvent(h, intent, events, Expired, market.observedAt, Some("TIME_IN_FORCE"), None);
      Ok(Some(e))
    else if state.status.Created? then Err(NotAccepted)
    else if market.status !in context.tradable then
      var e :- LifecycleEvent(h, intent, events, Cancelled, market.observedAt, Some("MARKET_STATUS_INELIGIBLE"), None);
      Ok(Some(e))
    else if market.quoteReceivedAt <= intent.createdAt || Stale(market, policy) then Ok(None)
    else
      var price := SidePrice(market, intent.action);
      if available < 0 || available > SideQuantity(market, intent.action) then Err(BudgetExceedsDisplayed)
      else if OutsideLimit(intent, price) then Ok(None)
      else
        var quantity := Lots(intent.quantity - state.filled, available, policy.lotSize);
        if quantity == 0 || AlreadyUsed(events, market) then Ok(None)
        else if quantity < 0 then Err(InvalidEvent)
        else
          var fill := FillEvidence(intent.symbol, intent.action, market.quoteReceivedAt, market.stream, market.sequence,
                                   quantity, available, price, market.source);
          var e :- LifecycleEvent(h, intent, events,
                                  if quantity + state.filled == intent.quantity then Filled else PartiallyFilled,
                                  market.observedAt, None, Some(fill));
          Ok(Some(e))
  }

  /** The order may trade on this quote: live, in time, tradable, fresh and crossing its limit. */
  predicate Eligible(h: Digests, intent: Intent, events: seq<Event>, market: Market, policy: Policy, context: ContextPolicy) {
    && Reduce(h, intent, events).Ok?
    && !Reduce(h, intent, events).value.status.Terminal()
    && intent.symbol == market.symbol
    && intent.createdAt <= market.observedAt < intent.expiresAt
    && market.status in context.tradable
    && intent.createdAt < market.quoteReceivedAt
    && !Stale(market, policy)
    && !OutsideLimit(intent, SidePrice(market, intent.action))
  }

  lemma SmallMultiple(d: int, n: nat)
    requires n >= 1 && 0 - n < d * n < n
    ensures d == 0
  {
    assert d >= 1 ==> d * n >= n;
    assert d <= -1 ==> d * n <= 0 - n;
  }

  lemma MultipleOf(k: int, n: nat)
    requires n >= 1
    ensures (k * n) % n == 0
  {
    var m := k * n;
    assert m == m / n * n + m % n;
    assert (k - m / n) * n == m % n;
    SmallMultiple(k - m / n, n);
  }

  lemma LotArithmetic(open: int, available: int, lotSize: nat)
    requires lotSize >= 1 && open >= 0 && available >= 0
    ensures var q := Lots(open, available, lotSize);
            && 0 <= q <= open && q <= available && q % lotSize == 0
            && (open % lotSize == 0 && q < open ==> available - q < lotSize)
  {
    var m := Min(open, available);
    assert m == m / lotSize * lotSize + m % lotSize;
    MultipleOf(m / lotSize, lotSize);
  }

  /** An event the matcher returns is valid, dated by the quote, and accepted by the reducer. */
  lemma MatchedEvent(h: Digests, intent: Intent, events: seq<Event>, market: Market, policy: Policy,
                     context: ContextPolicy, available: int)
    requires policy.lotSize >= 1
    requires MatchQuote(h, intent, events, market, policy, context, available).Ok?
    ensures var m := MatchQuote(h, intent, events, market, policy, context, available).value;
            m.Some? ==>
              && m.value.Valid() && m.value.intentSha == h.intent(intent) && m.value.occurredAt == market.observedAt
              && Reduce(h, intent, events + [m.value]).Ok?
  {
    hide RunFold, Lots, NextAverage, Event.Valid, AlreadyUsed;
  }

  /** A fill goes only to an eligible order, at the displayed price of its side, never exceeds its budget,
      is made of whole lots, carries the quote's identity and receipt, and completes the order exactly
      when it is marked FILLED. */
  lemma MatchedFill(h: Digests, intent: Intent, events: seq<Event>, market: Market, policy: Policy,
                    context: ContextPolicy, available: int)
    requires intent.Valid() && AllValid(events) && policy.lotSize >= 1
    requires MatchQuote(h, intent, events, market, policy, context, available).Ok?
    ensures var m := MatchQuote(h, intent, events, market, policy, context, available).value;
            m.Some? && m.value.fill.Some? ==>
              var f := m.value.fill.value;
              && Eligible(h, intent, events, market, policy, context)
              && 0 < f.filled <= available == f.available && f.filled % policy.lotSize == 0
              && f.symbol == market.symbol && f.action == intent.action
              && f.price == (if intent.action == Buy then market.askPrice else market.bidPrice) && f.observedAt == market.quoteReceivedAt
              && f.stream == market.stream && f.sequence == market.sequence && f.source == market.source
              && !AlreadyUsed(events, market)
              && m.value.cumulative == Reduce(h, intent, events).value.filled + f.filled
              && (m.value.kind.Filled? <==> m.value.cumulative == intent.quantity)
  {
    hide RunFold, Lots, NextAverage, EvidenceValue, EvidenceQuantity, AlreadyUsed, Event.Valid, AllValid, Cost;
    AcceptedHistory(h, intent, events);
    if 0 <= available {
      LotArithmetic(intent.quantity - Reduce(h, intent, events).value.filled, available, policy.lotSize);
    }
  }

  /** A live order gets an EXPIRED event exactly when its deadline has passed, otherwise a CANCELLED one
      exactly when the market does not trade, otherwise a fill or nothing. */
  lemma MatchedClosing(h: Digests, intent: Intent, events: seq<Event>, market: Market, policy: Policy,
                       context: ContextPolicy, available: int)
    requires policy.lotSize >= 1
    requires MatchQuote(h, intent, events, market, policy, context, available).Ok?
    requires Reduce(h, intent, events).Ok? && !Reduce(h, intent, events).value.status.Terminal()
    ensures var m := MatchQuote(h, intent, events, market, policy, context, available).value;
            && (market.observedAt >= intent.expiresAt <==> m.Some? && m.value.kind.Expired?)
            && (market.observedAt < intent.expiresAt && market.status !in context.tradable <==> m.Some? && m.value.kind.Cancelled?)
            && (m.Some? && !m.value.kind.Expired? && !m.value.kind.Cancelled? ==> m.value.fill.Some?)
  {
    hide RunFold, Lots, NextAverage, Event.Valid, AlreadyUsed;
  }

  function FilledBy(m: Option<Event>): nat {
    if m.Some? then FillQuantity(m.value) else 0
  }

  /** An eligible order of whole lots that a quote leaves incomplete either leaves less than one lot
      of the budget, or had already traded on this very quote and is skipped. */
  lemma MatchedIncomplete(h: Digests, intent: Intent, events: seq<Event>, market: Market, policy: Policy,
                          context: ContextPolicy, available: int)
    requires intent.Valid() && AllValid(events) && policy.lotSize >= 1
    requires MatchQuote(h, intent, events, market, policy, context, available).Ok?
    requires Eligible(h, intent, events, market, policy, context)
    requires (intent.quantity - Reduce(h, intent, events).value.filled) % policy.lotSize == 0
    ensures var m := MatchQuote(h, intent, events, market, policy, context, available).value;
            && (AlreadyUsed(events, market) ==> m == None)
            && (!AlreadyUsed(events, market) && !(m.Some? && m.value.kind.Filled?) ==>
                  0 <= available - FilledBy(m) < policy.lotSize)
  {
    hide RunFold, Lots, NextAverage, EvidenceValue, EvidenceQuantity, AlreadyUsed, Event.Valid, AllValid, Cost;
    AcceptedHistory(h, intent, events);
    if 0 <= available {
      LotArithmetic(intent.quantity - Reduce(h, intent, events).value.filled, available, policy.lotSize);
    }
  }
}
