/** Which quotes reach the allocation at all, and what an accepted one does to the cursors. */
module QuoteGates {
  import opened Prelude
  import opened PaperModel
  import opened SessionLog
  import opened PaperSession
  import opened SessionSafety
  import opened QuoteAllocation

  /** The cursor of a symbol: the last quote of it the session took. */
  ghost predicate LastTaken(s: Session, symbol: Ident, previous: Option<Market>) {
    if previous.Some? then previous.value in s.markets && previous.value.symbol == symbol
    else forall x :: x in s.markets ==> x.symbol != symbol
  }

  /** A quote may follow the last one: another identity, not received or observed before it, and within its own
      stream strictly later in sequence. */
  predicate MayFollow(was: Market, market: Market) {
    && !(was.stream == market.stream && was.sequence == market.sequence)
    && was.quoteReceivedAt <= market.quoteReceivedAt && was.observedAt <= market.observedAt
    && (was.stream == market.stream ==> was.sequence < market.sequence)
  }

  predicate OfTheDay(cfg: Configuration, s: Session, market: Market) {
    var local := market.observedAt + cfg.utcOffsetSeconds * 1_000_000;
    s.ledger.tradeDate * 86_400_000_000 <= local < (s.ledger.tradeDate + 1) * 86_400_000_000
  }

  lemma DayMeans(cfg: Configuration, s: Session, market: Market)
    ensures LocalDay(market.observedAt, cfg.utcOffsetSeconds) == s.ledger.tradeDate <==> OfTheDay(cfg, s, market)
  {
    var local, day := market.observedAt + cfg.utcOffsetSeconds * SECOND, 86400 * SECOND;
    assert local == local / day * day + local % day;
  }

  lemma CursorMeans(s: Session, symbol: Ident)
    requires MarketsOrdered(s.markets)
    ensures LastTaken(s, symbol, Cursor(s.markets, symbol))
  {
    hide Cursor;
    CursorFinds(s.markets, symbol);
  }

  /** Before any order is looked at: a quote of another day is refused, the very quote last taken is ignored, one that
      may not follow it is refused, and without a policy nothing happens. */
  lemma QuoteGated(h: Digests, cfg: Configuration, s: Session, market: Market)
    requires cfg.Valid() && MarketsOrdered(s.markets)
    ensures LastTaken(s, market.symbol, Cursor(s.markets, market.symbol))
    ensures var r, previous := ProcessQuote(h, cfg, s, market), Cursor(s.markets, market.symbol);
            && (!OfTheDay(cfg, s, market) ==> r == Err(QuoteDate))
            && (OfTheDay(cfg, s, market) && previous == Some(market) ==> r == Ok(s))
            && (OfTheDay(cfg, s, market) && previous.Some? && previous.value != market && !MayFollow(previous.value, market) ==> r == Err(CursorConflict))
            && (OfTheDay(cfg, s, market) && (previous.Some? ==> previous.value == market || MayFollow(previous.value, market)) && cfg.policy.None? ==> r == Ok(s))
  {
    hide OfferAll, SortOrders, IntentsOf, Finish, LocalDay, OfTheDay, Cursor, MarketsOrdered, LastTaken;
    DayMeans(cfg, s, market);
    CursorMeans(s, market.symbol);
  }

  /** A quote that is taken is of the day, new and in order; the session then remembers it as the last of its symbol,
      and every other symbol's last quote as before. */
  lemma {:induction false} TakenQuote(h: Digests, cfg: Configuration, s: Session, market: Market)
    requires cfg.Valid() && Sound(h, s) && ProcessQuote(h, cfg, s, market).Ok? && ProcessQuote(h, cfg, s, market).value != s
    ensures var n, previous := ProcessQuote(h, cfg, s, market).value, Cursor(s.markets, market.symbol);
            && cfg.policy.Some? && OfTheDay(cfg, s, market) && (previous.Some? ==> MayFollow(previous.value, market))
            && LastTaken(n, market.symbol, Some(market))
            && (forall x: Market :: x.symbol != market.symbol ==> (x in n.markets <==> x in s.markets))
            && (forall x :: x in n.markets && x.symbol == market.symbol ==> x == market)
  {
    hide ProcessQuote, Cursor, OfTheDay, LastTaken, PlaceMarket, Traded, SideBudget;
    assert MarketsOrdered(s.markets);
    QuoteGated(h, cfg, s, market);
    QuoteSpends(h, cfg, s, market);
    PlaceMarketKeys(s.markets, market);
    PlaceMarketMembers(s.markets, market);
    var n := ProcessQuote(h, cfg, s, market).value;
    assert LastTaken(n, market.symbol, Some(market)) by { TakenLast(n, market); }
  }

  lemma TakenLast(n: Session, market: Market)
    requires market in n.markets
    ensures LastTaken(n, market.symbol, Some(market))
  {}
}
