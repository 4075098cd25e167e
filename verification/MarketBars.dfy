/** Market state from captured envelopes: per-symbol volume bars. */
module MarketBars {
  import opened Prelude
  import opened Sorting

  datatype Side = BuySide | SellSide | NoSide

  datatype Trade = Trade(symbol: Ident, at: Instant, receivedAt: Instant, price: real, quantity: nat, cumulative: int, side: Side)
  {
    predicate Valid() { price > 0.0 && quantity >= 1 && at >= 0 }
  }

  /** What an envelope decodes to: a trade, a quote, or another record on the trade channel. */
  datatype MarketEvent = TradeEvent(trade: Trade) | QuoteEvent(symbol: Ident, at: Instant, quote: Digest) | StatusEvent(symbol: Ident, at: Instant)
  {
    function Symbol(): Ident { if TradeEvent? then trade.symbol else symbol }

    function Time(): Instant { if TradeEvent? then trade.at else at }

    predicate Valid() { Time() >= 0 && (TradeEvent? ==> trade.Valid()) }
  }

  datatype Envelope = Envelope(stream: Ident, sequence: nat, receivedAt: Instant, indices: bool, event: Option<MarketEvent>)

  datatype Setting = Setting(symbols: set<Ident>, intervalSeconds: nat, effectiveFrom: Instant, effectiveTo: Option<Instant>)
  {
    predicate Valid() { intervalSeconds >= 1 }

    predicate Contains(at: Instant) { effectiveFrom <= at && (effectiveTo.Some? ==> at < effectiveTo.value) }

    function Interval(): int { intervalSeconds * SECOND }
  }

  /** The bar itself; the volume-weighted price is `value / volume`, rounded where it is reported. */
  datatype Bar = Bar(symbol: Ident, start: Instant, end: Instant, openPrice: real, high: real, low: real, closePrice: real,
                     volume: nat, value: real, trades: nat, bought: nat, sold: nat, availableAt: Option<Instant>)

  datatype SymbolState = SymbolState(latestTrade: Option<Trade>, latestQuote: Option<Digest>, lastTradeTime: Option<Instant>,
                                     lastQuoteTime: Option<Instant>, cumulative: Option<int>, bar: Option<Bar>,
                                     closedThrough: Option<Instant>)

  const FRESH := SymbolState(None, None, None, None, None, None, None)

  datatype Issue = SequenceGap | SequenceRegression | ReceiptRegression | TradeTimeRegression | QuoteTimeRegression
                 | LateTrade | VolumeDuplicate | VolumeGap | VolumeRegression

  // ----- Bars -----

  /** The start of the interval that contains an instant at or after the epoch. */
  function BarStart(at: Instant, seconds: nat): Instant
    requires seconds >= 1
  {
    var epoch := at / SECOND;
    (epoch - epoch % seconds) * SECOND
  }

  function Worth(price: real, quantity: nat): real { price * quantity as real }

  function FromTrade(g: Setting, t: Trade): Bar
    requires g.Valid()
  {
    var start := BarStart(t.at, g.intervalSeconds);
    Bar(t.symbol, start, start + g.Interval(), t.price, t.price, t.price, t.price, t.quantity, Worth(t.price, t.quantity), 1,
        if t.side == BuySide then t.quantity else 0, if t.side == SellSide then t.quantity else 0, None)
  }

  function MaxReal(a: real, b: real): real { if a < b then b else a }

  function MinReal(a: real, b: real): real { if b < a then b else a }

  function AddTrade(b: Bar, t: Trade): Bar {
    b.(high := MaxReal(b.high, t.price), low := MinReal(b.low, t.price), closePrice := t.price,
       volume := b.volume + t.quantity, value := b.value + Worth(t.price, t.quantity), trades := b.trades + 1,
       bought := b.bought + (if t.side == BuySide then t.quantity else 0),
       sold := b.sold + (if t.side == SellSide then t.quantity else 0))
  }

  function Closed(b: Bar, availableAt: Instant): Bar { b.(availableAt := Some(availableAt)) }

  /** A symbol's next state, the bars it finalizes and the issues it raises. `backward` marks the branch
      for a trade that would belong before the open bar. */
  datatype Update = Update(state: SymbolState, finalized: seq<Bar>, issues: seq<Issue>, backward: bool)

  function ApplyTrade(g: Setting, s: SymbolState, t: Trade): Update
    requires g.Valid()
  {
    var start := BarStart(t.at, g.intervalSeconds);
    if s.bar.None? then Update(s.(bar := Some(FromTrade(g, t))), [], [], false)
    else if start == s.bar.value.start then Update(s.(bar := Some(AddTrade(s.bar.value, t))), [], [], false)
    else if start < s.bar.value.start then Update(s, [], [], true)
    else Update(s.(bar := Some(FromTrade(g, t)), closedThrough := Some(s.bar.value.end)), [Closed(s.bar.value, t.receivedAt)], [], false)
  }

  function VolumeIssue(s: SymbolState, t: Trade): seq<Issue> {
    if s.cumulative.None? then []
    else if t.cumulative < s.cumulative.value then [VolumeRegression]
    else if t.cumulative == s.cumulative.value then [VolumeDuplicate]
    else if t.cumulative != s.cumulative.value + t.quantity then [VolumeGap]
    else []
  }

  function OnTrade(g: Setting, s: SymbolState, t: Trade): Update
    requires g.Valid()
  {
    var issues := VolumeIssue(s, t);
    if s.lastTradeTime.Some? && t.at < s.lastTradeTime.value then Update(s, [], [TradeTimeRegression], false)
    else if s.closedThrough.Some? && BarStart(t.at, g.intervalSeconds) + g.Interval() <= s.closedThrough.value
    then Update(s, [], issues + [LateTrade], false)
    else if issues != [] then Update(s, [], issues, false)
    else
      var u := ApplyTrade(g, s, t);
      u.(state := u.state.(latestTrade := Some(t), lastTradeTime := Some(t.at), cumulative := Some(t.cumulative)))
  }

  function OnEvent(g: Setting, s: SymbolState, e: MarketEvent): Update
    requires g.Valid()
  {
    match e
    case QuoteEvent(_, at, quote) =>
      if s.lastQuoteTime.Some? && at < s.lastQuoteTime.value then Update(s, [], [QuoteTimeRegression], false)
      else Update(s.(latestQuote := Some(quote), lastQuoteTime := Some(at)), [], [], false)
    case StatusEvent(_, at) =>
      if s.lastTradeTime.Some? && at < s.lastTradeTime.value then Update(s, [], [TradeTimeRegression], false)
      else Update(s.(lastTradeTime := Some(at)), [], [], false)
    case TradeEvent(t) => OnTrade(g, s, t)
  }

  function OnClock(g: Setting, s: SymbolState, at: Instant, availableAt: Instant): Update
    requires g.Valid()
  {
    var boundary := BarStart(at, g.intervalSeconds);
    var closing := s.bar.Some? && s.bar.value.end <= at;
    Update(s.(bar := if closing then None else s.bar,
              closedThrough := if s.closedThrough.None? || boundary > s.closedThrough.value then Some(boundary) else s.closedThrough),
           if closing then [Closed(s.bar.value, availableAt)] else [], [], false)
  }

  // ----- One symbol over one stream segment -----

  datatype Input = Observe(event: MarketEvent) | Advance(at: Instant, availableAt: Instant)
  {
    predicate Valid() { if Observe? then event.Valid() else at >= 0 }
  }

  function React(g: Setting, s: SymbolState, i: Input): Update
    requires g.Valid()
  {
    match i
    case Observe(e) => OnEvent(g, s, e)
    case Advance(at, availableAt) => OnClock(g, s, at, availableAt)
  }

  datatype Segment = Segment(state: SymbolState, finalized: seq<Bar>, backward: bool)

  function Play(g: Setting, inputs: seq<Input>): Segment
    requires g.Valid()
  {
    if inputs == [] then Segment(FRESH, [], false)
    else
      var before := Play(g, inputs[..|inputs| - 1]);
      var u := React(g, before.state, inputs[|inputs| - 1]);
      Segment(u.state, before.finalized + u.finalized, before.backward || u.backward)
  }

  /** The volume traded before the first trade that a segment applied. */
  function Baseline(g: Setting, inputs: seq<Input>): Option<int>
    requires g.Valid()
  {
    if inputs == [] then None
    else
      var front, last := inputs[..|inputs| - 1], inputs[|inputs| - 1];
      var earlier := Baseline(g, front);
      if earlier.Some? then earlier
      else if last.Observe? && last.event.TradeEvent? && Play(g, inputs).state.cumulative.Some?
      then Some(last.event.trade.cumulative - last.event.trade.quantity) else None
  }

  function TotalVolume(bars: seq<Bar>): nat {
    if bars == [] then 0 else TotalVolume(bars[..|bars| - 1]) + bars[|bars| - 1].volume
  }

  function OpenVolume(s: SymbolState): nat { if s.bar.Some? then s.bar.value.volume else 0 }

  // ----- The invariant -----

  predicate OnGrid(g: Setting, at: Instant)
    requires g.Valid()
  {
    BarStart(at, g.intervalSeconds) == at && at >= 0
  }

  ghost predicate BarFine(g: Setting, b: Bar)
    requires g.Valid()
  {
    && OnGrid(g, b.start) && b.end == b.start + g.Interval()
    && b.volume >= 1 && b.trades >= 1 && b.bought + b.sold <= b.volume
    && 0.0 < b.low <= b.openPrice <= b.high && b.low <= b.closePrice <= b.high
    && Worth(b.low, b.volume) <= b.value <= Worth(b.high, b.volume)
  }

  /** Aligned, disjoint and strictly increasing. */
  ghost predicate BarsFine(g: Setting, bars: seq<Bar>, closedThrough: Option<Instant>)
    requires g.Valid()
  {
    && (forall i :: 0 <= i < |bars| ==> BarFine(g, bars[i]) && closedThrough.Some? && bars[i].end <= closedThrough.value)
    && (forall i, j :: 0 <= i < j < |bars| ==> bars[i].end <= bars[j].start)
  }

  ghost predicate StateFine(g: Setting, s: SymbolState)
    requires g.Valid()
  {
    && (s.closedThrough.Some? ==> OnGrid(g, s.closedThrough.value))
    && (s.bar.Some? ==>
          && BarFine(g, s.bar.value) && s.lastTradeTime.Some? && s.bar.value.start <= BarStart(s.lastTradeTime.value, g.intervalSeconds)
          && (s.closedThrough.Some? ==> s.closedThrough.value <= s.bar.value.start))
  }

  lemma GridSteps(g: Setting, a: Instant, b: Instant)
    requires g.Valid() && OnGrid(g, a) && OnGrid(g, b) && a < b
    ensures a + g.Interval() <= b
  {
    var n := g.intervalSeconds;
    var x, y := a / SECOND, b / SECOND;
    assert a == (x - x % n) * SECOND && b == (y - y % n) * SECOND;
    assert x % n == 0 && y % n == 0;
    assert x == x / n * n && y == y / n * n;
    Multiples(x / n, y / n, n);
  }

  lemma Multiples(p: int, q: int, n: nat)
    requires n >= 1 && p * n < q * n
    ensures p * n + n <= q * n
  {
    var d := q - p;
    assert d * n == q * n - p * n;
    assert d <= 0 ==> d * n <= 0;
    assert d >= 1 ==> d * n >= n;
  }

  lemma StartFacts(g: Setting, at: Instant)
    requires g.Valid() && at >= 0
    ensures var s := BarStart(at, g.intervalSeconds); OnGrid(g, s) && s <= at < s + g.Interval()
  {
    var n := g.intervalSeconds;
    var epoch := at / SECOND;
    var r := epoch % n;
    var e := epoch - r;
    assert (e * SECOND) / SECOND == e;
    assert e == epoch / n * n;
    MultipleRemainder(epoch / n, n);
    assert e <= epoch < e + n;
    assert epoch * SECOND <= at < (epoch + 1) * SECOND;
    assert (e + n) * SECOND == e * SECOND + n * SECOND;
    assert (epoch + 1) * SECOND <= (e + n) * SECOND;
  }

  lemma MultipleRemainder(k: int, n: nat)
    requires n >= 1
    ensures (k * n) % n == 0
  {
    var m := k * n;
    var d := k - m / n;
    assert m == m / n * n + m % n;
    assert d * n == m % n;
    assert d >= 1 ==> d * n >= n;
    assert d <= -1 ==> d * n <= 0 - n;
  }

  lemma StartMonotone(g: Setting, a: Instant, b: Instant)
    requires g.Valid() && 0 <= a <= b
    ensures BarStart(a, g.intervalSeconds) <= BarStart(b, g.intervalSeconds)
  {
    StartFacts(g, a);
    StartFacts(g, b);
    var x, y := BarStart(a, g.intervalSeconds), BarStart(b, g.intervalSeconds);
    if y < x { GridSteps(g, y, x); }
  }

  // ----- Every reaction -----

  lemma WorthBounds(b: Bar, t: Trade)
    requires Worth(b.low, b.volume) <= b.value <= Worth(b.high, b.volume)
    ensures var n := AddTrade(b, t); Worth(n.low, n.volume) <= n.value <= Worth(n.high, n.volume)
  {
    var n := AddTrade(b, t);
    WorthMonotone(n.low, b.low, b.volume);
    WorthMonotone(n.low, t.price, t.quantity);
    WorthMonotone(b.high, n.high, b.volume);
    WorthMonotone(t.price, n.high, t.quantity);
    WorthSum(n.low, b.volume, t.quantity);
    WorthSum(n.high, b.volume, t.quantity);
  }

  lemma WorthMonotone(a: real, b: real, n: nat)
    requires a <= b
    ensures Worth(a, n) <= Worth(b, n)
  {
    assert (b - a) * n as real >= 0.0;
  }

  lemma WorthSum(price: real, a: nat, b: nat)
    ensures Worth(price, a + b) == Worth(price, a) + Worth(price, b)
  {}

  lemma NewBarFine(g: Setting, t: Trade)
    requires g.Valid() && t.Valid()
    ensures BarFine(g, FromTrade(g, t))
  {
    StartFacts(g, t.at);
  }

  lemma AddedBarFine(g: Setting, b: Bar, t: Trade)
    requires g.Valid() && t.Valid() && BarFine(g, b)
    ensures BarFine(g, AddTrade(b, t))
  {
    hide Worth;
    WorthBounds(b, t);
  }

  lemma ClosedBarFine(g: Setting, b: Bar, at: Instant)
    requires g.Valid() && BarFine(g, b)
    ensures BarFine(g, Closed(b, at))
  {}

  /** What one reaction does: the state stays tidy, at most one bar is finalized, between the old and
      the new closing boundary, and the backward branch is not taken. */
  ghost predicate Reacted(g: Setting, s: SymbolState, u: Update)
    requires g.Valid()
  {
    && !u.backward && StateFine(g, u.state) && |u.finalized| <= 1
    && (s.closedThrough.Some? ==> u.state.closedThrough.Some? && s.closedThrough.value <= u.state.closedThrough.value)
    && (u.finalized != [] ==>
          && BarFine(g, u.finalized[0]) && u.state.closedThrough.Some? && u.finalized[0].end <= u.state.closedThrough.value
          && (s.closedThrough.Some? ==> s.closedThrough.value <= u.finalized[0].start))
  }

  lemma TradeReacts(g: Setting, s: SymbolState, t: Trade)
    requires g.Valid() && StateFine(g, s) && t.Valid() && (s.lastTradeTime.Some? ==> s.lastTradeTime.value >= 0)
    ensures Reacted(g, s, OnTrade(g, s, t))
  {
    hide BarStart, Worth, BarFine;
    var u := OnTrade(g, s, t);
    StartFacts(g, t.at);
    NewBarFine(g, t);
    var start := BarStart(t.at, g.intervalSeconds);
    if s.closedThrough.Some? && start < s.closedThrough.value { GridSteps(g, start, s.closedThrough.value); }
    if s.bar.Some? {
      assert OnGrid(g, s.bar.value.start) && s.bar.value.end == s.bar.value.start + g.Interval() by { BarGrid(g, s.bar.value); }
      if s.lastTradeTime.value <= t.at { StartMonotone(g, s.lastTradeTime.value, t.at); }
      AddedBarFine(g, s.bar.value, t);
      ClosedBarFine(g, s.bar.value, t.receivedAt);
      EndOnGrid(g, s.bar.value.start);
      if s.bar.value.start < start { GridSteps(g, s.bar.value.start, start); }
    }
  }

  lemma BarGrid(g: Setting, b: Bar)
    requires g.Valid() && BarFine(g, b)
    ensures OnGrid(g, b.start) && b.end == b.start + g.Interval() && b.volume >= 1
  {}

  lemma EndOnGrid(g: Setting, start: Instant)
    requires g.Valid() && OnGrid(g, start)
    ensures OnGrid(g, start + g.Interval())
  {
    var n := g.intervalSeconds;
    var x := start / SECOND;
    assert start == (x - x % n) * SECOND;
    assert start + g.Interval() == (x - x % n + n) * SECOND;
    assert (start + g.Interval()) / SECOND == x - x % n + n;
    assert x - x % n + n == (x / n + 1) * n;
    MultipleRemainder(x / n + 1, n);
  }

  lemma ClockReacts(g: Setting, s: SymbolState, at: Instant, availableAt: Instant)
    requires g.Valid() && StateFine(g, s) && at >= 0
    ensures Reacted(g, s, OnClock(g, s, at, availableAt))
  {
    hide BarStart, Worth, BarFine;
    StartFacts(g, at);
    var boundary := BarStart(at, g.intervalSeconds);
    if s.bar.Some? {
      BarGrid(g, s.bar.value);
      EndOnGrid(g, s.bar.value.start);
      ClosedBarFine(g, s.bar.value, availableAt);
      if boundary < s.bar.value.end { GridSteps(g, boundary, s.bar.value.end); }
    }
  }

  ghost predicate TimesNatural(s: SymbolState) {
    s.lastTradeTime.Some? ==> s.lastTradeTime.value >= 0
  }

  lemma Reacts(g: Setting, s: SymbolState, i: Input)
    requires g.Valid() && StateFine(g, s) && TimesNatural(s) && i.Valid()
    ensures Reacted(g, s, React(g, s, i)) && TimesNatural(React(g, s, i).state)
  {
    hide BarFine, Worth, BarStart;
    match i
    case Advance(at, availableAt) => ClockReacts(g, s, at, availableAt);
    case Observe(e) =>
      match e
      case TradeEvent(t) => TradeReacts(g, s, t);
      case QuoteEvent(_, _, _) =>
      case StatusEvent(_, at) => if s.lastTradeTime.None? || s.lastTradeTime.value <= at { StatusReacts(g, s, at); }
  }

  lemma StatusReacts(g: Setting, s: SymbolState, at: Instant)
    requires g.Valid() && StateFine(g, s) && TimesNatural(s) && at >= 0 && (s.lastTradeTime.Some? ==> s.lastTradeTime.value <= at)
    ensures StateFine(g, s.(lastTradeTime := Some(at)))
  {
    hide BarFine, BarStart;
    if s.lastTradeTime.Some? { StartMonotone(g, s.lastTradeTime.value, at); }
  }

  /** A reaction moves shares between the cumulative counter and the bars without loss. */
  lemma VolumeMoves(g: Setting, s: SymbolState, i: Input)
    requires g.Valid() && i.Valid() && !React(g, s, i).backward && (s.cumulative.None? ==> s.bar.None?)
    ensures var u := React(g, s, i);
            && (u.state.cumulative.None? ==> s.cumulative.None? && u.state.bar.None? && u.finalized == [])
            && (s.cumulative.Some? && u.state.cumulative.Some? ==>
                  TotalVolume(u.finalized) + OpenVolume(u.state) - OpenVolume(s) == u.state.cumulative.value - s.cumulative.value)
            && (s.cumulative.None? && u.state.cumulative.Some? ==>
                  && i.Observe? && i.event.TradeEvent? && u.finalized == []
                  && u.state.cumulative.value == i.event.trade.cumulative && OpenVolume(u.state) == i.event.trade.quantity)
  {
    hide BarStart, Worth;
    var u := React(g, s, i);
    if |u.finalized| == 1 { assert u.finalized[..0] == []; }
  }

  lemma {:induction false} TotalMore(a: seq<Bar>, b: seq<Bar>)
    ensures TotalVolume(a + b) == TotalVolume(a) + TotalVolume(b)
  {
    if b == [] {
      assert a + b == a;
    } else {
      TotalMore(a, b[..|b| - 1]);
      assert (a + b)[..|a + b| - 1] == a + b[..|b| - 1];
    }
  }

  lemma BarsGrow(g: Setting, bars: seq<Bar>, s: SymbolState, u: Update)
    requires g.Valid() && BarsFine(g, bars, s.closedThrough) && Reacted(g, s, u)
    ensures BarsFine(g, bars + u.finalized, u.state.closedThrough)
  {
    hide BarFine, StateFine;
    var all := bars + u.finalized;
    forall i | 0 <= i < |all| ensures BarFine(g, all[i]) && u.state.closedThrough.Some? && all[i].end <= u.state.closedThrough.value {
      if i < |bars| { assert all[i] == bars[i]; } else { assert all[i] == u.finalized[0]; }
    }
    forall i, j | 0 <= i < j < |all| ensures all[i].end <= all[j].start {
      assert all[i] == bars[i];
      if j < |bars| { assert all[j] == bars[j]; } else { assert all[j] == u.finalized[0]; }
    }
  }

  /** Over one stream segment of one symbol, whatever arrives: finalized bars are aligned, disjoint and
      strictly increasing, the backward branch is never taken, and finalized plus open volume is the
      latest cumulative volume less what was traded before the first applied trade. */
  lemma {:induction false} VolumeIsConserved(g: Setting, inputs: seq<Input>)
    requires g.Valid() && forall i :: 0 <= i < |inputs| ==> inputs[i].Valid()
    ensures var p := Play(g, inputs);
            && !p.backward && StateFine(g, p.state) && TimesNatural(p.state) && BarsFine(g, p.finalized, p.state.closedThrough)
            && (p.state.cumulative.Some? <==> Baseline(g, inputs).Some?)
            && (p.state.cumulative.None? ==> p.state.bar.None? && p.finalized == [])
            && (p.state.cumulative.Some? ==>
                  TotalVolume(p.finalized) + OpenVolume(p.state) == p.state.cumulative.value - Baseline(g, inputs).value)
  {
    hide StateFine, BarsFine, React, Reacted;
    if inputs == [] {
      FreshFine(g);
    } else {
      var front, last := inputs[..|inputs| - 1], inputs[|inputs| - 1];
      VolumeIsConserved(g, front);
      var before := Play(g, front);
      var u := React(g, before.state, last);
      Reacts(g, before.state, last);
      assert !u.backward && StateFine(g, u.state) by { ReactedParts(g, before.state, u); }
      VolumeMoves(g, before.state, last);
      BarsGrow(g, before.finalized, before.state, u);
      TotalMore(before.finalized, u.finalized);
    }
  }

  lemma ReactedParts(g: Setting, s: SymbolState, u: Update)
    requires g.Valid() && Reacted(g, s, u)
    ensures !u.backward && StateFine(g, u.state)
    ensures s.closedThrough.Some? ==> u.state.closedThrough.Some? && s.closedThrough.value <= u.state.closedThrough.value
  {}

  lemma FreshFine(g: Setting)
    requires g.Valid()
    ensures StateFine(g, FRESH) && BarsFine(g, [], None)
  {}

  /** The closing boundary never moves back, and finalized bars are never revised. */
  lemma {:induction false} ClosedThroughGrows(g: Setting, inputs: seq<Input>, k: nat)
    requires g.Valid() && k <= |inputs| && forall i :: 0 <= i < |inputs| ==> inputs[i].Valid()
    ensures var a, b := Play(g, inputs[..k]), Play(g, inputs);
            && (a.state.closedThrough.Some? ==> b.state.closedThrough.Some? && a.state.closedThrough.value <= b.state.closedThrough.value)
            && |a.finalized| <= |b.finalized| && b.finalized[..|a.finalized|] == a.finalized
  {
    hide React, StateFine, Reacted, BarsFine;
    if k == |inputs| {
      assert inputs[..k] == inputs;
    } else {
      var front := inputs[..|inputs| - 1];
      assert front[..k] == inputs[..k];
      ClosedThroughGrows(g, front, k);
      VolumeIsConserved(g, front);
      var before := Play(g, front).state;
      Reacts(g, before, inputs[|inputs| - 1]);
      ReactedParts(g, before, React(g, before, inputs[|inputs| - 1]));
    }
  }

  // ----- The state object -----

  function SequenceIssues(last: map<Ident, nat>, received: map<Ident, Instant>, e: Envelope): seq<Issue> {
    (if e.stream !in last then (if e.sequence != 1 then [SequenceGap] else [])
     else if e.sequence <= last[e.stream] then [SequenceRegression]
     else if e.sequence != last[e.stream] + 1 then [SequenceGap] else [])
    + if e.stream in received && e.receivedAt < received[e.stream] then [ReceiptRegression] else []
  }

  predicate Refuses(i: Issue) {
    i.LateTrade? || i.QuoteTimeRegression? || i.TradeTimeRegression? || i.VolumeDuplicate? || i.VolumeGap? || i.VolumeRegression?
  }

  datatype ApplyError = OutsideInterval | UnknownSymbol | AvailableTooEarly

  datatype Reply = Reply(event: Option<MarketEvent>, finalized: seq<Bar>, issues: seq<Issue>)

  class MarketState {
    const setting: Setting
    var symbols: map<Ident, SymbolState>
    var active: Option<Ident>
    var lastSequence: map<Ident, nat>
    var lastReceived: map<Ident, Instant>
    var issues: set<Issue>
    /** What each symbol has seen since the stream last changed. */
    ghost var seen: map<Ident, seq<Input>>

    /** Every symbol is where its own segment leads. */
    ghost predicate Valid()
      reads this
    {
      && setting.Valid() && symbols.Keys == setting.symbols == seen.Keys
      && (forall s :: s in seen ==> (forall i :: 0 <= i < |seen[s]| ==> seen[s][i].Valid()) && symbols[s] == Play(setting, seen[s]).state)
    }

    constructor (setting: Setting)
      requires setting.Valid()
      ensures Valid() && this.setting == setting
    {
      this.setting := setting;
      symbols := map s | s in setting.symbols :: FRESH;
      active, lastSequence, lastReceived, issues := None, map[], map[], {};
      seen := map s | s in setting.symbols :: [];
    }

    method Note(found: seq<Issue>)
      modifies this`issues
      ensures issues == old(issues) + Elements(found)
    {
      issues := issues + set i | i in found;
    }

    method CheckSequence(e: Envelope) returns (found: seq<Issue>)
      modifies this`lastSequence, this`lastReceived, this`issues
      ensures found == SequenceIssues(old(lastSequence), old(lastReceived), e)
      ensures lastSequence == if SequenceRegression in found then old(lastSequence) else old(lastSequence)[e.stream := e.sequence]
      ensures lastReceived == if SequenceRegression in found || ReceiptRegression in found then old(lastReceived)
                              else old(lastReceived)[e.stream := e.receivedAt]
      ensures issues == old(issues) + Elements(found)
    {
      found := SequenceIssues(lastSequence, lastReceived, e);
      if SequenceRegression !in found {
        lastSequence := lastSequence[e.stream := e.sequence];
        if e.stream !in lastReceived || e.receivedAt >= lastReceived[e.stream] {
          lastReceived := lastReceived[e.stream := e.receivedAt];
        }
      }
      Note(found);
    }

    /** Feed one event to its symbol. */
    method Deliver(event: MarketEvent) returns (r: Result<Update, ApplyError>)
      requires Valid() && event.Valid()
      modifies this`symbols, this`seen
      ensures Valid()
      ensures if !setting.Contains(event.Time()) then symbols == old(symbols) && r == Err(OutsideInterval)
              else if event.Symbol() !in old(symbols) then symbols == old(symbols) && r == Err(UnknownSymbol)
              else
                var u := OnEvent(setting, old(symbols)[event.Symbol()], event);
                symbols == old(symbols)[event.Symbol() := u.state] && r == Ok(u)
    {
      hide OnEvent, Play;
      if !setting.Contains(event.Time()) {
        return Err(OutsideInterval);
      }
      var symbol := event.Symbol();
      if symbol !in symbols {
        return Err(UnknownSymbol);
      }
      var u := OnEvent(setting, symbols[symbol], event);
      PlayMore(setting, seen[symbol], Observe(event));
      symbols := symbols[symbol := u.state];
      seen := seen[symbol := seen[symbol] + [Observe(event)]];
      r := Ok(u);
    }

    /** A new stream has an unknown past: no market state is carried over. */
    method Switch(stream: Ident)
      requires Valid()
      modifies this`symbols, this`seen, this`active
      ensures Valid() && active == Some(stream)
      ensures symbols == AfterSwitch(setting, old(active), stream, old(symbols))
    {
      if active.Some? && stream != active.value {
        symbols := map s | s in setting.symbols :: FRESH;
        seen := map s | s in setting.symbols :: [];
      }
      active := Some(stream);
    }

    method Apply(e: Envelope) returns (r: Result<Reply, ApplyError>)
      requires Valid() && (e.event.Some? ==> e.event.value.Valid())
      modifies this
      ensures Valid() && active == Some(e.stream)
      ensures var found := SequenceIssues(old(lastSequence), old(lastReceived), e);
              && lastSequence == (if SequenceRegression in found then old(lastSequence) else old(lastSequence)[e.stream := e.sequence])
              && lastReceived == (if SequenceRegression in found || ReceiptRegression in found then old(lastReceived)
                                  else old(lastReceived)[e.stream := e.receivedAt])
              && issues == old(issues) + Elements(if r.Ok? then r.value.issues else found)
      ensures var start := AfterSwitch(setting, old(active), e.stream, old(symbols));
              var found := SequenceIssues(old(lastSequence), old(lastReceived), e);
              if SequenceRegression in found || ReceiptRegression in found || e.indices || e.event.None?
              then symbols == start && r == Ok(Reply(None, [], found))
              else
                var event := e.event.value;
                if !setting.Contains(event.Time()) then symbols == start && r == Err(OutsideInterval)
                else if event.Symbol() !in start then symbols == start && r == Err(UnknownSymbol)
                else
                  var u := OnEvent(setting, start[event.Symbol()], event);
                  && symbols == start[event.Symbol() := u.state]
                  && r == Ok(Reply(if Applies(found + u.issues) then Some(event) else None, u.finalized, found + u.issues))
    {
      hide OnEvent, SequenceIssues, Play, AfterSwitch, Applies, Elements;
      ghost var was := issues;
      Switch(e.stream);
      var found := CheckSequence(e);
      if SequenceRegression in found || ReceiptRegression in found || e.indices || e.event.None? {
        return Ok(Reply(None, [], found));
      }
      var u := Deliver(e.event.value);
      if u.Err? {
        return Err(u.error);
      }
      var all := found + u.value.issues;
      NotedAgain(issues, was, found, u.value.issues);
      Note(all);
      r := Ok(Reply(if Applies(all) then e.event else None, u.value.finalized, all));
    }

    method AdvanceOne(s: Ident, at: Instant, availableAt: Instant) returns (finalized: seq<Bar>)
      requires Valid() && s in symbols && 0 <= at <= availableAt
      modifies this`symbols, this`seen
      ensures Valid()
      ensures var u := OnClock(setting, old(symbols)[s], at, availableAt); symbols == old(symbols)[s := u.state] && finalized == u.finalized
    {
      hide Play, OnClock;
      var u := OnClock(setting, symbols[s], at, availableAt);
      PlayMore(setting, seen[s], Advance(at, availableAt));
      symbols := symbols[s := u.state];
      seen := seen[s := seen[s] + [Advance(at, availableAt)]];
      finalized := u.finalized;
    }

    /** Close what a live or virtual clock has left behind, symbol by symbol. */
    method AdvanceTo(at: Instant, availableAt: Instant) returns (r: Result<seq<Bar>, ApplyError>)
      requires Valid() && setting.Valid() && at >= 0
      modifies this`symbols, this`seen
      ensures Valid()
      ensures availableAt < at ==> r == Err(AvailableTooEarly) && symbols == old(symbols)
      ensures availableAt >= at ==>
                && symbols == (map s | s in old(symbols) :: OnClock(setting, old(symbols)[s], at, availableAt).state)
                && r.Ok? && (forall b :: b in r.value <==> ClosesBar(setting, old(symbols), old(symbols).Keys, at, availableAt, b))
                && NonDecreasing((a: Bar, b: Bar) => Listed(a, b), r.value)
                && |r.value| == |Closing(setting, old(symbols), old(symbols).Keys, at, availableAt)|
    {
      hide Play, OnClock, ClosesBar, Valid, Listed, Sort, Closing;
      if availableAt < at {
        return Err(AvailableTooEarly);
      }
      var finalized := [];
      ClosesNone(setting, symbols, at, availableAt);
      var left := symbols.Keys;
      ghost var start := symbols;
      assert start.Keys - left == {};
      while left != {}
        invariant left <= start.Keys && symbols.Keys == start.Keys && Valid()
        invariant forall s :: s in left ==> symbols[s] == start[s]
        invariant forall s :: s in start && s !in left ==> symbols[s] == OnClock(setting, start[s], at, availableAt).state
        invariant forall b :: b in finalized <==> ClosesBar(setting, start, start.Keys - left, at, availableAt, b)
        invariant |finalized| == |Closing(setting, start, start.Keys - left, at, availableAt)|
        decreases left
      {
        var s :| s in left;
        assert start.Keys - (left - {s}) == (start.Keys - left) + {s};
        ClosesMore(setting, start, start.Keys - left, at, availableAt, s);
        var bars := AdvanceOne(s, at, availableAt);
        finalized := finalized + bars;
        left := left - {s};
      }
      assert start.Keys - left == start.Keys;
      ListedIsOrder();
      SortWithTies((a: Bar, b: Bar) => Listed(a, b), finalized);
      assert |multiset(Sort((a: Bar, b: Bar) => Listed(a, b), finalized))| == |multiset(finalized)|;
      r := Ok(Sort((a: Bar, b: Bar) => Listed(a, b), finalized));
    }
  }

  lemma NotedAgain(now: set<Issue>, was: set<Issue>, found: seq<Issue>, more: seq<Issue>)
    requires now == was + Elements(found)
    ensures now + Elements(found + more) == was + Elements(found + more)
  {}

  /** Bars are reported by end, then by symbol. */
  predicate Listed(a: Bar, b: Bar) { a.end < b.end || (a.end == b.end && a.symbol < b.symbol) }

  lemma ListedIsOrder()
    ensures WeakOrder((a: Bar, b: Bar) => Listed(a, b))
  {}

  function AfterSwitch(g: Setting, active: Option<Ident>, stream: Ident, symbols: map<Ident, SymbolState>): map<Ident, SymbolState> {
    if active.Some? && stream != active.value then map s | s in g.symbols :: FRESH else symbols
  }

  predicate Applies(issues: seq<Issue>) {
    forall i :: 0 <= i < |issues| ==> !Refuses(issues[i])
  }

  /** The bar comes from closing one of these symbols. */
  ghost predicate ClosesBar(g: Setting, symbols: map<Ident, SymbolState>, among: set<Ident>, at: Instant, availableAt: Instant, b: Bar)
    requires g.Valid()
  {
    exists s :: s in among && s in symbols && b in OnClock(g, symbols[s], at, availableAt).finalized
  }

  /** The symbols whose open bar the clock closes. */
  ghost function Closing(g: Setting, symbols: map<Ident, SymbolState>, among: set<Ident>, at: Instant, availableAt: Instant): set<Ident>
    requires g.Valid()
  {
    set s | s in among && s in symbols && OnClock(g, symbols[s], at, availableAt).finalized != []
  }

  lemma ClosesNone(g: Setting, symbols: map<Ident, SymbolState>, at: Instant, availableAt: Instant)
    requires g.Valid()
    ensures forall b :: !ClosesBar(g, symbols, {}, at, availableAt, b)
    ensures Closing(g, symbols, {}, at, availableAt) == {}
  {}

  lemma ClosesMore(g: Setting, symbols: map<Ident, SymbolState>, among: set<Ident>, at: Instant, availableAt: Instant, s: Ident)
    requires g.Valid() && s in symbols && s !in among
    ensures |Closing(g, symbols, among + {s}, at, availableAt)|
            == |Closing(g, symbols, among, at, availableAt)| + |OnClock(g, symbols[s], at, availableAt).finalized|
    ensures forall b :: ClosesBar(g, symbols, among + {s}, at, availableAt, b)
                        <==> ClosesBar(g, symbols, among, at, availableAt, b) || b in OnClock(g, symbols[s], at, availableAt).finalized
  {
    var one := OnClock(g, symbols[s], at, availableAt).finalized;
    assert |one| <= 1;
    hide OnClock;
    assert Closing(g, symbols, among + {s}, at, availableAt) == Closing(g, symbols, among, at, availableAt) + if one != [] then {s} else {};
    forall b ensures ClosesBar(g, symbols, among + {s}, at, availableAt, b)
                     <==> ClosesBar(g, symbols, among, at, availableAt, b) || b in OnClock(g, symbols[s], at, availableAt).finalized {
      if ClosesBar(g, symbols, among, at, availableAt, b) {
        var x :| x in among && x in symbols && b in OnClock(g, symbols[x], at, availableAt).finalized;
        assert x in among + {s};
      }
      if b in OnClock(g, symbols[s], at, availableAt).finalized { assert s in among + {s}; }
    }
  }

  lemma PlayMore(g: Setting, inputs: seq<Input>, i: Input)
    requires g.Valid()
    ensures Play(g, inputs + [i]).state == React(g, Play(g, inputs).state, i).state
  {
    assert (inputs + [i])[..|inputs|] == inputs;
  }
}
