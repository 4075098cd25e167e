/** Bars, which the state builds trade by trade, are the summaries of the applied trades of their intervals. */
module BarSummaries {
  import opened Prelude
  import opened MarketBars

  // ----- The reference: what a bar should say of a list of trades -----

  function Quantity(ts: seq<Trade>): nat { if ts == [] then 0 else Quantity(ts[..|ts| - 1]) + ts[|ts| - 1].quantity }

  function Money(ts: seq<Trade>): real {
    if ts == [] then 0.0 else Money(ts[..|ts| - 1]) + ts[|ts| - 1].price * ts[|ts| - 1].quantity as real
  }

  function OnSide(ts: seq<Trade>, side: Side): nat {
    if ts == [] then 0 else OnSide(ts[..|ts| - 1], side) + if ts[|ts| - 1].side == side then ts[|ts| - 1].quantity else 0
  }

  ghost predicate HasPrice(ts: seq<Trade>, price: real) { exists i :: 0 <= i < |ts| && ts[i].price == price }

  /** First, last, highest and lowest price, and every sum. */
  ghost predicate Summarizes(b: Bar, ts: seq<Trade>) {
    && ts != [] && b.symbol == ts[0].symbol && b.openPrice == ts[0].price && b.closePrice == ts[|ts| - 1].price
    && HasPrice(ts, b.high) && HasPrice(ts, b.low) && (forall i :: 0 <= i < |ts| ==> b.low <= ts[i].price <= b.high)
    && b.volume == Quantity(ts) && b.value == Money(ts) && b.trades == |ts|
    && b.bought == OnSide(ts, BuySide) && b.sold == OnSide(ts, SellSide)
  }

  lemma SummaryOne(g: Setting, t: Trade)
    requires g.Valid()
    ensures Summarizes(FromTrade(g, t), [t])
  {
    hide BarStart;
    var ts := [t];
    assert ts[..0] == [] && ts[0].price == t.price;
    assert Money([]) == 0.0 && Quantity([]) == 0 && OnSide([], BuySide) == 0 && OnSide([], SellSide) == 0;
    assert Money(ts) == t.price * t.quantity as real;
  }

  lemma SummaryMore(b: Bar, ts: seq<Trade>, t: Trade)
    requires Summarizes(b, ts)
    ensures Summarizes(AddTrade(b, t), ts + [t])
  {
    hide Worth;
    var n, all := AddTrade(b, t), ts + [t];
    assert all[..|ts|] == ts && all[|ts|] == t && forall i :: 0 <= i < |ts| ==> all[i] == ts[i];
    assert Worth(t.price, t.quantity) == t.price * t.quantity as real by { WorthMeans(t); }
    var i :| 0 <= i < |ts| && ts[i].price == b.high;
    var j :| 0 <= j < |ts| && ts[j].price == b.low;
    assert all[i].price == b.high && all[j].price == b.low;
  }

  lemma WorthMeans(t: Trade)
    ensures Worth(t.price, t.quantity) == t.price * t.quantity as real
  {}

  // ----- Which trades -----

  /** The trades a segment applied, oldest first. */
  function AppliedTrades(g: Setting, inputs: seq<Input>): seq<Trade>
    requires g.Valid()
  {
    if inputs == [] then []
    else
      var front, last := inputs[..|inputs| - 1], inputs[|inputs| - 1];
      AppliedTrades(g, front)
      + if last.Observe? && last.event.TradeEvent? && Fits(g, Play(g, front).state, last.event.trade) then [last.event.trade] else []
  }

  /** A trade fits: not before the last record of its channel, not of an interval already closed, and its
      cumulative volume continues the last one by exactly its quantity. */
  predicate Fits(g: Setting, s: SymbolState, t: Trade)
    requires g.Valid()
  {
    && (s.lastTradeTime.Some? ==> s.lastTradeTime.value <= t.at)
    && (s.closedThrough.Some? ==> s.closedThrough.value < BarStart(t.at, g.intervalSeconds) + g.intervalSeconds * 1_000_000)
    && (s.cumulative.Some? ==> t.cumulative == s.cumulative.value + t.quantity)
  }

  /** A trade is applied exactly when it fits; otherwise it changes nothing and is reported. */
  lemma AppliedExactly(g: Setting, s: SymbolState, t: Trade)
    requires g.Valid() && t.Valid()
    ensures var u := OnTrade(g, s, t);
            if Fits(g, s, t) then u.issues == [] && u.state.latestTrade == Some(t) && u.state.lastTradeTime == Some(t.at) && u.state.cumulative == Some(t.cumulative)
            else u.issues != [] && u.state == s && u.finalized == []
  {
    hide BarStart, Worth;
  }

  function Within(ts: seq<Trade>, from: Instant, to: Instant): seq<Trade> {
    if ts == [] then []
    else Within(ts[..|ts| - 1], from, to) + if from <= ts[|ts| - 1].at < to then [ts[|ts| - 1]] else []
  }

  lemma WithinMore(ts: seq<Trade>, t: Trade, from: Instant, to: Instant)
    ensures Within(ts + [t], from, to) == Within(ts, from, to) + if from <= t.at < to then [t] else []
  {
    assert (ts + [t])[..|ts|] == ts;
  }

  lemma {:induction false} WithinNone(ts: seq<Trade>, from: Instant, to: Instant)
    requires forall i :: 0 <= i < |ts| ==> ts[i].at < from
    ensures Within(ts, from, to) == []
  {
    if ts != [] { WithinNone(ts[..|ts| - 1], from, to); }
  }

  // ----- The invariant -----

  predicate Covers(b: Bar, at: Instant) { b.start <= at < b.end }

  ghost predicate Summed(b: Bar, ts: seq<Trade>) { Summarizes(b, Within(ts, b.start, b.end)) }

  /** Every trade lies before the end of what is open, or of what is closed. */
  ghost predicate Behind(s: SymbolState, ts: seq<Trade>) {
    forall i :: 0 <= i < |ts| ==>
      if s.bar.Some? then ts[i].at < s.bar.value.end else s.closedThrough.Some? && ts[i].at < s.closedThrough.value
  }

  ghost predicate Placed(p: Segment, t: Trade) {
    || (exists i :: 0 <= i < |p.finalized| && Covers(p.finalized[i], t.at))
    || (p.state.bar.Some? && Covers(p.state.bar.value, t.at))
  }

  ghost predicate AllSummed(bars: seq<Bar>, ts: seq<Trade>) { forall i :: 0 <= i < |bars| ==> Summed(bars[i], ts) }

  lemma SummedClosed(b: Bar, ts: seq<Trade>, at: Instant)
    requires Summed(b, ts)
    ensures Summed(Closed(b, at), ts)
  {}

  /** An applied trade lies at or after the closing boundary, in its own interval. */
  lemma FitsAfter(g: Setting, s: SymbolState, t: Trade)
    requires g.Valid() && StateFine(g, s) && t.Valid() && Fits(g, s, t)
    ensures var start := BarStart(t.at, g.intervalSeconds);
            start <= t.at < start + g.Interval() && (s.closedThrough.Some? ==> s.closedThrough.value <= start)
  {
    hide BarStart, BarFine;
    StartFacts(g, t.at);
    var start := BarStart(t.at, g.intervalSeconds);
    if s.closedThrough.Some? && start < s.closedThrough.value { GridSteps(g, start, s.closedThrough.value); }
  }

  lemma FinalizedStay(g: Setting, bars: seq<Bar>, s: SymbolState, ts: seq<Trade>, t: Trade)
    requires g.Valid() && BarsFine(g, bars, s.closedThrough) && AllSummed(bars, ts) && (s.closedThrough.Some? ==> s.closedThrough.value <= t.at)
    ensures AllSummed(bars, ts + [t])
  {
    hide BarFine, Summarizes;
    forall i | 0 <= i < |bars| ensures Summed(bars[i], ts + [t]) {
      assert Summed(bars[i], ts);
      WithinMore(ts, t, bars[i].start, bars[i].end);
      assert Within(ts, bars[i].start, bars[i].end) + [] == Within(ts, bars[i].start, bars[i].end);
    }
  }

  /** What one applied trade does. */
  lemma TradeSums(g: Setting, s: SymbolState, ts: seq<Trade>, t: Trade)
    requires g.Valid() && StateFine(g, s) && TimesNatural(s) && t.Valid() && Fits(g, s, t)
    requires (s.bar.Some? ==> Summed(s.bar.value, ts)) && Behind(s, ts)
    ensures var u := OnTrade(g, s, t);
            && u.state.bar.Some? && Covers(u.state.bar.value, t.at) && Summed(u.state.bar.value, ts + [t])
            && Behind(u.state, ts + [t]) && AllSummed(u.finalized, ts + [t])
            && (s.bar.Some? ==> (u.finalized == [] && u.state.bar.value.start == s.bar.value.start && u.state.bar.value.end == s.bar.value.end)
                                || (|u.finalized| == 1 && u.finalized[0].start == s.bar.value.start && u.finalized[0].end == s.bar.value.end))
            && (s.bar.None? ==> u.finalized == [])
  {
    hide BarStart, Worth, Summarizes, Within;
    var u, start := OnTrade(g, s, t), BarStart(t.at, g.intervalSeconds);
    FitsAfter(g, s, t);
    AppliedExactly(g, s, t);
    SummaryOne(g, t);
    WithinMore(ts, t, start, start + g.Interval());
    TradeReacts(g, s, t);
    assert s.bar.None? ==> forall i :: 0 <= i < |ts| ==> ts[i].at < start;
    if s.bar.None? {
      WithinNone(ts, start, start + g.Interval());
      assert [] + [t] == [t];
    } else {
      var b := s.bar.value;
      assert b.end == b.start + g.Interval() by { BarGrid(g, b); }
      if start == b.start {
        SummaryMore(b, Within(ts, b.start, b.end), t);
      } else {
        assert b.start < start && b.end <= start by { LaterBar(g, s, t); }
        WithinNone(ts, start, start + g.Interval());
        assert [] + [t] == [t];
        WithinMore(ts, t, b.start, b.end);
        assert Within(ts, b.start, b.end) + [] == Within(ts, b.start, b.end);
        assert u.finalized == [Closed(b, t.receivedAt)];
        SummedClosed(b, ts + [t], t.receivedAt);
      }
    }
  }

  lemma LaterBar(g: Setting, s: SymbolState, t: Trade)
    requires g.Valid() && StateFine(g, s) && TimesNatural(s) && s.bar.Some? && t.Valid() && Fits(g, s, t)
    requires BarStart(t.at, g.intervalSeconds) != s.bar.value.start
    ensures s.bar.value.start < BarStart(t.at, g.intervalSeconds) && s.bar.value.end <= BarStart(t.at, g.intervalSeconds)
  {
    hide BarStart, BarFine;
    BarGrid(g, s.bar.value);
    StartFacts(g, t.at);
    StartMonotone(g, s.lastTradeTime.value, t.at);
    GridSteps(g, s.bar.value.start, BarStart(t.at, g.intervalSeconds));
  }

  /** Over one stream segment, whatever arrives: every finalized bar, and the open one, is the summary of the
      applied trades of its interval, and every applied trade is in one of them. */
  lemma {:induction false} BarsSummarizeTrades(g: Setting, inputs: seq<Input>)
    requires g.Valid() && forall i :: 0 <= i < |inputs| ==> inputs[i].Valid()
    ensures var p, ts := Play(g, inputs), AppliedTrades(g, inputs);
            && AllSummed(p.finalized, ts) && (p.state.bar.Some? ==> Summed(p.state.bar.value, ts))
            && Behind(p.state, ts) && (forall i :: 0 <= i < |ts| ==> Placed(p, ts[i]))
  {
    hide StateFine, BarsFine, React, Summed, Fits, Behind, Placed, AllSummed;
    if inputs == [] {
      NothingSummed();
    } else {
      var front, last := inputs[..|inputs| - 1], inputs[|inputs| - 1];
      BarsSummarizeTrades(g, front);
      VolumeIsConserved(g, front);
      StepSums(g, Play(g, front), AppliedTrades(g, front), last);
      assert Play(g, inputs) == After(Play(g, front), React(g, Play(g, front).state, last));
      assert AppliedTrades(g, inputs) == Next(g, Play(g, front).state, AppliedTrades(g, front), last) by {
        assert AppliedTrades(g, front) + [] == AppliedTrades(g, front);
      }
    }
  }

  lemma NothingSummed()
    ensures AllSummed([], []) && Behind(FRESH, [])
  {}

  function After(p: Segment, u: Update): Segment { Segment(u.state, p.finalized + u.finalized, p.backward || u.backward) }

  function Next(g: Setting, s: SymbolState, ts: seq<Trade>, i: Input): seq<Trade>
    requires g.Valid()
  {
    if i.Observe? && i.event.TradeEvent? && Fits(g, s, i.event.trade) then ts + [i.event.trade] else ts
  }

  lemma StepSums(g: Setting, p: Segment, ts: seq<Trade>, i: Input)
    requires g.Valid() && i.Valid() && StateFine(g, p.state) && TimesNatural(p.state) && BarsFine(g, p.finalized, p.state.closedThrough)
    requires AllSummed(p.finalized, ts) && (p.state.bar.Some? ==> Summed(p.state.bar.value, ts))
    requires Behind(p.state, ts) && (forall i :: 0 <= i < |ts| ==> Placed(p, ts[i]))
    ensures var n, more := After(p, React(g, p.state, i)), Next(g, p.state, ts, i);
            && AllSummed(n.finalized, more) && (n.state.bar.Some? ==> Summed(n.state.bar.value, more))
            && Behind(n.state, more) && (forall i :: 0 <= i < |more| ==> Placed(n, more[i]))
  {
    hide Summed, StateFine, BarsFine, Placed, OnTrade, OnClock, Fits, AllSummed, Behind;
    if i.Observe? && i.event.TradeEvent? {
      TradeStep(g, p, ts, i.event.trade);
    } else if i.Advance? {
      ClockStep(g, p, ts, i.at, i.availableAt);
    } else {
      var n := After(p, React(g, p.state, i));
      assert n.finalized == p.finalized && n.state.bar == p.state.bar && n.state.closedThrough == p.state.closedThrough;
      assert Next(g, p.state, ts, i) == ts;
      SameBehind(p.state, n.state, ts);
      forall k | 0 <= k < |ts| ensures Placed(After(p, React(g, p.state, i)), ts[k]) { SamePlace(p, After(p, React(g, p.state, i)), ts[k]); }
    }
  }

  lemma SameBehind(s: SymbolState, n: SymbolState, ts: seq<Trade>)
    requires Behind(s, ts) && n.bar == s.bar && n.closedThrough == s.closedThrough
    ensures Behind(n, ts)
  {}

  lemma SamePlace(p: Segment, n: Segment, t: Trade)
    requires Placed(p, t) && n.finalized == p.finalized && n.state.bar == p.state.bar
    ensures Placed(n, t)
  {}

  /** The finalized bars stay; what the open bar covered, a new one of the same interval covers. */
  lemma StillPlaced(p: Segment, n: Segment, t: Trade)
    requires Placed(p, t) && |p.finalized| <= |n.finalized| && n.finalized[..|p.finalized|] == p.finalized
    requires p.state.bar.Some? && Covers(p.state.bar.value, t.at) ==>
               || (n.state.bar.Some? && Covers(n.state.bar.value, t.at))
               || (|n.finalized| > |p.finalized| && Covers(n.finalized[|p.finalized|], t.at))
    ensures Placed(n, t)
  {
    if i :| 0 <= i < |p.finalized| && Covers(p.finalized[i], t.at) { assert n.finalized[i] == p.finalized[i]; }
  }

  lemma TradeStep(g: Setting, p: Segment, ts: seq<Trade>, t: Trade)
    requires g.Valid() && t.Valid() && StateFine(g, p.state) && TimesNatural(p.state) && BarsFine(g, p.finalized, p.state.closedThrough)
    requires AllSummed(p.finalized, ts) && (p.state.bar.Some? ==> Summed(p.state.bar.value, ts))
    requires Behind(p.state, ts) && (forall i :: 0 <= i < |ts| ==> Placed(p, ts[i]))
    ensures var n, more := After(p, OnTrade(g, p.state, t)), if Fits(g, p.state, t) then ts + [t] else ts;
            && AllSummed(n.finalized, more) && (n.state.bar.Some? ==> Summed(n.state.bar.value, more))
            && Behind(n.state, more) && (forall i :: 0 <= i < |more| ==> Placed(n, more[i]))
  {
    hide StateFine, BarsFine, OnTrade, Fits, Behind, Placed, Summed;
    AppliedExactly(g, p.state, t);
    var u := OnTrade(g, p.state, t);
    var n := After(p, u);
    if Fits(g, p.state, t) {
      TradeSums(g, p.state, ts, t);
      FitsAfter(g, p.state, t);
      FinalizedStay(g, p.finalized, p.state, ts, t);
      assert n.finalized[..|p.finalized|] == p.finalized;
      forall k | 0 <= k < |ts| + 1 ensures Placed(n, (ts + [t])[k]) {
        if k < |ts| { StillPlaced(p, n, ts[k]); } else { OpenPlaced(n, t); }
      }
      JoinSummed(p.finalized, u.finalized, ts + [t]);
    } else {
      assert p.finalized + [] == p.finalized;
      forall k | 0 <= k < |ts| ensures Placed(n, ts[k]) { SamePlace(p, n, ts[k]); }
    }
  }

  lemma OpenPlaced(n: Segment, t: Trade)
    requires n.state.bar.Some? && Covers(n.state.bar.value, t.at)
    ensures Placed(n, t)
  {}

  lemma JoinSummed(a: seq<Bar>, b: seq<Bar>, ts: seq<Trade>)
    requires AllSummed(a, ts) && AllSummed(b, ts)
    ensures AllSummed(a + b, ts)
  {
    hide Summed;
  }

  lemma ClockStep(g: Setting, p: Segment, ts: seq<Trade>, at: Instant, availableAt: Instant)
    requires g.Valid() && at >= 0 && StateFine(g, p.state) && AllSummed(p.finalized, ts) && (p.state.bar.Some? ==> Summed(p.state.bar.value, ts))
    requires Behind(p.state, ts) && (forall i :: 0 <= i < |ts| ==> Placed(p, ts[i]))
    ensures var n := After(p, OnClock(g, p.state, at, availableAt));
            && AllSummed(n.finalized, ts) && (n.state.bar.Some? ==> Summed(n.state.bar.value, ts))
            && Behind(n.state, ts) && (forall i :: 0 <= i < |ts| ==> Placed(n, ts[i]))
  {
    hide Placed, Summed, BarStart, BarFine;
    var u := OnClock(g, p.state, at, availableAt);
    var n := After(p, u);
    ClockReacts(g, p.state, at, availableAt);
    if u.finalized == [] {
      assert p.finalized + [] == p.finalized;
    } else {
      SummedClosed(p.state.bar.value, ts, availableAt);
    }
    JoinSummed(p.finalized, u.finalized, ts);
    assert n.finalized[..|p.finalized|] == p.finalized;
    forall k | 0 <= k < |ts| ensures Placed(n, ts[k]) { StillPlaced(p, n, ts[k]); }
  }
}
