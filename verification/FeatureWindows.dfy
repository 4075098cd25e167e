/** Bounded feature state of one symbol: what the pruned deques still answer correctly. */
module FeatureWindows {
  import opened Prelude

  datatype Tick = TradeTick(at: Instant, trade: Digest) | QuoteTick(at: Instant, quote: Digest, complete: bool)

  datatype Item = Item(at: Instant, value: Digest)

  /** Window lengths, in seconds, and the book flow between two quotes. */
  datatype Setting = Setting(windows: seq<nat>, flow: (Digest, Digest) -> Digest)
  {
    predicate Valid() {
      windows != [] && forall i :: 0 <= i < |windows| ==> 1 <= windows[i] <= windows[|windows| - 1]
    }

    function Longest(): int
      requires Valid()
    {
      windows[|windows| - 1] * SECOND
    }
  }

  // ----- The full history -----

  function TradesOf(history: seq<Tick>): seq<Item> {
    if history == [] then []
    else
      var front, last := TradesOf(history[..|history| - 1]), history[|history| - 1];
      if last.TradeTick? then front + [Item(last.at, last.trade)] else front
  }

  function LatestQuote(history: seq<Tick>): Option<Tick> {
    if history == [] then None
    else if history[|history| - 1].QuoteTick? then Some(history[|history| - 1])
    else LatestQuote(history[..|history| - 1])
  }

  /** The flow a quote adds to the one before it, when both are complete. */
  function FlowAfter(g: Setting, previous: Option<Tick>, tick: Tick): seq<Item> {
    if tick.QuoteTick? && tick.complete && previous.Some? && previous.value.QuoteTick? && previous.value.complete
    then [Item(tick.at, g.flow(previous.value.quote, tick.quote))] else []
  }

  function FlowsOf(g: Setting, history: seq<Tick>): seq<Item> {
    if history == [] then []
    else
      var front, last := history[..|history| - 1], history[|history| - 1];
      FlowsOf(g, front) + FlowAfter(g, LatestQuote(front), last)
  }

  /** What a window of `seconds` ending at `at` contains. */
  function Window(items: seq<Item>, at: Instant, seconds: nat): seq<Item> {
    if items == [] then []
    else
      var front, last := Window(items[..|items| - 1], at, seconds), items[|items| - 1];
      if at - seconds * SECOND < last.at <= at then front + [last] else front
  }

  /** A window is a filter: it keeps, in order, the items it would keep one by one. */
  lemma {:induction false} WindowFilters(a: seq<Item>, b: seq<Item>, at: Instant, seconds: nat)
    ensures Window(a + b, at, seconds) == Window(a, at, seconds) + Window(b, at, seconds)
  {
    if b == [] {
      assert a + b == a;
    } else {
      WindowFilters(a, b[..|b| - 1], at, seconds);
      assert (a + b)[..|a + b| - 1] == a + b[..|b| - 1];
    }
  }

  /** One item is kept exactly when it was received within the last `seconds`, the decision's own instant included. */
  lemma WindowKeeps(x: Item, at: Instant, seconds: nat)
    ensures Window([x], at, seconds) == if at - seconds * 1_000_000 < x.at && x.at <= at then [x] else []
  {
    assert [x][..0] == [];
  }

  // ----- Pruning -----

  function Prune(items: seq<Item>, cutoff: Instant): seq<Item> {
    if items != [] && items[0].at <= cutoff then Prune(items[1..], cutoff) else items
  }

  /** The kept items are the history without a prefix that no later window reaches. */
  ghost predicate Suffix(kept: seq<Item>, all: seq<Item>, cutoff: Option<Instant>) {
    && |kept| <= |all| && all[|all| - |kept|..] == kept
    && (|kept| < |all| ==> cutoff.Some?)
    && (forall i :: 0 <= i < |all| - |kept| && cutoff.Some? ==> all[i].at <= cutoff.value)
  }

  /** The later of two cutoffs. */
  function Later(a: Option<Instant>, b: Instant): Option<Instant> {
    if a.Some? && a.value > b then a else Some(b)
  }

  /** Whatever order the items are in, popping expired ones from the left drops only expired ones. */
  lemma {:induction false} PruneSuffix(kept: seq<Item>, all: seq<Item>, before: Option<Instant>, cutoff: Instant)
    requires Suffix(kept, all, before)
    ensures Suffix(Prune(kept, cutoff), all, Later(before, cutoff))
    decreases |kept|
  {
    if kept != [] && kept[0].at <= cutoff {
      assert kept[0] == all[|all| - |kept|];
      assert all[|all| - |kept| + 1..] == kept[1..];
      PruneSuffix(kept[1..], all, Later(before, cutoff), cutoff);
    }
  }

  lemma AppendSuffix(kept: seq<Item>, all: seq<Item>, cutoff: Option<Instant>, more: seq<Item>)
    requires Suffix(kept, all, cutoff)
    ensures Suffix(kept + more, all + more, cutoff)
  {
    var n := all + more;
    assert n[|n| - |kept + more|..] == kept + more;
  }

  lemma SuffixFront(kept: seq<Item>, all: seq<Item>, cutoff: Option<Instant>)
    requires Suffix(kept, all, cutoff) && all != []
    ensures Suffix(if kept == [] then [] else kept[..|kept| - 1], all[..|all| - 1], cutoff)
  {
    var front, d := all[..|all| - 1], |all| - |kept|;
    var shorter := if kept == [] then [] else kept[..|kept| - 1];
    assert kept != [] ==> front[d..] == all[d..][..|kept| - 1];
    assert front[|front| - |shorter|..] == shorter;
  }

  /** A window no longer than the pruning bound sees the same on the pruned items as on all of them. */
  lemma {:induction false} SameWindow(kept: seq<Item>, all: seq<Item>, cutoff: Option<Instant>, at: Instant, seconds: nat)
    requires Suffix(kept, all, cutoff) && (cutoff.Some? ==> cutoff.value <= at - seconds * SECOND)
    ensures Window(kept, at, seconds) == Window(all, at, seconds)
    decreases |all|
  {
    if all != [] {
      var front := all[..|all| - 1];
      var shorter := if kept == [] then [] else kept[..|kept| - 1];
      assert kept != [] ==> kept[|kept| - 1] == all[|all| - 1];
      SuffixFront(kept, all, cutoff);
      SameWindow(shorter, front, cutoff, at, seconds);
      assert kept == [] ==> all[|all| - 1].at <= at - seconds * SECOND;
    }
  }

  // ----- History facts -----

  lemma LatestMore(history: seq<Tick>, tick: Tick)
    ensures LatestQuote(history + [tick]) == if tick.QuoteTick? then Some(tick) else LatestQuote(history)
  {
    assert (history + [tick])[..|history|] == history;
  }

  /** Both deques are what pruning has left of the history. */
  ghost predicate Kept(g: Setting, history: seq<Tick>, trades: seq<Item>, flows: seq<Item>, pruned: Option<Instant>) {
    Suffix(trades, TradesOf(history), pruned) && Suffix(flows, FlowsOf(g, history), pruned)
  }

  lemma KeptMore(g: Setting, history: seq<Tick>, trades: seq<Item>, flows: seq<Item>, pruned: Option<Instant>, tick: Tick)
    requires Kept(g, history, trades, flows, pruned)
    ensures Kept(g, history + [tick], trades + (if tick.TradeTick? then [Item(tick.at, tick.trade)] else []),
                 flows + FlowAfter(g, LatestQuote(history), tick), pruned)
  {
    hide Suffix, LatestQuote;
    assert (history + [tick])[..|history|] == history;
    assert TradesOf(history) + [] == TradesOf(history);
    AppendSuffix(trades, TradesOf(history), pruned, if tick.TradeTick? then [Item(tick.at, tick.trade)] else []);
    AppendSuffix(flows, FlowsOf(g, history), pruned, FlowAfter(g, LatestQuote(history), tick));
  }

  lemma KeptPruned(g: Setting, history: seq<Tick>, trades: seq<Item>, flows: seq<Item>, pruned: Option<Instant>, cutoff: Instant)
    requires Kept(g, history, trades, flows, pruned)
    ensures Kept(g, history, Prune(trades, cutoff), Prune(flows, cutoff), Later(pruned, cutoff))
  {
    hide Suffix, TradesOf, FlowsOf;
    PruneSuffix(trades, TradesOf(history), pruned, cutoff);
    PruneSuffix(flows, FlowsOf(g, history), pruned, cutoff);
  }

  lemma KeptNothing(g: Setting)
    ensures Kept(g, [], [], [], None)
  {}

  /** Any window up to the longest, at any instant no earlier than the last pruning, is answered as if
      nothing had been dropped. */
  lemma KeptWindows(g: Setting, history: seq<Tick>, trades: seq<Item>, flows: seq<Item>, pruned: Option<Instant>, at: Instant, seconds: nat)
    requires Kept(g, history, trades, flows, pruned) && (pruned.Some? ==> pruned.value <= at - seconds * SECOND)
    ensures Window(trades, at, seconds) == Window(TradesOf(history), at, seconds)
    ensures Window(flows, at, seconds) == Window(FlowsOf(g, history), at, seconds)
  {
    hide Suffix, TradesOf, FlowsOf, Window;
    SameWindow(trades, TradesOf(history), pruned, at, seconds);
    SameWindow(flows, FlowsOf(g, history), pruned, at, seconds);
  }

  /** Pop expired items from the left. */
  method PruneItems(items: seq<Item>, cutoff: Instant) returns (kept: seq<Item>)
    ensures kept == Prune(items, cutoff)
  {
    kept := items;
    while kept != [] && kept[0].at <= cutoff
      invariant Prune(kept, cutoff) == Prune(items, cutoff)
      decreases |kept|
    {
      kept := kept[1..];
    }
  }

  // ----- The object -----

  datatype WindowView = WindowView(trades: seq<Item>, flows: seq<Item>)

  datatype EngineError = BeforeLastDecision | DecisionNotIncreasing | InputFromTheFuture

  /** What an envelope means for this symbol: nothing, a record that only names its session, or a tick. */
  datatype Observed = Nothing | Status(session: Ident) | Ticked(session: Ident, tick: Tick)

  datatype Arrival = Arrival(stream: Ident, receivedAt: Instant, observed: Observed)
  {
    predicate Valid() { observed.Ticked? ==> observed.tick.at == receivedAt }
  }

  /** What is remembered of one symbol: its session and everything observed since the last reset. */
  datatype Memory = Memory(session: Option<Ident>, history: seq<Tick>)

  /** A new session forgets the old one. */
  function InSession(m: Memory, session: Ident): Memory {
    if m.session == Some(session) then m else Memory(Some(session), [])
  }

  /** A stream other than the last one that moved the receipt clock forgets everything. */
  function InStream(m: Memory, last: Option<Ident>, stream: Ident): Memory {
    if last.Some? && last.value != stream then Memory(None, []) else m
  }

  function Remember(m: Memory, last: Option<Ident>, a: Arrival): Memory {
    var s := InStream(m, last, a.stream);
    match a.observed
    case Nothing => s
    case Status(session) => InSession(s, session)
    case Ticked(session, tick) => var n := InSession(s, session); n.(history := n.history + [tick])
  }

  /** The engine's view of one symbol. Envelopes may arrive out of receipt order across streams. */
  class SymbolFeatures {
    const setting: Setting
    var session: Option<Ident>
    var observedFrom: Option<Instant>
    var latestQuote: Option<Tick>
    var trades: seq<Item>
    var flows: seq<Item>
    var lastReceived: Option<Instant>
    var lastStream: Option<Ident>
    var lastDecision: Option<Instant>
    /** Everything observed since the last reset, and how far pruning has gone. */
    ghost var history: seq<Tick>
    ghost var pruned: Option<Instant>

    ghost function Recall(): Memory
      reads this
    {
      Memory(session, history)
    }

    ghost predicate Bounded(cutoff: Option<Instant>)
      reads this
      requires setting.Valid()
    {
      cutoff.Some? ==> (lastReceived.Some? && cutoff.value <= lastReceived.value - setting.Longest())
                       || (lastDecision.Some? && cutoff.value <= lastDecision.value - setting.Longest())
    }

    ghost predicate Valid()
      reads this
    {
      && setting.Valid() && Kept(setting, history, trades, flows, pruned) && latestQuote == LatestQuote(history)
      && observedFrom == (if history == [] then None else Some(history[0].at)) && Bounded(pruned)
    }

    constructor (setting: Setting)
      requires setting.Valid()
      ensures Valid() && Recall() == Memory(None, []) && this.setting == setting
    {
      this.setting := setting;
      session, observedFrom, latestQuote, trades, flows := None, None, None, [], [];
      lastReceived, lastStream, lastDecision, history, pruned := None, None, None, [], None;
      new;
      hide Kept;
      KeptNothing(setting);
    }

    method Forget(to: Option<Ident>)
      requires Valid()
      modifies this`session, this`observedFrom, this`latestQuote, this`trades, this`flows, this`history, this`pruned
      ensures Valid() && Recall() == Memory(to, [])
    {
      hide Kept;
      session, observedFrom, latestQuote, trades, flows, history, pruned := to, None, None, [], [], [], None;
      KeptNothing(setting);
    }

    method Enter(to: Ident)
      requires Valid()
      modifies this`session, this`observedFrom, this`latestQuote, this`trades, this`flows, this`history, this`pruned
      ensures Valid() && Recall() == InSession(old(Recall()), to)
    {
      if session != Some(to) {
        Forget(Some(to));
      }
    }

    /** One envelope. */
    method Apply(a: Arrival) returns (r: Result<bool, EngineError>)
      requires Valid() && a.Valid()
      modifies this
      ensures Valid() && lastDecision == old(lastDecision)
      ensures r.Err? <==> old(lastDecision).Some? && a.receivedAt < old(lastDecision).value
      ensures r.Err? ==> Recall() == old(Recall()) && lastReceived == old(lastReceived) && lastStream == old(lastStream)
      ensures r.Ok? ==>
                var newest := old(lastReceived).None? || a.receivedAt >= old(lastReceived).value;
                && Recall() == Remember(old(Recall()), old(lastStream), a)
                && lastReceived == (if newest then Some(a.receivedAt) else old(lastReceived))
                && lastStream == (if newest then Some(a.stream) else old(lastStream))
    {
      hide Valid;
      if lastDecision.Some? && a.receivedAt < lastDecision.value {
        return Err(BeforeLastDecision);
      }
      if lastStream.Some? && lastStream.value != a.stream {
        Forget(None);
      }
      match a.observed {
        case Nothing =>
        case Status(to) => Enter(to);
        case Ticked(to, tick) =>
          Enter(to);
          Observe(tick);
      }
      MoveClock(a.stream, a.receivedAt);
      if a.observed.Ticked? {
        PruneTo(a.receivedAt);
      }
      r := Ok(true);
    }

    /** Only a receipt no earlier than the last moves the clock and the stream. */
    method MoveClock(stream: Ident, receivedAt: Instant)
      requires Valid()
      modifies this`lastReceived, this`lastStream
      ensures Valid() && lastReceived.Some? && receivedAt <= lastReceived.value
      ensures var newest := old(lastReceived).None? || receivedAt >= old(lastReceived).value;
              && lastReceived == (if newest then Some(receivedAt) else old(lastReceived))
              && lastStream == (if newest then Some(stream) else old(lastStream))
    {
      hide Kept, LatestQuote;
      if lastReceived.None? || receivedAt >= lastReceived.value {
        lastReceived, lastStream := Some(receivedAt), Some(stream);
      }
    }

    method PruneTo(observedAt: Instant)
      requires Valid() && lastReceived.Some? && observedAt <= lastReceived.value
      modifies this`trades, this`flows, this`pruned
      ensures Valid()
    {
      hide Kept, LatestQuote, Prune;
      var cutoff := observedAt - setting.Longest();
      KeptPruned(setting, history, trades, flows, pruned, cutoff);
      trades := PruneItems(trades, cutoff);
      flows := PruneItems(flows, cutoff);
      pruned := Later(pruned, cutoff);
    }

    /** Take in one applied trade or quote. */
    method Observe(tick: Tick)
      requires Valid()
      modifies this`observedFrom, this`latestQuote, this`trades, this`flows, this`history
      ensures Valid() && history == old(history) + [tick]
    {
      hide Kept, LatestQuote;
      KeptMore(setting, history, trades, flows, pruned, tick);
      LatestMore(history, tick);
      if observedFrom.None? {
        observedFrom := Some(tick.at);
      }
      if tick.TradeTick? {
        trades := trades + [Item(tick.at, tick.trade)];
        assert flows + FlowAfter(setting, LatestQuote(history), tick) == flows;
      } else {
        flows := flows + FlowAfter(setting, latestQuote, tick);
        latestQuote := Some(tick);
        assert trades + [] == trades;
      }
      history := history + [tick];
    }

    /** The windows of a decision equal the same filters over everything since the last reset. */
    method Snapshot(inSession: Ident, at: Instant) returns (r: Result<seq<WindowView>, EngineError>)
      requires Valid()
      modifies this
      ensures Valid()
      ensures r.Err? ==> Recall() == old(Recall())
      ensures r.Err? <==> (old(lastDecision).Some? && at <= old(lastDecision).value) || (old(lastReceived).Some? && old(lastReceived).value > at)
      ensures r.Ok? ==>
                && Recall() == InSession(old(Recall()), inSession)
                && |r.value| == |setting.windows| && lastDecision == Some(at)
                && forall i :: 0 <= i < |setting.windows| ==>
                     r.value[i] == WindowView(Window(TradesOf(history), at, setting.windows[i]), Window(FlowsOf(setting, history), at, setting.windows[i]))
    {
      hide Kept, Window, Prune, TradesOf, FlowsOf, LatestQuote;
      if lastDecision.Some? && at <= lastDecision.value {
        return Err(DecisionNotIncreasing);
      }
      if lastReceived.Some? && lastReceived.value > at {
        return Err(InputFromTheFuture);
      }
      Enter(inSession);
      var cutoff := at - setting.Longest();
      KeptPruned(setting, history, trades, flows, pruned, cutoff);
      trades := PruneItems(trades, cutoff);
      flows := PruneItems(flows, cutoff);
      lastDecision, pruned := Some(at), Some(cutoff);
      var views := Views(at);
      r := Ok(views);
    }

    method Views(at: Instant) returns (views: seq<WindowView>)
      requires setting.Valid() && Kept(setting, history, trades, flows, pruned) && pruned == Some(at - setting.Longest())
      ensures |views| == |setting.windows|
      ensures forall i :: 0 <= i < |setting.windows| ==>
                views[i] == WindowView(Window(TradesOf(history), at, setting.windows[i]), Window(FlowsOf(setting, history), at, setting.windows[i]))
    {
      hide Kept, Window, TradesOf, FlowsOf;
      views := [];
      for i := 0 to |setting.windows|
        invariant |views| == i
        invariant forall j :: 0 <= j < i ==>
                    views[j] == WindowView(Window(TradesOf(history), at, setting.windows[j]), Window(FlowsOf(setting, history), at, setting.windows[j]))
      {
        var seconds := setting.windows[i];
        KeptWindows(setting, history, trades, flows, pruned, at, seconds);
        views := views + [WindowView(Window(trades, at, seconds), Window(flows, at, seconds))];
      }
    }
  }
}
