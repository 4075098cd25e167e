/** Features, contexts, scoring and arbitration: interleaved clock by clock in the live journal, three
    separate passes over the whole day in batch. */
module JournalCascade {
  import opened Prelude
  import opened Journal
  import opened JournalReplay
  import opened Sorting
  import opened Arbitration
  import opened Arbitrator

  /** One symbol's feature snapshot at one decision clock. */
  datatype Snap<V> = Snap(symbol: Ident, at: Instant, view: V)

  datatype Timed<K> = Timed(at: Instant, context: K)

  /** The engines, of which only their shape is fixed: a feature engine that looks at every configured
      symbol, the capture-gap mark, a context engine that builds from one clock's snapshots, and a scorer
      that sees a snapshot, its peer now and `lag` before, and the clock's context. */
  datatype Machines<!F, !C, !V(!new), !K(!new)> = Machines(
    symbols: seq<Ident>, day: Day,
    feature: F, feed: (F, Envelope) -> F, look: (F, Instant) -> (F, Ident -> V), mark: V -> V,
    context: C, hear: (C, Envelope) -> C, build: (C, seq<Snap<V>>) -> (C, K),
    peer: Ident -> Ident, lag: nat,
    score: (Snap<V>, Option<Snap<V>>, Option<Snap<V>>, Option<K>) -> seq<Candidate>)
  {
    /** Every snapshot is scored, for its own clock. */
    ghost predicate Valid() {
      && symbols != [] && Distinct(symbols) && lag >= 1
      && (forall s, p, l, k :: score(s, p, l, k) != [] && forall i :: 0 <= i < |score(s, p, l, k)| ==> score(s, p, l, k)[i].When() == Clock(day, s.at))
    }
  }

  // ----- Features -----

  function Shots<F, C, V(!new), K(!new)>(m: Machines<F, C, V, K>, view: Ident -> V, at: Instant, flag: bool): seq<Snap<V>> {
    seq(|m.symbols|, i requires 0 <= i < |m.symbols| =>
      Snap(m.symbols[i], at, if flag then m.mark(view(m.symbols[i])) else view(m.symbols[i])))
  }

  /** The feature pass over a trace: the engine's state and every snapshot it emits. */
  function Features<F, C, V(!new), K(!new)>(m: Machines<F, C, V, K>, trace: seq<Event>): (F, seq<Snap<V>>) {
    if trace == [] then (m.feature, [])
    else
      var before := Features(m, trace[..|trace| - 1]);
      match trace[|trace| - 1]
      case Applied(e) => (m.feed(before.0, e), before.1)
      case Decided(at, flag) =>
        var seen := m.look(before.0, at);
        (seen.0, before.1 + Shots(m, seen.1, at, flag))
  }

  // ----- Contexts -----

  /** The snapshots of one clock, in order. */
  function AtClock<V>(snaps: seq<Snap<V>>, at: Instant): seq<Snap<V>> {
    if snaps == [] then []
    else
      var front, last := AtClock(snaps[..|snaps| - 1], at), snaps[|snaps| - 1];
      if last.at == at then front + [last] else front
  }

  /** The distinct clocks of some snapshots, ascending. */
  function TimesIn<V>(snaps: seq<Snap<V>>): seq<Instant> {
    if snaps == [] then []
    else
      var front, at := TimesIn(snaps[..|snaps| - 1]), snaps[|snaps| - 1].at;
      if at in front then front else front + [at]
  }

  function ClockTimes<V>(snaps: seq<Snap<V>>): seq<Instant> {
    Sort((a: Instant, b: Instant) => a < b, TimesIn(snaps))
  }

  /** A context engine driven by a trace, building each clock from its group of snapshots. */
  function Contexts<F, C, V(!new), K(!new)>(m: Machines<F, C, V, K>, snaps: seq<Snap<V>>, trace: seq<Event>): (C, seq<Timed<K>>) {
    if trace == [] then (m.context, [])
    else
      var before := Contexts(m, snaps, trace[..|trace| - 1]);
      match trace[|trace| - 1]
      case Applied(e) => (m.hear(before.0, e), before.1)
      case Decided(at, _) =>
        var built := m.build(before.0, AtClock(snaps, at));
        (built.0, before.1 + [Timed(at, built.1)])
  }

  function NoFlags(n: nat): seq<bool> { seq(n, _ => false) }

  /** What the context pass builds: receipts up to each clock of the snapshots, then that clock. */
  function ContextPass<F, C, V(!new), K(!new)>(m: Machines<F, C, V, K>, snaps: seq<Snap<V>>, envelopes: seq<Envelope>): seq<Timed<K>> {
    var clocks := ClockTimes(snaps);
    if clocks == [] then []
    else Contexts(m, snaps, Merge(envelopes[..ReceivedBy(envelopes, clocks[|clocks| - 1])], clocks, NoFlags(|clocks|))).1
  }

  // ----- Scoring -----

  function FindSymbol<V>(snaps: seq<Snap<V>>, symbol: Ident): Option<Snap<V>> {
    if snaps == [] then None
    else if snaps[|snaps| - 1].symbol == symbol then Some(snaps[|snaps| - 1])
    else FindSymbol(snaps[..|snaps| - 1], symbol)
  }

  function Lookup<V>(snaps: seq<Snap<V>>, symbol: Ident, at: Instant): Option<Snap<V>> { FindSymbol(AtClock(snaps, at), symbol) }

  function ContextAt<K>(contexts: seq<Timed<K>>, at: Instant): Option<K> {
    if contexts == [] then None
    else if contexts[|contexts| - 1].at == at then Some(contexts[|contexts| - 1].context)
    else ContextAt(contexts[..|contexts| - 1], at)
  }

  predicate SnapBefore<V>(a: Snap<V>, b: Snap<V>) { a.at < b.at || (a.at == b.at && a.symbol < b.symbol) }

  function ScoreOne<F, C, V(!new), K(!new)>(m: Machines<F, C, V, K>, available: seq<Snap<V>>, contexts: seq<Timed<K>>, s: Snap<V>): seq<Candidate> {
    m.score(s, Lookup(available, m.peer(s.symbol), s.at), Lookup(available, m.peer(s.symbol), s.at - m.lag), ContextAt(contexts, s.at))
  }

  function ScoreEach<F, C, V(!new), K(!new)>(m: Machines<F, C, V, K>, available: seq<Snap<V>>, contexts: seq<Timed<K>>, sorted: seq<Snap<V>>): seq<Candidate> {
    if sorted == [] then []
    else ScoreEach(m, available, contexts, sorted[..|sorted| - 1]) + ScoreOne(m, available, contexts, sorted[|sorted| - 1])
  }

  function InOrder<V>(snaps: seq<Snap<V>>): seq<Snap<V>> { Sort((a: Snap<V>, b: Snap<V>) => SnapBefore(a, b), snaps) }

  /** The scorer: every snapshot by clock and symbol, with earlier ones available as history. */
  function Score<F, C, V(!new), K(!new)>(m: Machines<F, C, V, K>, snaps: seq<Snap<V>>, contexts: seq<Timed<K>>, history: seq<Snap<V>>): seq<Candidate> {
    ScoreEach(m, history + snaps, contexts, InOrder(snaps))
  }

  // ----- The live cascade -----

  /** Everything the journal keeps between engine calls, and everything it has emitted. */
  datatype Live<F, C, V, K> = Live(feature: F, context: C, history: seq<Snap<V>>, memory: Memory, snaps: seq<Snap<V>>,
                                   contexts: seq<Timed<K>>, candidates: seq<Candidate>, verdicts: seq<Verdict>,
                                   failed: Option<ArbitrationError>)

  /** Pop what lies more than the lag behind. */
  function DropBefore<V>(history: seq<Snap<V>>, cutoff: Instant): seq<Snap<V>> {
    if history != [] && history[0].at < cutoff then DropBefore(history[1..], cutoff) else history
  }

  /** One engine call of the journal. A clock's candidates are written before it is arbitrated. */
  ghost function LiveStep<F, C, V(!new), K(!new)>(m: Machines<F, C, V, K>, p: Policy, l: Live<F, C, V, K>, e: Event): Live<F, C, V, K> {
    if l.failed.Some? then l
    else match e
      case Applied(envelope) => l.(feature := m.feed(l.feature, envelope), context := m.hear(l.context, envelope))
      case Decided(at, flag) =>
        var seen := m.look(l.feature, at);
        var shots := Shots(m, seen.1, at, flag);
        var built := m.build(l.context, shots);
        var recent := DropBefore(l.history, at - m.lag);
        var found := Score(m, shots, [Timed(at, built.1)], recent);
        match DecideClock(p, l.memory, found)
        case Err(error) =>
          Live(seen.0, built.0, recent, l.memory, l.snaps + shots, l.contexts + [Timed(at, built.1)],
               l.candidates + found, l.verdicts, Some(error))
        case Ok(d) =>
          Live(seen.0, built.0, recent + shots, d.memory, l.snaps + shots, l.contexts + [Timed(at, built.1)],
               l.candidates + found, l.verdicts + d.verdicts, None)
  }

  ghost function LiveDay<F, C, V(!new), K(!new)>(m: Machines<F, C, V, K>, p: Policy, trace: seq<Event>): Live<F, C, V, K> {
    if trace == [] then Live(m.feature, m.context, [], Memory(map[], None), [], [], [], [], None)
    else LiveStep(m, p, LiveDay(m, p, trace[..|trace| - 1]), trace[|trace| - 1])
  }

  // ----- The context pass as a loop -----

  lemma NoFlagsMore(n: nat)
    ensures NoFlags(n + 1) == NoFlags(n) + [false]
  {}

  lemma ContextHears<F, C, V(!new), K(!new)>(m: Machines<F, C, V, K>, snaps: seq<Snap<V>>, trace: seq<Event>, x: Envelope)
    ensures Contexts(m, snaps, trace + [Applied(x)]) == (m.hear(Contexts(m, snaps, trace).0, x), Contexts(m, snaps, trace).1)
  {
    assert (trace + [Applied(x)])[..|trace|] == trace;
  }

  lemma ContextBuilds<F, C, V(!new), K(!new)>(m: Machines<F, C, V, K>, snaps: seq<Snap<V>>, trace: seq<Event>, time: Instant, flag: bool)
    ensures var before := Contexts(m, snaps, trace);
            var built := m.build(before.0, AtClock(snaps, time));
            Contexts(m, snaps, trace + [Decided(time, flag)]) == (built.0, before.1 + [Timed(time, built.1)])
  {
    assert (trace + [Decided(time, flag)])[..|trace|] == trace;
  }

  lemma TimesAscend<V>(snaps: seq<Snap<V>>)
    ensures forall i, j :: 0 <= i < j < |ClockTimes(snaps)| ==> ClockTimes(snaps)[i] < ClockTimes(snaps)[j]
    ensures forall t :: t in ClockTimes(snaps) <==> exists s :: s in snaps && s.at == t
  {
    var less := (a: Instant, b: Instant) => a < b;
    TimesMean(snaps);
    SortFacts(less, TimesIn(snaps));
    var clocks := ClockTimes(snaps);
    forall i, j | 0 <= i < j < |clocks| ensures clocks[i] < clocks[j] { assert less(clocks[i], clocks[j]); }
    forall t ensures t in clocks <==> t in TimesIn(snaps) { assert t in Elements(clocks) <==> t in Elements(TimesIn(snaps)); }
  }

  lemma {:induction false} TimesMean<V>(snaps: seq<Snap<V>>)
    ensures Distinct(TimesIn(snaps))
    ensures forall t :: t in TimesIn(snaps) <==> exists s :: s in snaps && s.at == t
  {
    if snaps != [] {
      var front, last := snaps[..|snaps| - 1], snaps[|snaps| - 1];
      TimesMean(front);
      assert snaps == front + [last];
      forall t ensures t in TimesIn(snaps) <==> exists s :: s in snaps && s.at == t {
        assert last in snaps;
        assert t in TimesIn(front) <==> exists s :: s in front && s.at == t;
        assert forall s :: s in snaps <==> s in front || s == last;
      }
    }
  }

  datatype ContextError = NoSnapshots

  /** The context merge loop: apply receipts up to each clock, build it, then exhaust the reader. */
  method BuildContexts<F, C, V(!new), K(!new)>(m: Machines<F, C, V, K>, snaps: seq<Snap<V>>, envelopes: seq<Envelope>)
    returns (r: Result<seq<Timed<K>>, ContextError>)
    requires Sorted(envelopes)
    ensures r == if snaps == [] then Err(NoSnapshots) else Ok(ContextPass(m, snaps, envelopes))
  {
    hide Merge, Contexts, ReceivedBy, AtClock, ClockTimes, NoFlags;
    if snaps == [] {
      return Err(NoSnapshots);
    }
    var clocks := ClockTimes(snaps);
    TimesAscend(snaps);
    assert snaps[0] in snaps && snaps[0].at in clocks;
    var engine, contexts := m.context, [];
    var k := 0;
    assert clocks[..0] == [] && envelopes[..0] == [] && NoFlags(0) == [] by { assert |NoFlags(0)| == 0 by { FlagsCounted(0); } }
    MergeNothing();
    ContextsStart(m, snaps);
    for i := 0 to |clocks|
      invariant 0 <= k <= |envelopes| && |NoFlags(i)| == i
      invariant i == 0 ==> k == 0
      invariant i > 0 ==> k == ReceivedBy(envelopes, clocks[i - 1]) && forall j :: k <= j < |envelopes| ==> envelopes[j].receivedAt > clocks[i - 1]
      invariant Contexts(m, snaps, Merge(envelopes[..k], clocks[..i], NoFlags(i))) == (engine, contexts)
    {
      var at := clocks[i];
      while k < |envelopes| && envelopes[k].receivedAt <= at
        invariant 0 <= k <= |envelopes|
        invariant forall j :: 0 <= j < k ==> envelopes[j].receivedAt <= at
        invariant i > 0 ==> forall j :: k <= j < |envelopes| ==> envelopes[j].receivedAt > clocks[i - 1]
        invariant Contexts(m, snaps, Merge(envelopes[..k], clocks[..i], NoFlags(i))) == (engine, contexts)
      {
        assert envelopes[..k + 1] == envelopes[..k] + [envelopes[k]];
        MergeEnvelope(envelopes[..k], clocks[..i], NoFlags(i), envelopes[k]);
        ContextHears(m, snaps, Merge(envelopes[..k], clocks[..i], NoFlags(i)), envelopes[k]);
        engine := m.hear(engine, envelopes[k]);
        k := k + 1;
      }
      ReceivedExactly(envelopes, at, k);
      NoFlagsMore(i);
      assert clocks[..i + 1] == clocks[..i] + [at];
      MergeDecision(envelopes[..k], clocks[..i], NoFlags(i), at, false);
      ContextBuilds(m, snaps, Merge(envelopes[..k], clocks[..i], NoFlags(i)), at, false);
      var (next, context) := m.build(engine, AtClock(snaps, at));
      engine, contexts := next, contexts + [Timed(at, context)];
    }
    assert clocks[..|clocks|] == clocks;
    while k < |envelopes| {
      engine := m.hear(engine, envelopes[k]);
      k := k + 1;
    }
    r := Ok(contexts);
  }

  lemma FlagsCounted(n: nat)
    ensures |NoFlags(n)| == n
  {}

  lemma ContextsStart<F, C, V(!new), K(!new)>(m: Machines<F, C, V, K>, snaps: seq<Snap<V>>)
    ensures Contexts(m, snaps, []) == (m.context, [])
  {}
}
