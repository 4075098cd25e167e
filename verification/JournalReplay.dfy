/** The live journal against batch replay: same engine calls, same order, same gap flags. */
module JournalReplay {
  import opened Prelude
  import opened Journal

  // ----- The common order -----

  predicate Sorted(envelopes: seq<Envelope>) {
    forall i, j :: 0 <= i < j < |envelopes| ==> envelopes[i].receivedAt <= envelopes[j].receivedAt
  }

  /** Receipt order, with every decision right after the last envelope received by then. */
  function Merge(envelopes: seq<Envelope>, times: seq<Instant>, flags: seq<bool>): seq<Event>
    requires |flags| == |times|
    decreases |envelopes| + |times|
  {
    var n, m := |envelopes|, |times|;
    if n == 0 && m == 0 then []
    else if m == 0 || (n > 0 && envelopes[n - 1].receivedAt > times[m - 1])
    then Merge(envelopes[..n - 1], times, flags) + [Applied(envelopes[n - 1])]
    else Merge(envelopes, times[..m - 1], flags[..m - 1]) + [Decided(times[m - 1], flags[m - 1])]
  }

  lemma MergeEnvelope(envelopes: seq<Envelope>, times: seq<Instant>, flags: seq<bool>, e: Envelope)
    requires |flags| == |times| && (times != [] ==> e.receivedAt > times[|times| - 1])
    ensures Merge(envelopes + [e], times, flags) == Merge(envelopes, times, flags) + [Applied(e)]
  {
    assert (envelopes + [e])[..|envelopes|] == envelopes;
  }

  lemma MergeDecision(envelopes: seq<Envelope>, times: seq<Instant>, flags: seq<bool>, at: Instant, flag: bool)
    requires |flags| == |times| && (envelopes != [] ==> envelopes[|envelopes| - 1].receivedAt <= at)
    ensures Merge(envelopes, times + [at], flags + [flag]) == Merge(envelopes, times, flags) + [Decided(at, flag)]
  {
    assert (times + [at])[..|times|] == times && (flags + [flag])[..|flags|] == flags;
  }

  lemma MergeNothing()
    ensures Merge([], [], []) == []
  {}

  // ----- Batch replay -----

  /** How many envelopes, in order, were received by `at`. */
  function ReceivedBy(envelopes: seq<Envelope>, at: Instant): (n: nat)
    ensures n <= |envelopes|
    ensures forall i :: 0 <= i < n ==> envelopes[i].receivedAt <= at
    ensures n < |envelopes| ==> envelopes[n].receivedAt > at
  {
    if envelopes == [] || envelopes[0].receivedAt > at then 0 else 1 + ReceivedBy(envelopes[1..], at)
  }

  lemma ReceivedExactly(envelopes: seq<Envelope>, at: Instant, k: nat)
    requires k <= |envelopes| && (forall j :: 0 <= j < k ==> envelopes[j].receivedAt <= at)
    requires k < |envelopes| ==> envelopes[k].receivedAt > at
    ensures k == ReceivedBy(envelopes, at)
  {
    hide ReceivedBy;
    var n := ReceivedBy(envelopes, at);
    assert k < n ==> k < |envelopes|;
  }

  function BatchFlags(g: Setting, gaps: seq<Gap>, n: nat): seq<bool>
    requires n <= |g.times|
  {
    seq(n, i requires 0 <= i < n => Covered(g, gaps, g.times[i]))
  }

  /** What batch replay asks of the engines, given the whole capture and its gaps. */
  function BatchTrace(g: Setting, envelopes: seq<Envelope>, gaps: seq<Gap>): seq<Event>
    requires g.Valid()
  {
    Merge(envelopes[..ReceivedBy(envelopes, g.times[|g.times| - 1])], g.times, BatchFlags(g, gaps, |g.times|))
  }

  /** The replay loop over decision clocks. */
  method ReplayAll(g: Setting, envelopes: seq<Envelope>, gaps: seq<Gap>) returns (trace: seq<Event>)
    requires g.Valid() && Sorted(envelopes)
    ensures trace == BatchTrace(g, envelopes, gaps)
  {
    hide Merge, Covered, ReceivedBy;
    trace := [];
    var k := 0;
    assert Merge([], [], []) == [] by { MergeNothing(); }
    assert g.times[..0] == [] && envelopes[..0] == [] && BatchFlags(g, gaps, 0) == [];
    for i := 0 to |g.times|
      invariant 0 <= k <= |envelopes|
      invariant i == 0 ==> k == 0
      invariant i > 0 ==> k == ReceivedBy(envelopes, g.times[i - 1]) && forall j :: k <= j < |envelopes| ==> envelopes[j].receivedAt > g.times[i - 1]
      invariant trace == Merge(envelopes[..k], g.times[..i], BatchFlags(g, gaps, i))
    {
      var at := g.times[i];
      while k < |envelopes| && envelopes[k].receivedAt <= at
        invariant 0 <= k <= |envelopes|
        invariant forall j :: 0 <= j < k ==> envelopes[j].receivedAt <= at
        invariant i > 0 ==> forall j :: k <= j < |envelopes| ==> envelopes[j].receivedAt > g.times[i - 1]
        invariant trace == Merge(envelopes[..k], g.times[..i], BatchFlags(g, gaps, i))
      {
        assert envelopes[..k + 1] == envelopes[..k] + [envelopes[k]];
        MergeEnvelope(envelopes[..k], g.times[..i], BatchFlags(g, gaps, i), envelopes[k]);
        trace := trace + [Applied(envelopes[k])];
        k := k + 1;
      }
      ReceivedExactly(envelopes, at, k);
      var flag := Covered(g, gaps, at);
      assert g.times[..i + 1] == g.times[..i] + [at];
      assert BatchFlags(g, gaps, i + 1) == BatchFlags(g, gaps, i) + [flag];
      MergeDecision(envelopes[..k], g.times[..i], BatchFlags(g, gaps, i), at, flag);
      trace := trace + [Decided(at, flag)];
    }
    assert g.times[..|g.times|] == g.times;
  }

  // ----- The live invariant -----

  /** Everything captured so far, in the order the calls delivered it. */
  function Captured(calls: seq<Call>): seq<Envelope> {
    if calls == [] then []
    else Captured(calls[..|calls| - 1]) + if calls[|calls| - 1].Ingest? then calls[|calls| - 1].envelopes else []
  }

  /** The engines have seen a receipt-ordered prefix of the capture, merged with the clocks taken. */
  ghost predicate InStep(g: Setting, s: State, all: seq<Envelope>)
    requires g.Valid()
  {
    && s.next <= |g.times| && |s.flags| == s.next
    && |s.applied| <= |all| && s.applied == all[..|s.applied|]
    && s.trace == Merge(s.applied, g.times[..s.next], s.flags)
    && (s.next < |g.times| ==> s.pending == all[|s.applied|..])
    && (s.next < |g.times| ==> forall i :: 0 <= i < |s.applied| ==> s.applied[i].receivedAt <= g.times[s.next])
    && (s.next == |g.times| ==> forall i :: 0 <= i < |s.applied| ==> s.applied[i].receivedAt <= g.times[s.next - 1])
    && (s.next > 0 ==> forall i :: |s.applied| <= i < |all| ==> all[i].receivedAt > g.times[s.next - 1])
  }

  lemma {:induction false} ApplyInStep(g: Setting, s: State, all: seq<Envelope>, cutoff: Instant)
    requires g.Valid() && Sorted(all) && InStep(g, s, all) && !s.failed && s.next < |g.times| && cutoff <= g.times[s.next]
    ensures var n := ApplyUntil(g, s, cutoff);
            && !n.failed && InStep(g, n, all) && n.next == s.next
            && (forall i :: |n.applied| <= i < |all| ==> all[i].receivedAt > cutoff)
    decreases |s.pending|
  {
    hide Merge;
    if s.pending != [] && s.pending[0].receivedAt <= cutoff {
      var e := s.pending[0];
      assert e == all[|s.applied|];
      MergeEnvelope(s.applied, g.times[..s.next], s.flags, e);
      var n := ApplyOne(g, s);
      assert n.applied == all[..|n.applied|];
      ApplyInStep(g, n, all, cutoff);
    } else if s.pending != [] {
      assert s.pending[0] == all[|s.applied|];
    }
  }

  lemma DecideInStep(g: Setting, s: State, all: seq<Envelope>)
    requires g.Valid() && Sorted(all) && InStep(g, s, all) && !s.failed && s.next < |g.times|
    ensures var n := DecideOne(g, s); !n.failed && InStep(g, n, all) && n.next == s.next + 1
  {
    hide Merge, ApplyUntil, Covered;
    var at := g.times[s.next];
    ApplyInStep(g, s, all, at);
    var ready := ApplyUntil(g, s, at);
    MergeDecision(ready.applied, g.times[..s.next], ready.flags, at, GapAffected(g, ready, at));
    assert g.times[..s.next + 1] == g.times[..s.next] + [at];
  }

  lemma {:induction false} AdvanceInStep(g: Setting, s: State, all: seq<Envelope>, cutoff: Instant)
    requires g.Valid() && Sorted(all) && InStep(g, s, all) && !s.failed
    ensures var n := Advance(g, s, cutoff); !n.failed && InStep(g, n, all)
    decreases |g.times| - s.next
  {
    hide InStep, DecideOne;
    assert s.next <= |g.times| by { Bounded(g, s, all); }
    if s.next < |g.times| && g.times[s.next] <= cutoff {
      DecideInStep(g, s, all);
      AdvanceInStep(g, DecideOne(g, s), all, cutoff);
    } else if s.next < |g.times| {
      ApplyInStep(g, s, all, cutoff);
    } else {
      ClearedInStep(g, s, all);
    }
  }

  lemma Bounded(g: Setting, s: State, all: seq<Envelope>)
    requires g.Valid() && InStep(g, s, all)
    ensures s.next <= |g.times| && |s.flags| == s.next
  {}

  lemma ClearedInStep(g: Setting, s: State, all: seq<Envelope>)
    requires g.Valid() && InStep(g, s, all) && s.next == |g.times|
    ensures InStep(g, s.(pending := []), all)
  {}

  /** Envelopes that arrive after a decision must have been received after it. */
  predicate Timely(g: Setting, s: State, envelopes: seq<Envelope>)
    requires s.next <= |g.times|
  {
    s.next > 0 ==> forall i :: 0 <= i < |envelopes| ==> envelopes[i].receivedAt > g.times[s.next - 1]
  }

  lemma {:induction false} IngestEffect(g: Setting, s: State, envelopes: seq<Envelope>)
    ensures var n := IngestAll(g, s, envelopes);
            && n == s.(pending := n.pending, lastIngested := n.lastIngested, failed := n.failed)
            && (!n.failed ==> !s.failed && n.pending == s.pending + envelopes)
  {
    if envelopes == [] {
      assert s.pending + envelopes == s.pending;
    } else {
      IngestEffect(g, s, envelopes[..|envelopes| - 1]);
      assert s.pending + envelopes == (s.pending + envelopes[..|envelopes| - 1]) + [envelopes[|envelopes| - 1]];
    }
  }

  lemma IngestInStep(g: Setting, s: State, all: seq<Envelope>, envelopes: seq<Envelope>)
    requires g.Valid() && InStep(g, s, all) && !s.failed && Timely(g, s, envelopes)
    ensures var n := Step(g, s, Ingest(envelopes)); !n.failed ==> InStep(g, n, all + envelopes)
  {
    IngestEffect(g, s, envelopes);
    var more := all + envelopes;
    assert more[..|s.applied|] == all[..|s.applied|];
    assert s.next < |g.times| ==> more[|s.applied|..] == s.pending + envelopes;
    forall i | |s.applied| <= i < |more| && s.next > 0 ensures more[i].receivedAt > g.times[s.next - 1] {
      assert i < |all| ==> more[i] == all[i];
      assert i >= |all| ==> more[i] == envelopes[i - |all|];
    }
  }

  // ----- Gap flags -----

  /** Every flag taken so far is the one the gaps known now would give. */
  ghost predicate FlagsCurrent(g: Setting, s: State) {
    && s.next <= |g.times| && |s.flags| == s.next
    && (forall i :: 0 <= i < s.next ==> (s.flags[i] <==> GapAffected(g, s, g.times[i])))
  }

  /** Decision clocks taken that no recorded gap affects. */
  predicate TakenOutsideGaps(g: Setting, s: State, i: nat)
  {
    i < s.next <= |g.times| && !Covered(g, s.gaps, g.times[i])
  }

  /** A disconnect may be recorded only later than every unaffected clock already taken. */
  predicate DisconnectTimely(g: Setting, s: State, at: Instant, unavailable: bool) {
    unavailable && s.openGap.None? ==> forall i :: 0 <= i < s.next && TakenOutsideGaps(g, s, i) ==> g.times[i] < at
  }

  /** A reconnect must come late enough to still cover the clocks taken inside the gap. */
  predicate ConnectTimely(g: Setting, s: State, at: Instant) {
    s.openGap.Some? ==>
      forall i :: 0 <= i < s.next && TakenOutsideGaps(g, s, i) && g.times[i] >= s.openGap.value ==>
        at > s.openGap.value && g.times[i] < at + g.warmup
  }

  /** Opening a gap keeps the flags taken so far right exactly when the disconnect is timely. */
  lemma DisconnectExact(g: Setting, s: State, at: Instant, unavailable: bool)
    requires FlagsCurrent(g, s)
    ensures FlagsCurrent(g, Open(s, at, unavailable)) <==> DisconnectTimely(g, s, at, unavailable)
  {
    var n := Open(s, at, unavailable);
    if unavailable && s.openGap.None? {
      forall i | 0 <= i < s.next
        ensures (s.flags[i] <==> GapAffected(g, n, g.times[i])) <==> (TakenOutsideGaps(g, s, i) ==> g.times[i] < at)
      {}
      if DisconnectTimely(g, s, at, unavailable) {
        forall i | 0 <= i < s.next ensures n.flags[i] <==> GapAffected(g, n, g.times[i]) {}
      }
      if FlagsCurrent(g, n) {
        forall i | 0 <= i < s.next && TakenOutsideGaps(g, s, i) ensures g.times[i] < at {
          assert n.flags[i] <==> GapAffected(g, n, g.times[i]);
        }
      }
    }
  }

  lemma CoveredMore(g: Setting, gaps: seq<Gap>, gap: Gap, at: Instant)
    ensures Covered(g, gaps + [gap], at) <==> Covered(g, gaps, at) || gap.startedAt <= at < gap.endedAt + g.warmup
  {
    var more := gaps + [gap];
    if Covered(g, gaps, at) {
      var i :| 0 <= i < |gaps| && gaps[i].startedAt <= at < gaps[i].endedAt + g.warmup;
      assert more[i] == gaps[i];
    }
    if gap.startedAt <= at < gap.endedAt + g.warmup { assert more[|gaps|] == gap; }
  }

  lemma ConnectedCover(g: Setting, s: State, session: Ident, at: Instant, d: Instant)
    requires g.Valid() && !s.failed && !Connect(g, s, session, at).failed && s.openGap.Some?
    ensures GapAffected(g, Connect(g, s, session, at), d)
            <==> Covered(g, s.gaps, d) || (at > s.openGap.value && s.openGap.value <= d < at + g.warmup)
  {
    CoveredMore(g, s.gaps, Gap(s.openGap.value, at), d);
  }

  /** Closing a gap keeps the flags taken so far right exactly when the reconnect is timely. */
  lemma ConnectExact(g: Setting, s: State, session: Ident, at: Instant)
    requires g.Valid() && FlagsCurrent(g, s) && !s.failed && !Connect(g, s, session, at).failed
    ensures FlagsCurrent(g, Connect(g, s, session, at)) <==> ConnectTimely(g, s, at)
  {
    hide Covered;
    var n := Connect(g, s, session, at);
    if s.openGap.Some? {
      forall i | 0 <= i < s.next
        ensures (s.flags[i] <==> GapAffected(g, n, g.times[i]))
                <==> (TakenOutsideGaps(g, s, i) && g.times[i] >= s.openGap.value ==> at > s.openGap.value && g.times[i] < at + g.warmup)
      {
        ConnectedCover(g, s, session, at, g.times[i]);
        assert s.flags[i] <==> GapAffected(g, s, g.times[i]);
      }
      if ConnectTimely(g, s, at) {
        forall i | 0 <= i < s.next ensures n.flags[i] <==> GapAffected(g, n, g.times[i]) {
          assert TakenOutsideGaps(g, s, i) || !TakenOutsideGaps(g, s, i);
        }
      }
      if FlagsCurrent(g, n) {
        forall i | 0 <= i < s.next && TakenOutsideGaps(g, s, i) && g.times[i] >= s.openGap.value
          ensures at > s.openGap.value && g.times[i] < at + g.warmup
        {
          assert n.flags[i] <==> GapAffected(g, n, g.times[i]);
        }
      }
    } else {
      assert forall d :: GapAffected(g, n, d) <==> GapAffected(g, s, d);
    }
  }

  lemma {:induction false} AdvanceFlags(g: Setting, s: State, cutoff: Instant)
    requires FlagsCurrent(g, s)
    ensures FlagsCurrent(g, Advance(g, s, cutoff))
    decreases |g.times| - s.next, !s.failed
  {
    hide Covered, ApplyUntil;
    if !s.failed && s.next < |g.times| && g.times[s.next] <= cutoff {
      var at := g.times[s.next];
      KeepsClock(g, s, at);
      var n := DecideOne(g, s);
      assert forall i :: 0 <= i < s.next ==> n.flags[i] == s.flags[i];
      assert forall d :: GapAffected(g, n, d) <==> GapAffected(g, s, d);
      AdvanceFlags(g, n, cutoff);
    } else if !s.failed && s.next < |g.times| {
      KeepsClock(g, s, cutoff);
      assert forall d :: GapAffected(g, ApplyUntil(g, s, cutoff), d) <==> GapAffected(g, s, d);
    } else {
      assert forall d :: GapAffected(g, s.(pending := []), d) <==> GapAffected(g, s, d);
    }
  }

  // ----- Whole runs -----

  /** What each call asks of its caller. Ticks may fall anywhere. */
  predicate Guard(g: Setting, s: State, c: Call) {
    match c
    case Ingest(envelopes) => s.next <= |g.times| && Timely(g, s, envelopes)
    case Tick(_) => true
    case Disconnected(at, unavailable) => DisconnectTimely(g, s, at, unavailable)
    case Connected(_, at) => ConnectTimely(g, s, at)
  }

  predicate Guarded(g: Setting, calls: seq<Call>)
    requires g.Valid()
  {
    forall k :: 0 <= k < |calls| ==> Guard(g, Run(g, calls[..k]), calls[k])
  }

  lemma StepInStep(g: Setting, s: State, all: seq<Envelope>, c: Call)
    requires g.Valid() && !s.failed && InStep(g, s, all) && FlagsCurrent(g, s) && Guard(g, s, c)
    requires Sorted(all)
    ensures var n := Step(g, s, c);
            !n.failed ==> InStep(g, n, all + if c.Ingest? then c.envelopes else []) && FlagsCurrent(g, n)
  {
    hide InStep, Timely, Covered, DisconnectTimely, ConnectTimely, Advance, IngestAll;
    if !c.Ingest? { assert all + [] == all; }
    match c
    case Ingest(envelopes) =>
      IngestInStep(g, s, all, envelopes);
      IngestEffect(g, s, envelopes);
    case Tick(at) =>
      AdvanceInStep(g, s, all, at - g.delay);
      AdvanceFlags(g, s, at - g.delay);
    case Disconnected(at, unavailable) =>
      var o := Open(s, at, unavailable);
      SameEngines(g, s, o, all);
      DisconnectExact(g, s, at, unavailable);
      AdvanceInStep(g, o, all, at);
      AdvanceFlags(g, o, at);
    case Connected(session, at) =>
      if !Connect(g, s, session, at).failed {
        ConnectExact(g, s, session, at);
        SameEngines(g, s, Connect(g, s, session, at), all);
      }
  }

  lemma SameEngines(g: Setting, s: State, n: State, all: seq<Envelope>)
    requires g.Valid() && InStep(g, s, all)
    requires n == s.(openGap := n.openGap, gaps := n.gaps, sessions := n.sessions, connectedAt := n.connectedAt)
    ensures InStep(g, n, all)
  {
    hide Merge;
  }

  lemma {:induction false} RunInStep(g: Setting, calls: seq<Call>)
    requires g.Valid() && Sorted(Captured(calls)) && Guarded(g, calls) && !Run(g, calls).failed
    ensures InStep(g, Run(g, calls), Captured(calls)) && FlagsCurrent(g, Run(g, calls))
  {
    if calls == [] {
      assert g.times[..0] == [];
      MergeNothing();
    } else {
      hide InStep, FlagsCurrent, Guard, Step;
      var front, last := calls[..|calls| - 1], calls[|calls| - 1];
      var all := Captured(front);
      assert forall i :: 0 <= i < |all| ==> all[i] == Captured(calls)[i];
      assert forall k :: 0 <= k < |front| ==> front[..k] == calls[..k] && front[k] == calls[k];
      assert !Run(g, front).failed by { FailureSticks(g, Run(g, front), last); }
      RunInStep(g, front);
      assert Guard(g, Run(g, calls[..|calls| - 1]), calls[|calls| - 1]);
      StepInStep(g, Run(g, front), all, last);
    }
  }

  lemma FailureSticks(g: Setting, s: State, c: Call)
    requires g.Valid()
    ensures s.failed ==> Step(g, s, c) == s
  {}

  /** However the calls split and time the input, as long as each was timely, a journal that takes all
      its clocks and closes its gaps has driven the engines exactly as batch replay of the capture does:
      same envelopes, same decisions, same order, same gap flags. */
  lemma LiveIsBatch(g: Setting, calls: seq<Call>)
    requires g.Valid() && Sorted(Captured(calls)) && Guarded(g, calls)
    requires var s := Run(g, calls); !s.failed && s.next == |g.times| && s.openGap.None?
    ensures Run(g, calls).trace == BatchTrace(g, Captured(calls), Run(g, calls).gaps)
  {
    hide Run, Merge, Covered, ReceivedBy, Guarded;
    RunInStep(g, calls);
    var s, all := Run(g, calls), Captured(calls);
    ReceivedExactly(all, g.times[|g.times| - 1], |s.applied|);
    assert g.times[..s.next] == g.times;
    OpenGapExact(g, s);
  }

  /** When the day ends, the flags are batch replay's exactly when no clock outside the recorded gaps
      was taken at or after a disconnect that is still open. */
  lemma OpenGapExact(g: Setting, s: State)
    requires FlagsCurrent(g, s) && s.next == |g.times|
    ensures s.flags == BatchFlags(g, s.gaps, |g.times|)
            <==> (s.openGap.Some? ==> forall i :: 0 <= i < s.next && TakenOutsideGaps(g, s, i) ==> g.times[i] < s.openGap.value)
  {
    hide Covered;
    var batch := BatchFlags(g, s.gaps, |g.times|);
    forall i | 0 <= i < s.next ensures batch[i] == Covered(g, s.gaps, g.times[i]) {}
    if s.flags == batch && s.openGap.Some? {
      forall i | 0 <= i < s.next && TakenOutsideGaps(g, s, i) ensures g.times[i] < s.openGap.value {
        assert s.flags[i] == batch[i];
      }
    }
  }

  // ----- Late envelopes -----

  function CountApplied(trace: seq<Event>): nat {
    if trace == [] then 0
    else CountApplied(trace[..|trace| - 1]) + if trace[|trace| - 1].Applied? then 1 else 0
  }

  /** How many envelopes the engines had seen when they first decided at `at`. */
  function SeenAt(trace: seq<Event>, at: Instant): Option<nat> {
    if trace == [] then None
    else
      var earlier, last := SeenAt(trace[..|trace| - 1], at), trace[|trace| - 1];
      if earlier.Some? then earlier
      else if last.Decided? && last.at == at then Some(CountApplied(trace[..|trace| - 1])) else None
  }

  lemma SeenMore(trace: seq<Event>, e: Event, at: Instant)
    ensures CountApplied(trace + [e]) == CountApplied(trace) + if e.Applied? then 1 else 0
    ensures SeenAt(trace + [e], at) == if SeenAt(trace, at).Some? then SeenAt(trace, at)
                                       else if e.Decided? && e.at == at then Some(CountApplied(trace)) else None
  {
    assert (trace + [e])[..|trace|] == trace;
  }

  /** In the common order, a decision sees exactly what was received by then. */
  lemma {:induction false} MergeSees(envelopes: seq<Envelope>, times: seq<Instant>, flags: seq<bool>, at: Instant)
    requires |flags| == |times| && Sorted(envelopes) && (forall i, j :: 0 <= i < j < |times| ==> times[i] < times[j])
    ensures CountApplied(Merge(envelopes, times, flags)) == |envelopes|
    ensures SeenAt(Merge(envelopes, times, flags), at) == if at in times then Some(ReceivedBy(envelopes, at)) else None
    decreases |envelopes| + |times|
  {
    hide ReceivedBy, SeenAt, CountApplied;
    var n, m := |envelopes|, |times|;
    if n == 0 && m == 0 {
      SeenNothing(at);
    } else if m == 0 || (n > 0 && envelopes[n - 1].receivedAt > times[m - 1]) {
      var fewer := envelopes[..n - 1];
      MergeSees(fewer, times, flags, at);
      SeenMore(Merge(fewer, times, flags), Applied(envelopes[n - 1]), at);
      if at in times { SameReceived(envelopes, at); }
    } else {
      var earlier := times[..m - 1];
      MergeSees(envelopes, earlier, flags[..m - 1], at);
      SeenMore(Merge(envelopes, earlier, flags[..m - 1]), Decided(times[m - 1], flags[m - 1]), at);
      if at == times[m - 1] { ReceivedExactly(envelopes, at, n); }
      assert times == earlier + [times[m - 1]];
    }
  }

  lemma SeenNothing(at: Instant)
    ensures SeenAt([], at) == None && CountApplied([]) == 0
  {}

  lemma SameReceived(envelopes: seq<Envelope>, at: Instant)
    requires envelopes != [] && envelopes[|envelopes| - 1].receivedAt > at
    ensures ReceivedBy(envelopes[..|envelopes| - 1], at) == ReceivedBy(envelopes, at)
  {
    hide ReceivedBy;
    var fewer := envelopes[..|envelopes| - 1];
    var k := ReceivedBy(fewer, at);
    assert k < |fewer| ==> envelopes[k] == fewer[k];
    ReceivedExactly(envelopes, at, k);
  }

  ghost predicate Longer(a: seq<Event>, b: seq<Event>, at: Instant) {
    SeenAt(a, at).Some? ==> SeenAt(b, at) == SeenAt(a, at)
  }

  lemma {:induction false} ApplyLonger(g: Setting, s: State, cutoff: Instant, at: Instant)
    ensures Longer(s.trace, ApplyUntil(g, s, cutoff).trace, at)
    decreases |s.pending|, !s.failed
  {
    hide SeenAt;
    if !s.failed && s.pending != [] && s.pending[0].receivedAt <= cutoff {
      SeenMore(s.trace, Applied(s.pending[0]), at);
      ApplyLonger(g, ApplyOne(g, s), cutoff, at);
    }
  }

  lemma {:induction false} AdvanceLonger(g: Setting, s: State, cutoff: Instant, at: Instant)
    ensures Longer(s.trace, Advance(g, s, cutoff).trace, at)
    decreases |g.times| - s.next, !s.failed
  {
    hide SeenAt, ApplyUntil, Covered;
    if !s.failed && s.next < |g.times| && g.times[s.next] <= cutoff {
      var d := g.times[s.next];
      var ready := ApplyUntil(g, s, d);
      ApplyLonger(g, s, d, at);
      SeenMore(ready.trace, Decided(d, GapAffected(g, ready, d)), at);
      var n := DecideOne(g, s);
      if !n.failed { AdvanceLonger(g, n, cutoff, at); }
    } else if !s.failed && s.next < |g.times| {
      ApplyLonger(g, s, cutoff, at);
    }
  }

  lemma StepLonger(g: Setting, s: State, c: Call, at: Instant)
    requires g.Valid()
    ensures Longer(s.trace, Step(g, s, c).trace, at)
  {
    hide SeenAt, Advance, IngestAll;
    match c
    case Ingest(envelopes) => IngestEffect(g, s, envelopes);
    case Tick(o) => AdvanceLonger(g, s, o - g.delay, at);
    case Disconnected(o, unavailable) => AdvanceLonger(g, Open(s, o, unavailable), o, at);
    case Connected(session, o) =>
  }

  lemma {:induction false} RunLonger(g: Setting, calls: seq<Call>, k: nat, at: Instant)
    requires g.Valid() && k <= |calls|
    ensures Longer(Run(g, calls[..k]).trace, Run(g, calls).trace, at)
  {
    hide SeenAt, Step;
    if k == |calls| {
      assert calls[..k] == calls;
    } else {
      var front := calls[..|calls| - 1];
      assert front[..k] == calls[..k];
      RunLonger(g, front, k, at);
      StepLonger(g, Run(g, front), calls[|calls| - 1], at);
    }
  }

  lemma {:induction false} CapturedPrefix(calls: seq<Call>, k: nat)
    requires k < |calls| && calls[k].Ingest?
    ensures var before, all := Captured(calls[..k]), Captured(calls);
            && |before| + |calls[k].envelopes| <= |all|
            && all[..|before|] == before
            && forall i :: 0 <= i < |calls[k].envelopes| ==> all[|before| + i] == calls[k].envelopes[i]
  {
    var front := calls[..|calls| - 1];
    if k == |calls| - 1 {
      assert calls[..k] == front;
    } else {
      assert front[..k] == calls[..k] && front[k] == calls[k];
      CapturedPrefix(front, k);
      assert Captured(calls)[..|Captured(front)|] == Captured(front);
      assert Captured(calls)[..|Captured(front[..k])|] == Captured(front)[..|Captured(front[..k])|];
    }
  }

  lemma SortedPrefix(all: seq<Envelope>, n: nat)
    requires Sorted(all) && n <= |all|
    ensures Sorted(all[..n])
  {}

  lemma LiveSees(g: Setting, s: State, all: seq<Envelope>, at: Instant)
    requires g.Valid() && InStep(g, s, all) && Sorted(all) && s.next > 0 && at == g.times[s.next - 1]
    ensures SeenAt(s.trace, at) == Some(ReceivedBy(s.applied, at))
  {
    hide Merge, SeenAt, ReceivedBy;
    MergeSees(s.applied, g.times[..s.next], s.flags, at);
    assert at == g.times[..s.next][s.next - 1];
  }

  lemma BatchSees(g: Setting, all: seq<Envelope>, gaps: seq<Gap>, at: Instant)
    requires g.Valid() && Sorted(all) && at in g.times
    ensures SeenAt(BatchTrace(g, all, gaps), at) == Some(ReceivedBy(all[..ReceivedBy(all, g.times[|g.times| - 1])], at))
  {
    hide Merge, SeenAt, ReceivedBy;
    MergeSees(all[..ReceivedBy(all, g.times[|g.times| - 1])], g.times, BatchFlags(g, gaps, |g.times|), at);
  }

  lemma LateCount(g: Setting, s: State, before: seq<Envelope>, all: seq<Envelope>, envelopes: seq<Envelope>, at: Instant, last: nat)
    requires g.Valid() && Sorted(all) && InStep(g, s, before) && s.next > 0 && at == g.times[s.next - 1]
    requires |before| + |envelopes| <= |all| && all[..|before|] == before
    requires forall i :: 0 <= i < |envelopes| ==> all[|before| + i] == envelopes[i]
    requires exists i :: 0 <= i < |envelopes| && envelopes[i].receivedAt <= at
    requires last == ReceivedBy(all, g.times[|g.times| - 1])
    ensures ReceivedBy(s.applied, at) < ReceivedBy(all[..last], at)
  {
    hide ReceivedBy, Merge;
    var i :| 0 <= i < |envelopes| && envelopes[i].receivedAt <= at;
    var late := |before| + i;
    assert all[late].receivedAt <= at <= g.times[|g.times| - 1];
    assert last > late;
    var n := ReceivedBy(all[..last], at);
    assert n < |all[..last]| ==> all[..last][n].receivedAt > at;
    assert n > late;
    assert ReceivedBy(s.applied, at) <= |s.applied| <= |before|;
  }

  // ----- Concrete disagreements -----

  /** One decision, ten seconds into the day; a cadence of five seconds, which is also the live delay, and a
      warm-up of fifteen minutes. */
  const SAMPLE := Setting([CLOCK], 900 * SECOND, 5 * SECOND, 0, 86_400 * SECOND)
  const CLOCK: Instant := 10 * SECOND

  lemma {:induction false} FirstClock(s: State, cutoff: Instant)
    requires s.next == 0 && s.pending == [] && !s.failed && cutoff >= CLOCK
    ensures Advance(SAMPLE, s, cutoff) == s.(trace := s.trace + [Decided(CLOCK, GapAffected(SAMPLE, s, CLOCK))],
                                             flags := s.flags + [GapAffected(SAMPLE, s, CLOCK)], next := 1)
  {
    assert SAMPLE.times[0] == CLOCK;
    var n := DecideOne(SAMPLE, s);
    assert Advance(SAMPLE, n, cutoff) == n.(pending := []);
  }

  /** A disconnect no earlier than the last decision taken, but at its very instant, is too early:
      batch replay flags that decision and the journal has not. The tick that took the decision ran the
      live delay ahead, and the disconnect is reported as of the last receipt. */
  lemma DisconnectAtTakenClock()
    ensures var calls := [Connected(1, 0), Tick(15 * SECOND), Disconnected(CLOCK, true), Connected(2, 20 * SECOND)];
            var s := Run(SAMPLE, calls);
            && !s.failed && s.next == |SAMPLE.times| && s.openGap.None?
            && s.trace == [Decided(CLOCK, false)] && BatchTrace(SAMPLE, Captured(calls), s.gaps) == [Decided(CLOCK, true)]
  {
    hide Advance, Run, BatchTrace, Captured;
    var a, b, c, d := Connected(1, 0), Tick(15 * SECOND), Disconnected(CLOCK, true), Connected(2, 20 * SECOND);
    var s1 := Step(SAMPLE, START, a);
    FirstClock(s1, CLOCK);
    var s2 := Step(SAMPLE, s1, b);
    var gapped := Open(s2, CLOCK, true);
    assert Advance(SAMPLE, gapped, CLOCK) == gapped by { ClocksDone(gapped, CLOCK); }
    var s3 := Step(SAMPLE, s2, c);
    var s4 := Step(SAMPLE, s3, d);
    FourCalls(SAMPLE, a, b, c, d);
    var gap := Gap(CLOCK, 20 * SECOND);
    assert s4.gaps == [gap] && Covered(SAMPLE, s4.gaps, CLOCK) by { assert s4.gaps[0] == gap; }
    SampleBatch([], s4.gaps);
    NothingCaptured(a, b, c, d);
  }

  /** A gap of no length is forgotten by the record but not by the decision taken in it. */
  lemma ZeroLengthGap()
    ensures var calls := [Connected(1, 0), Tick(10 * SECOND), Disconnected(CLOCK, true), Connected(2, CLOCK)];
            var s := Run(SAMPLE, calls);
            && !s.failed && s.next == |SAMPLE.times| && s.openGap.None?
            && s.trace == [Decided(CLOCK, true)] && BatchTrace(SAMPLE, Captured(calls), s.gaps) == [Decided(CLOCK, false)]
  {
    hide Advance, Run, BatchTrace, Captured, Covered;
    var a, b, c, d := Connected(1, 0), Tick(10 * SECOND), Disconnected(CLOCK, true), Connected(2, CLOCK);
    var s1 := Step(SAMPLE, START, a);
    assert Advance(SAMPLE, s1, 5 * SECOND) == s1 by { NotYet(s1, 5 * SECOND); }
    var s2 := Step(SAMPLE, s1, b);
    FirstClock(Open(s2, CLOCK, true), CLOCK);
    var s3 := Step(SAMPLE, s2, c);
    var s4 := Step(SAMPLE, s3, d);
    FourCalls(SAMPLE, a, b, c, d);
    assert !Covered(SAMPLE, [], CLOCK) by { NoGap(CLOCK); }
    SampleBatch([], s4.gaps);
    NothingCaptured(a, b, c, d);
  }

  lemma NoGap(at: Instant)
    ensures !Covered(SAMPLE, [], at)
  {}

  lemma ClocksDone(s: State, cutoff: Instant)
    requires s.next == 1 && s.pending == [] && !s.failed
    ensures Advance(SAMPLE, s, cutoff) == s
  {}

  lemma NotYet(s: State, cutoff: Instant)
    requires s.next == 0 && s.pending == [] && !s.failed && cutoff < CLOCK
    ensures Advance(SAMPLE, s, cutoff) == s
  {
    assert SAMPLE.times[0] == CLOCK;
  }

  lemma FourCalls(g: Setting, a: Call, b: Call, c: Call, d: Call)
    requires g.Valid()
    ensures Run(g, [a, b, c, d]) == Step(g, Step(g, Step(g, Step(g, START, a), b), c), d)
  {
    hide Step;
    assert [a, b, c, d][..3] == [a, b, c] && [a, b, c][..2] == [a, b] && [a, b][..1] == [a] && [a][..0] == [];
    assert Run(g, [a]) == Step(g, START, a);
    assert Run(g, [a, b]) == Step(g, Step(g, START, a), b);
    assert Run(g, [a, b, c]) == Step(g, Step(g, Step(g, START, a), b), c);
  }

  lemma NothingCaptured(a: Call, b: Call, c: Call, d: Call)
    requires !a.Ingest? && !b.Ingest? && !c.Ingest? && !d.Ingest?
    ensures Captured([a, b, c, d]) == []
  {
    assert [a, b, c, d][..3] == [a, b, c] && [a, b, c][..2] == [a, b] && [a, b][..1] == [a] && [a][..0] == [];
    assert Captured([a]) == [];
    assert Captured([a, b]) == [];
    assert Captured([a, b, c]) == [];
  }

  lemma SampleBatch(envelopes: seq<Envelope>, gaps: seq<Gap>)
    requires envelopes == []
    ensures BatchTrace(SAMPLE, envelopes, gaps) == [Decided(CLOCK, Covered(SAMPLE, gaps, CLOCK))]
  {
    var flags := BatchFlags(SAMPLE, gaps, 1);
    assert flags == [Covered(SAMPLE, gaps, CLOCK)];
    MergeNothing();
    MergeDecision([], [], [], CLOCK, Covered(SAMPLE, gaps, CLOCK));
    assert [] + [CLOCK] == SAMPLE.times && [] + flags == flags;
  }
}
