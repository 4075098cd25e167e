/** Whole journal runs against batch replay: exactly which courses of calls agree. */
module JournalExact {
  import opened Prelude
  import opened Journal
  import opened JournalReplay

  // ----- Reading the calls -----

  /** How far a call advances the decision clocks. */
  function Cutoff(g: Setting, c: Call): Option<Instant> {
    match c
    case Tick(at) => Some(at - g.delay)
    case Disconnected(at, _) => Some(at)
    case _ => None
  }

  predicate Reaches(g: Setting, c: Call, at: Instant) {
    Cutoff(g, c).Some? && at <= Cutoff(g, c).value
  }

  /** Some of these calls has reached the clock. */
  predicate Passed(g: Setting, calls: seq<Call>, at: Instant) {
    exists k :: 0 <= k < |calls| && Reaches(g, calls[k], at)
  }

  /** The call that takes a clock: the first to reach it. */
  function TakingCall(g: Setting, calls: seq<Call>, at: Instant): (k: nat)
    requires Passed(g, calls, at)
    ensures k < |calls| && Reaches(g, calls[k], at) && !Passed(g, calls[..k], at)
  {
    if Passed(g, calls[..|calls| - 1], at) then
      var k := TakingCall(g, calls[..|calls| - 1], at);
      assert calls[..|calls| - 1][..k] == calls[..k];
      k
    else
      PassedMore(g, calls[..|calls| - 1], calls[|calls| - 1], at);
      assert calls[..|calls| - 1] + [calls[|calls| - 1]] == calls;
      |calls| - 1
  }

  /** The open gap and the recorded ones, from the instants of disconnects and reconnects alone. */
  datatype Gaps = Gaps(open: Option<Instant>, recorded: seq<Gap>)

  function GapsOf(calls: seq<Call>): Gaps {
    if calls == [] then Gaps(None, [])
    else
      var before := GapsOf(calls[..|calls| - 1]);
      match calls[|calls| - 1]
      case Disconnected(at, unavailable) => if unavailable && before.open.None? then before.(open := Some(at)) else before
      case Connected(_, at) =>
        if before.open.None? then before
        else Gaps(None, if at > before.open.value then before.recorded + [Gap(before.open.value, at)] else before.recorded)
      case _ => before
  }

  /** No envelope is delivered after a clock at or before which it was received was taken. */
  predicate EnvelopesTimely(g: Setting, calls: seq<Call>) {
    forall k :: 0 <= k < |calls| && calls[k].Ingest? ==> DeliveryTimely(g, calls[..k], calls[k].envelopes)
  }

  predicate DeliveryTimely(g: Setting, before: seq<Call>, envelopes: seq<Envelope>) {
    forall e, i :: 0 <= e < |envelopes| && 0 <= i < |g.times| && Passed(g, before, g.times[i]) ==> g.times[i] < envelopes[e].receivedAt
  }

  /** Some gap recorded only after the first `n` covers the instant. */
  predicate CoveredLater(g: Setting, gaps: seq<Gap>, n: nat, at: Instant) {
    exists i :: n <= i < |gaps| && gaps[i].startedAt <= at < gaps[i].endedAt + g.warmup
  }

  /** The clock at `at` was taken inside a gap already recorded; or else it was taken after the instant of
      an open disconnect if and only if a gap recorded later, by the instants of its disconnect and
      reconnect, covers it. */
  predicate ClockSettled(g: Setting, calls: seq<Call>, at: Instant)
    requires Passed(g, calls, at)
  {
    var known := GapsOf(calls[..TakingCall(g, calls, at) + 1]);
    || Covered(g, known.recorded, at)
    || ((known.open.Some? && known.open.value <= at) <==> CoveredLater(g, GapsOf(calls).recorded, |known.recorded|, at))
  }

  // ----- What a run has done, read off its calls -----

  predicate Affected(g: Setting, gaps: Gaps, at: Instant) {
    (gaps.open.Some? && at >= gaps.open.value) || Covered(g, gaps.recorded, at)
  }

  /** One advance: which clocks it takes, and with which flag. */
  ghost predicate Advanced(g: Setting, s: State, n: State, cutoff: Instant) {
    && n.gaps == s.gaps && n.openGap == s.openGap
    && |s.flags| == s.next <= n.next <= |g.times| && |n.flags| == n.next
    && (forall i :: 0 <= i < |g.times| ==> (i < n.next <==> i < s.next || g.times[i] <= cutoff))
    && (forall i :: 0 <= i < s.next ==> n.flags[i] == s.flags[i])
    && (forall i :: s.next <= i < n.next ==> (n.flags[i] <==> GapAffected(g, s, g.times[i])))
  }

  lemma {:induction false} AdvanceTakes(g: Setting, s: State, cutoff: Instant)
    requires g.Valid() && s.next <= |g.times| && |s.flags| == s.next && !Advance(g, s, cutoff).failed
    ensures Advanced(g, s, Advance(g, s, cutoff), cutoff)
    decreases |g.times| - s.next
  {
    hide Covered, ApplyUntil;
    if s.next < |g.times| && g.times[s.next] <= cutoff {
      KeepsClock(g, s, g.times[s.next]);
      var n := DecideOne(g, s);
      AdvanceTakes(g, n, cutoff);
      assert forall d :: GapAffected(g, n, d) <==> GapAffected(g, s, d);
      var last := Advance(g, n, cutoff);
      assert forall i :: 0 <= i < s.next ==> n.flags[i] == s.flags[i];
    } else if s.next < |g.times| {
      KeepsClock(g, s, cutoff);
    }
  }

  /** The state's clocks, gaps and flags, from the calls alone. */
  ghost predicate Read(g: Setting, calls: seq<Call>, s: State) {
    && s.gaps == GapsOf(calls).recorded && s.openGap == GapsOf(calls).open
    && s.next <= |g.times| && |s.flags| == s.next
    && (forall i :: 0 <= i < |g.times| ==> (i < s.next <==> Passed(g, calls, g.times[i])))
    && (forall i :: 0 <= i < s.next && Passed(g, calls, g.times[i]) ==>
          (s.flags[i] <==> Affected(g, GapsOf(calls[..TakingCall(g, calls, g.times[i]) + 1]), g.times[i])))
  }

  lemma PassedMore(g: Setting, calls: seq<Call>, c: Call, at: Instant)
    ensures Passed(g, calls + [c], at) <==> Passed(g, calls, at) || Reaches(g, c, at)
  {
    var all := calls + [c];
    if Passed(g, calls, at) {
      var k :| 0 <= k < |calls| && Reaches(g, calls[k], at);
      assert all[k] == calls[k];
    }
    if Reaches(g, c, at) { assert all[|calls|] == c; }
    if Passed(g, all, at) {
      var k :| 0 <= k < |all| && Reaches(g, all[k], at);
      assert k < |calls| ==> calls[k] == all[k];
    }
  }

  /** A clock already taken keeps its taking call; a new one is taken by the new call. */
  lemma TakingMore(g: Setting, calls: seq<Call>, c: Call, at: Instant)
    requires Passed(g, calls + [c], at)
    ensures Passed(g, calls, at) ==>
              (calls + [c])[..TakingCall(g, calls + [c], at) + 1] == calls[..TakingCall(g, calls, at) + 1]
    ensures !Passed(g, calls, at) ==> (calls + [c])[..TakingCall(g, calls + [c], at) + 1] == calls + [c]
  {
    var all := calls + [c];
    assert all[..|all| - 1] == calls;
    if Passed(g, calls, at) {
      var k := TakingCall(g, calls, at);
      assert TakingCall(g, all, at) == k;
      assert all[..k + 1] == calls[..k + 1];
    }
  }

  /** What a call leaves of the gaps before any clock is taken. */
  lemma GapsMore(calls: seq<Call>, c: Call)
    ensures GapsOf(calls + [c]) == (
              var before := GapsOf(calls);
              match c
              case Disconnected(at, unavailable) => if unavailable && before.open.None? then before.(open := Some(at)) else before
              case Connected(_, at) =>
                if before.open.None? then before
                else Gaps(None, if at > before.open.value then before.recorded + [Gap(before.open.value, at)] else before.recorded)
              case _ => before)
  {
    assert (calls + [c])[..|calls|] == calls;
  }

  lemma AdvanceReads(g: Setting, calls: seq<Call>, c: Call, s: State, opening: State, cutoff: Instant)
    requires g.Valid() && Read(g, calls, s) && Cutoff(g, c) == Some(cutoff)
    requires opening == s.(openGap := opening.openGap)
    requires opening.gaps == GapsOf(calls + [c]).recorded && opening.openGap == GapsOf(calls + [c]).open
    requires !Advance(g, opening, cutoff).failed
    ensures Read(g, calls + [c], Advance(g, opening, cutoff))
  {
    hide Advance, Covered, GapsOf, TakingCall, Passed;
    AdvanceTakes(g, opening, cutoff);
    var n, all := Advance(g, opening, cutoff), calls + [c];
    forall i | 0 <= i < |g.times| ensures i < n.next <==> Passed(g, all, g.times[i]) {
      PassedMore(g, calls, c, g.times[i]);
    }
    forall i | 0 <= i < n.next && Passed(g, all, g.times[i])
      ensures n.flags[i] <==> Affected(g, GapsOf(all[..TakingCall(g, all, g.times[i]) + 1]), g.times[i])
    {
      TakingMore(g, calls, c, g.times[i]);
      assert i < s.next <==> Passed(g, calls, g.times[i]);
    }
  }

  /** A call that advances nothing. */
  lemma QuietReads(g: Setting, calls: seq<Call>, c: Call, s: State, n: State)
    requires Read(g, calls, s) && Cutoff(g, c) == None && n.next == s.next && n.flags == s.flags
    requires n.gaps == GapsOf(calls + [c]).recorded && n.openGap == GapsOf(calls + [c]).open
    ensures Read(g, calls + [c], n)
  {
    hide Covered, GapsOf, TakingCall, Passed;
    var all := calls + [c];
    forall i | 0 <= i < |g.times| ensures i < n.next <==> Passed(g, all, g.times[i]) {
      PassedMore(g, calls, c, g.times[i]);
    }
    forall i | 0 <= i < n.next && Passed(g, all, g.times[i])
      ensures n.flags[i] <==> Affected(g, GapsOf(all[..TakingCall(g, all, g.times[i]) + 1]), g.times[i])
    {
      PassedMore(g, calls, c, g.times[i]);
      TakingMore(g, calls, c, g.times[i]);
    }
  }

  lemma StepReads(g: Setting, calls: seq<Call>, c: Call, s: State)
    requires g.Valid() && Read(g, calls, s) && !s.failed && !Step(g, s, c).failed
    ensures Read(g, calls + [c], Step(g, s, c))
  {
    hide Read, Advance, IngestAll, GapsOf;
    GapsMore(calls, c);
    assert s.gaps == GapsOf(calls).recorded && s.openGap == GapsOf(calls).open by { ReadGaps(g, calls, s); }
    match c
    case Ingest(envelopes) =>
      IngestEffect(g, s, envelopes);
      QuietReads(g, calls, c, s, Step(g, s, c));
    case Tick(at) => AdvanceReads(g, calls, c, s, s, at - g.delay);
    case Disconnected(at, unavailable) => AdvanceReads(g, calls, c, s, Open(s, at, unavailable), at);
    case Connected(session, at) => QuietReads(g, calls, c, s, Step(g, s, c));
  }

  lemma ReadGaps(g: Setting, calls: seq<Call>, s: State)
    requires Read(g, calls, s)
    ensures s.gaps == GapsOf(calls).recorded && s.openGap == GapsOf(calls).open
  {}

  lemma {:induction false} RunReads(g: Setting, calls: seq<Call>)
    requires g.Valid() && !Run(g, calls).failed
    ensures Read(g, calls, Run(g, calls))
  {
    if calls != [] {
      hide Read, Step;
      var front, last := calls[..|calls| - 1], calls[|calls| - 1];
      assert !Run(g, front).failed by { FailureSticks(g, Run(g, front), last); }
      RunReads(g, front);
      StepReads(g, front, last, Run(g, front));
      assert front + [last] == calls;
    }
  }

  // ----- Gaps only grow -----

  lemma {:induction false} GapsGrow(calls: seq<Call>, k: nat)
    requires k <= |calls|
    ensures var a, b := GapsOf(calls[..k]).recorded, GapsOf(calls).recorded; |a| <= |b| && b[..|a|] == a
  {
    if k == |calls| {
      assert calls[..k] == calls;
    } else {
      var front := calls[..|calls| - 1];
      assert front[..k] == calls[..k];
      GapsGrow(front, k);
    }
  }

  lemma CoveredSplit(g: Setting, gaps: seq<Gap>, n: nat, at: Instant)
    requires n <= |gaps|
    ensures Covered(g, gaps, at) <==> Covered(g, gaps[..n], at) || CoveredLater(g, gaps, n, at)
  {
    if Covered(g, gaps, at) {
      var i :| 0 <= i < |gaps| && gaps[i].startedAt <= at < gaps[i].endedAt + g.warmup;
      assert i < n ==> gaps[..n][i] == gaps[i];
    }
    if Covered(g, gaps[..n], at) {
      var i :| 0 <= i < n && gaps[..n][i].startedAt <= at < gaps[..n][i].endedAt + g.warmup;
      assert gaps[i] == gaps[..n][i];
    }
  }

  /** The flag a clock was taken with is the one the recorded gaps give, exactly when it is settled. */
  lemma SettledMeans(g: Setting, calls: seq<Call>, at: Instant)
    requires Passed(g, calls, at)
    ensures ClockSettled(g, calls, at)
            <==> (Affected(g, GapsOf(calls[..TakingCall(g, calls, at) + 1]), at) <==> Covered(g, GapsOf(calls).recorded, at))
  {
    hide Covered, CoveredLater, GapsOf, Passed, TakingCall;
    var k := TakingCall(g, calls, at) + 1;
    GapsGrow(calls, k);
    CoveredSplit(g, GapsOf(calls).recorded, |GapsOf(calls[..k]).recorded|, at);
  }

  // ----- Envelopes -----

  lemma TimelyMeans(g: Setting, calls: seq<Call>, s: State, envelopes: seq<Envelope>)
    requires g.Valid() && Read(g, calls, s)
    ensures DeliveryTimely(g, calls, envelopes) <==> Timely(g, s, envelopes)
  {
    hide Passed, GapsOf, TakingCall, Covered;
    if Timely(g, s, envelopes) {
      forall e, i | 0 <= e < |envelopes| && 0 <= i < |g.times| && Passed(g, calls, g.times[i]) ensures g.times[i] < envelopes[e].receivedAt {
        assert i < s.next;
        assert i < s.next - 1 ==> g.times[i] < g.times[s.next - 1];
      }
    }
    if DeliveryTimely(g, calls, envelopes) && s.next > 0 {
      assert Passed(g, calls, g.times[s.next - 1]);
    }
  }

  /** With timely envelopes the engines stay in step, whatever happens to the gaps. */
  lemma {:induction false} TimelyInStep(g: Setting, calls: seq<Call>)
    requires g.Valid() && Sorted(Captured(calls)) && EnvelopesTimely(g, calls) && !Run(g, calls).failed
    ensures InStep(g, Run(g, calls), Captured(calls))
  {
    hide Merge, Step, DeliveryTimely;
    if calls == [] {
      assert g.times[..0] == [];
      MergeNothing();
    } else {
      hide InStep;
      var front, last := calls[..|calls| - 1], calls[|calls| - 1];
      var s, all := Run(g, front), Captured(front);
      SortedPrefix(Captured(calls), |all|);
      assert Captured(calls)[..|all|] == all;
      assert forall k :: 0 <= k < |front| ==> front[..k] == calls[..k] && front[k] == calls[k];
      assert !s.failed by { FailureSticks(g, s, last); }
      TimelyInStep(g, front);
      RunReads(g, front);
      if last.Ingest? {
        assert DeliveryTimely(g, calls[..|calls| - 1], calls[|calls| - 1].envelopes);
        TimelyMeans(g, front, s, last.envelopes);
      }
      EnginesInStep(g, s, all, last);
    }
  }

  lemma EnginesInStep(g: Setting, s: State, all: seq<Envelope>, c: Call)
    requires g.Valid() && !s.failed && InStep(g, s, all) && Sorted(all) && s.next <= |g.times|
    requires c.Ingest? ==> Timely(g, s, c.envelopes)
    ensures !Step(g, s, c).failed ==> InStep(g, Step(g, s, c), all + if c.Ingest? then c.envelopes else [])
  {
    hide InStep, Timely, Covered, Advance, IngestAll;
    if !c.Ingest? { assert all + [] == all; }
    match c
    case Ingest(envelopes) => IngestInStep(g, s, all, envelopes);
    case Tick(at) => AdvanceInStep(g, s, all, at - g.delay);
    case Disconnected(at, unavailable) =>
      SameEngines(g, s, Open(s, at, unavailable), all);
      AdvanceInStep(g, Open(s, at, unavailable), all, at);
    case Connected(session, at) =>
      if !Connect(g, s, session, at).failed { SameEngines(g, s, Connect(g, s, session, at), all); }
  }

  /** If one call delivers an envelope received no later than a clock already taken, no later course of
      events makes the journal agree with batch replay. At the very instant of that clock the engines
      do not even notice. */
  lemma LateEnvelopeDiverges(g: Setting, calls: seq<Call>, k: nat, gaps: seq<Gap>)
    requires g.Valid() && k < |calls| && calls[k].Ingest? && Sorted(Captured(calls))
    requires EnvelopesTimely(g, calls[..k]) && !Run(g, calls[..k]).failed
    requires !DeliveryTimely(g, calls[..k], calls[k].envelopes)
    ensures Run(g, calls).trace != BatchTrace(g, Captured(calls), gaps)
  {
    hide Run, Merge, SeenAt, ReceivedBy, Captured, EnvelopesTimely, DeliveryTimely, InStep, BatchTrace, Sorted, Read;
    var before, all := Captured(calls[..k]), Captured(calls);
    CapturedPrefix(calls, k);
    assert Sorted(before) by { SortedPrefix(all, |before|); }
    TimelyInStep(g, calls[..k]);
    RunReads(g, calls[..k]);
    var s := Run(g, calls[..k]);
    assert s.next <= |g.times| by { Bounded(g, s, before); }
    TimelyMeans(g, calls[..k], s, calls[k].envelopes);
    var at := g.times[s.next - 1];
    LiveSees(g, s, before, at);
    RunLonger(g, calls, k, at);
    BatchSees(g, all, gaps, at);
    LateCount(g, s, before, all, calls[k].envelopes, at, ReceivedBy(all, g.times[|g.times| - 1]));
  }

  lemma FirstUntimely(g: Setting, calls: seq<Call>) returns (k: nat)
    requires !EnvelopesTimely(g, calls)
    ensures k < |calls| && calls[k].Ingest? && !DeliveryTimely(g, calls[..k], calls[k].envelopes) && EnvelopesTimely(g, calls[..k])
  {
    hide DeliveryTimely;
    k := 0;
    while calls[k].Ingest? ==> DeliveryTimely(g, calls[..k], calls[k].envelopes)
      invariant k < |calls|
      invariant forall j :: 0 <= j < k && calls[j].Ingest? ==> DeliveryTimely(g, calls[..j], calls[j].envelopes)
      invariant exists j :: k <= j < |calls| && calls[j].Ingest? && !DeliveryTimely(g, calls[..j], calls[j].envelopes)
      decreases |calls| - k
    {
      k := k + 1;
    }
    var front := calls[..k];
    forall j | 0 <= j < |front| && front[j].Ingest? ensures DeliveryTimely(g, front[..j], front[j].envelopes) {
      assert front[..j] == calls[..j] && front[j] == calls[j];
    }
  }

  lemma {:induction false} NoFailureBefore(g: Setting, calls: seq<Call>, k: nat)
    requires g.Valid() && k <= |calls| && !Run(g, calls).failed
    ensures !Run(g, calls[..k]).failed
  {
    hide Step;
    if k == |calls| {
      assert calls[..k] == calls;
    } else {
      var front := calls[..|calls| - 1];
      assert front[..k] == calls[..k];
      FailureSticks(g, Run(g, front), calls[|calls| - 1]);
      NoFailureBefore(g, front, k);
    }
  }

  // ----- Flags -----

  /** Equal merges of the same envelopes and clocks carry equal flags. */
  lemma {:induction false} MergeFlags(envelopes: seq<Envelope>, times: seq<Instant>, a: seq<bool>, b: seq<bool>)
    requires |a| == |times| == |b| && Merge(envelopes, times, a) == Merge(envelopes, times, b)
    ensures a == b
    decreases |envelopes| + |times|
  {
    var n, m := |envelopes|, |times|;
    if m > 0 && n > 0 && envelopes[n - 1].receivedAt > times[m - 1] {
      var e := Applied(envelopes[n - 1]);
      LastEqual(Merge(envelopes[..n - 1], times, a), e, Merge(envelopes[..n - 1], times, b), e);
      MergeFlags(envelopes[..n - 1], times, a, b);
    } else if m > 0 {
      var x, y := a[..m - 1], b[..m - 1];
      LastEqual(Merge(envelopes, times[..m - 1], x), Decided(times[m - 1], a[m - 1]),
                Merge(envelopes, times[..m - 1], y), Decided(times[m - 1], b[m - 1]));
      MergeFlags(envelopes, times[..m - 1], x, y);
      assert a == x + [a[m - 1]] && b == y + [b[m - 1]];
    }
  }

  lemma LastEqual(a: seq<Event>, x: Event, b: seq<Event>, y: Event)
    requires a + [x] == b + [y]
    ensures a == b && x == y
  {
    assert |a| == |b|;
    assert a == (a + [x])[..|a|] && b == (b + [y])[..|b|];
    assert (a + [x])[|a|] == x && (b + [y])[|b|] == y;
  }

  /** Live agrees with batch exactly: a journal that took all its clocks has driven the engines as batch
      replay of the capture and the recorded gaps does, if and only if every envelope was delivered
      before any clock at or after its receipt was taken, and every clock is settled by the instants of
      the disconnects and reconnects around it. A gap still open counts like one never recorded. */
  lemma LiveIsBatchExactly(g: Setting, calls: seq<Call>)
    requires g.Valid() && Sorted(Captured(calls)) && !Run(g, calls).failed && Run(g, calls).next == |g.times|
    ensures forall i :: 0 <= i < |g.times| ==> Passed(g, calls, g.times[i])
    ensures Run(g, calls).trace == BatchTrace(g, Captured(calls), GapsOf(calls).recorded)
            <==> EnvelopesTimely(g, calls) && forall i :: 0 <= i < |g.times| ==> ClockSettled(g, calls, g.times[i])
    ensures Run(g, calls).gaps == GapsOf(calls).recorded
  {
    hide Run, Merge, Covered, GapsOf, ClockSettled, Captured, EnvelopesTimely, Sorted, Passed, TakingCall, Affected;
    RunReads(g, calls);
    var s, all := Run(g, calls), Captured(calls);
    if !EnvelopesTimely(g, calls) {
      var k := FirstUntimely(g, calls);
      NoFailureBefore(g, calls, k);
      LateEnvelopeDiverges(g, calls, k, GapsOf(calls).recorded);
    } else {
      TimelyInStep(g, calls);
      TimelyTrace(g, s, all, GapsOf(calls).recorded);
      var batch := BatchFlags(g, GapsOf(calls).recorded, |g.times|);
      forall i | 0 <= i < |g.times| ensures ClockSettled(g, calls, g.times[i]) <==> s.flags[i] == batch[i] {
        SettledMeans(g, calls, g.times[i]);
      }
      assert s.flags == batch <==> forall i :: 0 <= i < |g.times| ==> ClockSettled(g, calls, g.times[i]) by { SameFlags(g, calls, s.flags, batch); }
    }
  }

  lemma SameFlags(g: Setting, calls: seq<Call>, a: seq<bool>, b: seq<bool>)
    requires |a| == |b| == |g.times| && (forall i :: 0 <= i < |g.times| ==> Passed(g, calls, g.times[i]))
    requires forall i :: 0 <= i < |g.times| ==> (ClockSettled(g, calls, g.times[i]) <==> a[i] == b[i])
    ensures a == b <==> forall i :: 0 <= i < |g.times| ==> ClockSettled(g, calls, g.times[i])
  {
    hide ClockSettled, Passed;
  }

  /** With the engines in step at the end of the day, the traces are equal exactly when the flags are. */
  lemma TimelyTrace(g: Setting, s: State, all: seq<Envelope>, gaps: seq<Gap>)
    requires g.Valid() && InStep(g, s, all) && s.next == |g.times|
    ensures s.trace == BatchTrace(g, all, gaps) <==> s.flags == BatchFlags(g, gaps, |g.times|)
  {
    hide Merge, Covered, ReceivedBy, BatchFlags;
    ReceivedExactly(all, g.times[|g.times| - 1], |s.applied|);
    assert g.times[..s.next] == g.times;
    var batch := BatchFlags(g, gaps, |g.times|);
    assert |batch| == |g.times| by { FlagCount(g, gaps); }
    if s.trace == BatchTrace(g, all, gaps) { MergeFlags(s.applied, g.times, s.flags, batch); }
  }

  lemma FlagCount(g: Setting, gaps: seq<Gap>)
    ensures |BatchFlags(g, gaps, |g.times|)| == |g.times|
  {}

  // ----- Exactly when a call fails -----

  /** The instant an envelope of a delivery must not be before. */
  function IngestedBefore(last: Option<Instant>, envelopes: seq<Envelope>, k: nat): Option<Instant>
    requires k < |envelopes|
  {
    if k == 0 then last else Some(envelopes[k - 1].receivedAt)
  }

  predicate Ingestible(g: Setting, last: Option<Instant>, envelopes: seq<Envelope>) {
    forall k :: 0 <= k < |envelopes| ==>
      && g.dayStart <= envelopes[k].receivedAt < g.dayEnd
      && (IngestedBefore(last, envelopes, k).Some? ==> IngestedBefore(last, envelopes, k).value <= envelopes[k].receivedAt)
  }

  lemma IngestibleMore(g: Setting, last: Option<Instant>, envelopes: seq<Envelope>)
    requires envelopes != []
    ensures var k := |envelopes| - 1;
            Ingestible(g, last, envelopes) <==>
              && Ingestible(g, last, envelopes[..k]) && g.dayStart <= envelopes[k].receivedAt < g.dayEnd
              && (IngestedBefore(last, envelopes, k).Some? ==> IngestedBefore(last, envelopes, k).value <= envelopes[k].receivedAt)
  {
    var front := envelopes[..|envelopes| - 1];
    forall k | 0 <= k < |front| ensures front[k] == envelopes[k] && IngestedBefore(last, front, k) == IngestedBefore(last, envelopes, k) {}
    if Ingestible(g, last, envelopes) {
      forall k | 0 <= k < |front|
        ensures g.dayStart <= front[k].receivedAt < g.dayEnd
        ensures IngestedBefore(last, front, k).Some? ==> IngestedBefore(last, front, k).value <= front[k].receivedAt
      {
        assert g.dayStart <= envelopes[k].receivedAt;
      }
    }
  }

  lemma {:induction false} IngestsExactly(g: Setting, s: State, envelopes: seq<Envelope>)
    requires !s.failed
    ensures !IngestAll(g, s, envelopes).failed <==> Ingestible(g, s.lastIngested, envelopes)
    ensures !IngestAll(g, s, envelopes).failed ==>
              IngestAll(g, s, envelopes).lastIngested == if envelopes == [] then s.lastIngested else Some(envelopes[|envelopes| - 1].receivedAt)
  {
    if envelopes == [] {
    } else {
      hide Ingestible;
      IngestsExactly(g, s, envelopes[..|envelopes| - 1]);
      IngestibleMore(g, s.lastIngested, envelopes);
    }
  }

  /** Every pending envelope was received in order. */
  predicate PendingSorted(s: State) {
    forall i, j :: 0 <= i < j < |s.pending| ==> s.pending[i].receivedAt <= s.pending[j].receivedAt
  }

  /** The first pending envelope is due by then, although a clock past its receipt has been taken. */
  predicate Stale(g: Setting, s: State, cutoff: Instant) {
    && 0 < s.next < |g.times| && s.pending != []
    && s.pending[0].receivedAt <= cutoff && s.pending[0].receivedAt < g.times[s.next - 1]
  }

  lemma {:induction false} AppliesExactly(g: Setting, s: State, cutoff: Instant)
    requires !s.failed && PendingSorted(s) && s.next < |g.times|
    ensures ApplyUntil(g, s, cutoff).failed <==> Stale(g, s, cutoff)
    ensures var n := ApplyUntil(g, s, cutoff);
            !n.failed ==> PendingSorted(n) && n.next == s.next && (n.pending == [] || n.pending[0].receivedAt > cutoff)
    decreases |s.pending|
  {
    if s.pending != [] && s.pending[0].receivedAt <= cutoff && !TooLate(g, s, s.pending[0]) {
      AppliesExactly(g, ApplyOne(g, s), cutoff);
    }
  }

  lemma {:induction false} AdvancesExactly(g: Setting, s: State, cutoff: Instant)
    requires g.Valid() && !s.failed && PendingSorted(s) && s.next <= |g.times|
    ensures Advance(g, s, cutoff).failed <==> Stale(g, s, cutoff)
    decreases |g.times| - s.next
  {
    if s.next < |g.times| {
      if g.times[s.next] <= cutoff {
        var at := g.times[s.next];
        AppliesExactly(g, s, at);
        assert 0 < s.next ==> g.times[s.next - 1] < at;
        var n := DecideOne(g, s);
        if !n.failed { AdvancesExactly(g, n, cutoff); }
      } else {
        AppliesExactly(g, s, cutoff);
      }
    }
  }

  /** A call fails exactly for the reasons the journal names: envelopes out of receipt order or off the day, a
      session seen before, a connection off the day, after the first clock or before the gap it closes, or a
      pending envelope that a clock has already overtaken. Once all clocks are taken, deliveries are ignored. */
  lemma CallFailsExactly(g: Setting, s: State, c: Call)
    requires g.Valid() && !s.failed && PendingSorted(s) && s.next <= |g.times|
    ensures Step(g, s, c).failed <==>
              match c
              case Ingest(envelopes) => s.next < |g.times| && !Ingestible(g, s.lastIngested, envelopes)
              case Connected(session, at) =>
                || session in s.sessions || at < g.dayStart || g.dayEnd <= at
                || (s.connectedAt.None? && g.times[0] < at)
                || (s.openGap.Some? && at < s.openGap.value)
              case Tick(at) => Stale(g, s, at - g.delay)
              case Disconnected(at, _) => Stale(g, s, at)
  {
    hide IngestAll, Advance, Ingestible;
    match c
    case Ingest(envelopes) => IngestsExactly(g, s, envelopes);
    case Tick(at) => AdvancesExactly(g, s, at - g.delay);
    case Disconnected(at, unavailable) => AdvancesExactly(g, Open(s, at, unavailable), at);
    case Connected(_, _) =>
  }

  /** In every run that has not failed, what is pending is in receipt order. */
  lemma {:induction false} RunPendingSorted(g: Setting, calls: seq<Call>)
    requires g.Valid() && !Run(g, calls).failed
    ensures PendingSorted(Run(g, calls)) && Run(g, calls).next <= |g.times|
    ensures var s := Run(g, calls); s.pending != [] ==> s.lastIngested == Some(s.pending[|s.pending| - 1].receivedAt)
  {
    if calls != [] {
      hide Step;
      var front, last := calls[..|calls| - 1], calls[|calls| - 1];
      assert !Run(g, front).failed by { FailureSticks(g, Run(g, front), last); }
      RunPendingSorted(g, front);
      StepPendingSorted(g, Run(g, front), last);
    }
  }

  ghost predicate Waiting(g: Setting, s: State) {
    PendingSorted(s) && s.next <= |g.times| && (s.pending != [] ==> s.lastIngested == Some(s.pending[|s.pending| - 1].receivedAt))
  }

  lemma StepPendingSorted(g: Setting, s: State, c: Call)
    requires g.Valid() && !s.failed && Waiting(g, s) && !Step(g, s, c).failed
    ensures Waiting(g, Step(g, s, c))
  {
    match c
    case Ingest(envelopes) => if s.next < |g.times| { IngestWaiting(g, s, envelopes); }
    case Tick(at) => AdvanceWaiting(g, s, at - g.delay);
    case Disconnected(at, unavailable) => AdvanceWaiting(g, Open(s, at, unavailable), at);
    case Connected(_, _) =>
  }

  lemma {:induction false} IngestWaiting(g: Setting, s: State, envelopes: seq<Envelope>)
    requires !s.failed && Waiting(g, s) && !IngestAll(g, s, envelopes).failed
    ensures Waiting(g, IngestAll(g, s, envelopes))
  {
    if envelopes != [] { IngestWaiting(g, s, envelopes[..|envelopes| - 1]); }
  }

  lemma {:induction false} ApplyWaiting(g: Setting, s: State, cutoff: Instant)
    requires Waiting(g, s)
    ensures Waiting(g, ApplyUntil(g, s, cutoff)) && ApplyUntil(g, s, cutoff).next == s.next
    decreases |s.pending|
  {
    if !s.failed && s.pending != [] && s.pending[0].receivedAt <= cutoff && !TooLate(g, s, s.pending[0]) {
      ApplyWaiting(g, ApplyOne(g, s), cutoff);
    }
  }

  lemma {:induction false} AdvanceWaiting(g: Setting, s: State, cutoff: Instant)
    requires g.Valid() && Waiting(g, s) && s.next <= |g.times|
    ensures Waiting(g, Advance(g, s, cutoff))
    decreases |g.times| - s.next
  {
    if !s.failed && s.next < |g.times| {
      if g.times[s.next] <= cutoff {
        ApplyWaiting(g, s, g.times[s.next]);
        var n := DecideOne(g, s);
        if !n.failed { AdvanceWaiting(g, n, cutoff); }
      } else {
        ApplyWaiting(g, s, cutoff);
      }
    }
  }
}
