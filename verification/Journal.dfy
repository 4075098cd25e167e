/** The shadow journal's clockwork: which engine calls it makes, in which order, with which flags.
    Feature, context and arbitration engines see nothing of the journal but this trace. */
module Journal {
  import opened Prelude

  datatype Envelope = Envelope(receivedAt: Instant, body: Digest)
  datatype Gap = Gap(startedAt: Instant, endedAt: Instant)

  /** One call into the engines. */
  datatype Event = Applied(envelope: Envelope) | Decided(at: Instant, gapFlag: bool)

  /** The decision clocks of the day, the warm-up, the live delay and the market date's bounds. */
  datatype Setting = Setting(times: seq<Instant>, warmup: nat, delay: nat, dayStart: Instant, dayEnd: Instant)
  {
    predicate Valid() {
      times != [] && forall i, j :: 0 <= i < j < |times| ==> times[i] < times[j]
    }

    predicate OnDay(at: Instant) { dayStart <= at < dayEnd }
  }

  /** `applied`, `flags` and `trace` record what the engines were asked to do. */
  datatype State = State(pending: seq<Envelope>, next: nat, lastIngested: Option<Instant>, openGap: Option<Instant>,
                         gaps: seq<Gap>, sessions: seq<Ident>, connectedAt: Option<Instant>, failed: bool,
                         applied: seq<Envelope>, flags: seq<bool>, trace: seq<Event>)

  const START := State([], 0, None, None, [], [], None, false, [], [], [])

  predicate Covered(g: Setting, gaps: seq<Gap>, at: Instant) {
    exists i :: 0 <= i < |gaps| && gaps[i].startedAt <= at < gaps[i].endedAt + g.warmup
  }

  predicate GapAffected(g: Setting, s: State, at: Instant) {
    (s.openGap.Some? && at >= s.openGap.value) || Covered(g, s.gaps, at)
  }

  /** The feature engine refuses an envelope received before the last decision it has emitted. */
  predicate TooLate(g: Setting, s: State, e: Envelope) {
    0 < s.next <= |g.times| && e.receivedAt < g.times[s.next - 1]
  }

  function ApplyOne(g: Setting, s: State): State
    requires s.pending != []
  {
    if TooLate(g, s, s.pending[0]) then s.(failed := true)
    else s.(pending := s.pending[1..], applied := s.applied + [s.pending[0]], trace := s.trace + [Applied(s.pending[0])])
  }

  function ApplyUntil(g: Setting, s: State, cutoff: Instant): State
    decreases |s.pending|, !s.failed
  {
    if s.failed || s.pending == [] || s.pending[0].receivedAt > cutoff then s else ApplyUntil(g, ApplyOne(g, s), cutoff)
  }

  function DecideOne(g: Setting, s: State): State
    requires s.next < |g.times|
  {
    var at := g.times[s.next];
    var ready := ApplyUntil(g, s, at);
    var flag := GapAffected(g, ready, at);
    if ready.failed then ready
    else ready.(trace := ready.trace + [Decided(at, flag)], flags := ready.flags + [flag], next := s.next + 1)
  }

  function Advance(g: Setting, s: State, cutoff: Instant): State
    decreases |g.times| - s.next, !s.failed
  {
    if s.failed then s
    else if s.next < |g.times| && g.times[s.next] <= cutoff then
      var n := DecideOne(g, s);
      if n.failed then n else Advance(g, n, cutoff)
    else if s.next >= |g.times| then s.(pending := [])
    else ApplyUntil(g, s, cutoff)
  }

  function IngestOne(g: Setting, s: State, e: Envelope): State {
    if s.failed then s
    else if (s.lastIngested.Some? && e.receivedAt < s.lastIngested.value) || !g.OnDay(e.receivedAt) then s.(failed := true)
    else s.(pending := s.pending + [e], lastIngested := Some(e.receivedAt))
  }

  function IngestAll(g: Setting, s: State, envelopes: seq<Envelope>): State {
    if envelopes == [] then s else IngestOne(g, IngestAll(g, s, envelopes[..|envelopes| - 1]), envelopes[|envelopes| - 1])
  }

  function Open(s: State, at: Instant, unavailable: bool): State {
    if unavailable && s.openGap.None? then s.(openGap := Some(at)) else s
  }

  function Connect(g: Setting, s: State, session: Ident, at: Instant): State
    requires g.Valid()
  {
    if session in s.sessions || !g.OnDay(at) || (s.connectedAt.None? && at > g.times[0]) then s.(failed := true)
    else
      var n := s.(connectedAt := if s.connectedAt.None? then Some(at) else s.connectedAt, sessions := s.sessions + [session]);
      if s.openGap.None? then n
      else if at < s.openGap.value then n.(failed := true)
      else n.(gaps := if at > s.openGap.value then s.gaps + [Gap(s.openGap.value, at)] else s.gaps, openGap := None)
  }

  datatype Call =
    | Ingest(envelopes: seq<Envelope>)
    | Tick(observedAt: Instant)
    | Disconnected(at: Instant, unavailable: bool)
    | Connected(session: Ident, connectedAt: Instant)

  /** One call from the capture process; a failed journal ignores everything. */
  function Step(g: Setting, s: State, c: Call): State
    requires g.Valid()
  {
    if s.failed then s
    else match c
      case Ingest(envelopes) => if s.next == |g.times| then s else IngestAll(g, s, envelopes)
      case Tick(at) => Advance(g, s, at - g.delay)
      case Disconnected(at, unavailable) => Advance(g, Open(s, at, unavailable), at)
      case Connected(session, at) => Connect(g, s, session, at)
  }

  function Run(g: Setting, calls: seq<Call>): State
    requires g.Valid()
  {
    if calls == [] then START else Step(g, Run(g, calls[..|calls| - 1]), calls[|calls| - 1])
  }

  // ----- The journal object -----

  lemma {:induction false} IngestFailureSticks(g: Setting, s: State, envelopes: seq<Envelope>, k: nat)
    requires k <= |envelopes| && IngestAll(g, s, envelopes[..k]).failed
    ensures IngestAll(g, s, envelopes) == IngestAll(g, s, envelopes[..k])
  {
    if k == |envelopes| {
      assert envelopes[..k] == envelopes;
    } else {
      var front := envelopes[..|envelopes| - 1];
      assert front[..k] == envelopes[..k];
      IngestFailureSticks(g, s, front, k);
    }
  }

  class ShadowJournal {
    const setting: Setting
    var state: State

    constructor (setting: Setting)
      requires setting.Valid()
      ensures this.setting == setting && state == START
    {
      this.setting, state := setting, START;
    }

    method IngestCall(envelopes: seq<Envelope>)
      requires setting.Valid()
      modifies this`state
      ensures state == Step(setting, old(state), Ingest(envelopes))
    {
      if state.failed || state.next == |setting.times| {
        return;
      }
      ghost var start := state;
      for i := 0 to |envelopes|
        invariant state == IngestAll(setting, start, envelopes[..i]) && !state.failed
      {
        var envelope := envelopes[i];
        assert envelopes[..i + 1][..i] == envelopes[..i];
        if (state.lastIngested.Some? && envelope.receivedAt < state.lastIngested.value) || !setting.OnDay(envelope.receivedAt) {
          state := state.(failed := true);
          IngestFailureSticks(setting, start, envelopes, i + 1);
          return;
        }
        state := state.(pending := state.pending + [envelope], lastIngested := Some(envelope.receivedAt));
      }
      assert envelopes[..|envelopes|] == envelopes;
    }

    method ApplyPending(cutoff: Instant)
      modifies this`state
      ensures state == ApplyUntil(setting, old(state), cutoff)
    {
      while !state.failed && state.pending != [] && state.pending[0].receivedAt <= cutoff
        invariant ApplyUntil(setting, state, cutoff) == ApplyUntil(setting, old(state), cutoff)
        decreases |state.pending|, !state.failed
      {
        state := ApplyOne(setting, state);
      }
    }

    method AdvanceTo(cutoff: Instant)
      modifies this`state
      ensures state == Advance(setting, old(state), cutoff)
    {
      while !state.failed && state.next < |setting.times| && setting.times[state.next] <= cutoff
        invariant Advance(setting, state, cutoff) == Advance(setting, old(state), cutoff)
        decreases |setting.times| - state.next, !state.failed
      {
        ghost var before := state;
        var at := setting.times[state.next];
        ApplyPending(at);
        KeepsClock(setting, before, at);
        if !state.failed {
          var flag := GapAffected(setting, state, at);
          state := state.(trace := state.trace + [Decided(at, flag)], flags := state.flags + [flag], next := state.next + 1);
        }
        assert state == DecideOne(setting, before);
      }
      if state.failed {
        return;
      }
      if state.next >= |setting.times| {
        state := state.(pending := []);
      } else {
        ApplyPending(cutoff);
      }
    }

    method TickCall(observedAt: Instant)
      requires setting.Valid()
      modifies this`state
      ensures state == Step(setting, old(state), Tick(observedAt))
    {
      if !state.failed {
        AdvanceTo(observedAt - setting.delay);
      }
    }

    method DisconnectedCall(at: Instant, unavailable: bool)
      requires setting.Valid()
      modifies this`state
      ensures state == Step(setting, old(state), Disconnected(at, unavailable))
    {
      if state.failed {
        return;
      }
      if unavailable && state.openGap.None? {
        state := state.(openGap := Some(at));
      }
      AdvanceTo(at);
    }

    method ConnectedCall(session: Ident, at: Instant)
      requires setting.Valid()
      modifies this`state
      ensures state == Step(setting, old(state), Connected(session, at))
    {
      if !state.failed {
        state := Connect(setting, state, session, at);
      }
    }
  }

  lemma {:induction false} KeepsClock(g: Setting, s: State, cutoff: Instant)
    ensures var n := ApplyUntil(g, s, cutoff);
            n.next == s.next && n.flags == s.flags && n.gaps == s.gaps && n.openGap == s.openGap
    decreases |s.pending|, !s.failed
  {
    if !s.failed && s.pending != [] && s.pending[0].receivedAt <= cutoff {
      KeepsClock(g, ApplyOne(g, s), cutoff);
    }
  }
}
