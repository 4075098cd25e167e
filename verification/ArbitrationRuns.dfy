/** Whole arbitration runs: what holds of every clock and across all of them. */
module ArbitrationRuns {
  import opened Prelude
  import opened Sorting
  import opened Arbitration
  import opened Arbitrator

  // ----- One clock -----

  lemma {:induction false} BoundedByLabels<T>(s: set<T>, tag: T -> nat, n: nat)
    requires forall x :: x in s ==> tag(x) < n
    requires forall x, y :: x in s && y in s && tag(x) == tag(y) ==> x == y
    ensures |s| <= n
  {
    if n == 0 {
      assert s == {};
    } else if x :| x in s && tag(x) == n - 1 {
      BoundedByLabels(s - {x}, tag, n - 1);
    } else {
      BoundedByLabels(s, tag, n - 1);
    }
  }

  lemma SelectedPriority(p: Policy, m: Memory, all: set<Candidate>, c: Candidate)
    requires OneClock(all) && Chosen(p, m, all, c)
    ensures Wins(p, m, all, c) && Fate(p, m, all, c) == Selected(Rank(p, m, all, c)) && Rank(p, m, all, c) < p.maximumSelections
  {
    hide Rank, Better, Fate;
    FateIsCausal(p, m, all, c);
    GroupFate(p, m, all, c, c);
  }

  /** Of two winners the better has the smaller rank. */
  lemma RanksDiffer(p: Policy, m: Memory, all: set<Candidate>, a: Candidate, b: Candidate)
    requires OneClock(all) && Wins(p, m, all, a) && Wins(p, m, all, b) && BetterAcross(p, a, b)
    ensures Rank(p, m, all, a) < Rank(p, m, all, b)
  {
    var ws := Winners(p, m, all);
    var before, after := set w | w in ws && BetterAcross(p, w, a), set w | w in ws && BetterAcross(p, w, b);
    hide Wins;
    BetterIsOrder(p, all);
    WinsInAll(p, m, all);
    Transitive(p, ws, a, b);
    assert before <= after && a in after && a !in before;
    ProperSubset(before, after, a);
  }

  lemma Transitive(p: Policy, ws: set<Candidate>, a: Candidate, b: Candidate)
    requires BetterAcross(p, a, b)
    ensures forall w :: w in ws && BetterAcross(p, w, a) ==> BetterAcross(p, w, b)
    ensures !BetterAcross(p, a, a)
  {}

  lemma ProperSubset<T>(a: set<T>, b: set<T>, x: T)
    requires a <= b && x in b && x !in a
    ensures |a| < |b|
  {
    assert a <= b - {x};
    Subset(a, b - {x});
  }

  lemma {:induction false} Subset<T>(a: set<T>, b: set<T>)
    requires a <= b
    ensures |a| <= |b|
    decreases a
  {
    if x :| x in a { Subset(a - {x}, b - {x}); }
  }

  /** A clock selects at most the cap, and at most one candidate of a symbol. */
  lemma ClockIsCapped(p: Policy, m: Memory, all: set<Candidate>)
    requires OneClock(all)
    ensures |set c | c in all && Chosen(p, m, all, c)| <= p.maximumSelections
    ensures forall c, d :: c in all && d in all && Chosen(p, m, all, c) && Chosen(p, m, all, d) && c.symbol == d.symbol ==> c == d
  {
    hide Fate, Rank, Wins, BetterAcross;
    var chosen := set c | c in all && Chosen(p, m, all, c);
    var tag := (c: Candidate) => Rank(p, m, all, c);
    forall c | c in chosen ensures tag(c) < p.maximumSelections {
      SelectedPriority(p, m, all, c);
    }
    forall c, d | c in chosen && d in chosen && tag(c) == tag(d) ensures c == d {
      SelectedPriority(p, m, all, c);
      SelectedPriority(p, m, all, d);
      BetterIsOrder(p, all);
      if c != d {
        assert BetterAcross(p, c, d) || BetterAcross(p, d, c) by { Comparable(p, all, c, d); }
        if BetterAcross(p, c, d) { RanksDiffer(p, m, all, c, d); } else { RanksDiffer(p, m, all, d, c); }
      }
    }
    BoundedByLabels(chosen, tag, p.maximumSelections);
    forall c, d | c in all && d in all && Chosen(p, m, all, c) && Chosen(p, m, all, d) && c.symbol == d.symbol ensures c == d {
      FateIsCausal(p, m, all, c);
    }
  }

  lemma Comparable(p: Policy, all: set<Candidate>, a: Candidate, b: Candidate)
    requires OneClock(all) && a in all && b in all && a != b
    ensures BetterAcross(p, a, b) || BetterAcross(p, b, a)
  {}

  /** Every candidate of a clock gets exactly one verdict. */
  lemma ExactlyOneVerdict(p: Policy, m: Memory, cs: seq<Candidate>, c: Candidate)
    requires DecideClock(p, m, cs).Ok? && c in cs
    ensures var verdicts := DecideClock(p, m, cs).value.verdicts;
            && |verdicts| == |cs|
            && (exists i :: 0 <= i < |verdicts| && verdicts[i].candidate == c.sha)
            && (forall i, j :: 0 <= i < j < |verdicts| ==> verdicts[i].candidate != verdicts[j].candidate)
  {
    hide ClockError, Fate, Remembered, ListedBefore, InListOrder;
    AdmittedClock(p, m, cs);
    ListOrder(p, cs);
    var listed := InListOrder(p, cs);
    var verdicts := DecideClock(p, m, cs).value.verdicts;
    assert c in listed;
    var i :| 0 <= i < |listed| && listed[i] == c;
    assert verdicts[i].candidate == c.sha;
    var less := (a, b) => ListedBefore(p, a, b);
    BetterIsOrder(p, Elements(cs));
    forall i, j | 0 <= i < j < |verdicts| ensures verdicts[i].candidate != verdicts[j].candidate {
      assert listed[i] in Elements(listed) && listed[j] in Elements(listed) && less(listed[i], listed[j]);
    }
  }

  // ----- Runs -----

  ghost function RunClocks(p: Policy, groups: seq<seq<Candidate>>): Result<Decision, ArbitrationError> {
    if groups == [] then Ok(Decision(Memory(map[], None), []))
    else
      var before :- RunClocks(p, groups[..|groups| - 1]);
      var last :- DecideClock(p, before.memory, groups[|groups| - 1]);
      Ok(Decision(last.memory, before.verdicts + last.verdicts))
  }

  /** A verdict's selection is remembered, and what is remembered was selected. */
  ghost predicate Faithful(verdicts: seq<Verdict>, m: Memory) {
    && (forall i :: 0 <= i < |verdicts| && verdicts[i].outcome.Selected? ==>
          verdicts[i].symbol in m.lastSelected && verdicts[i].clock.decisionAt <= m.lastSelected[verdicts[i].symbol].at)
    && (forall s :: s in m.lastSelected ==> Named(verdicts, s, m.lastSelected[s].sha))
  }

  ghost predicate Named(verdicts: seq<Verdict>, symbol: Ident, sha: Digest) {
    exists i :: 0 <= i < |verdicts| && verdicts[i].outcome.Selected? && verdicts[i].symbol == symbol && verdicts[i].candidate == sha
  }

  /** Selections of one symbol are at least the cooldown apart, so their horizons never overlap. */
  ghost predicate Apart(p: Policy, verdicts: seq<Verdict>) {
    forall i, j :: (0 <= i < j < |verdicts| && verdicts[i].outcome.Selected? && verdicts[j].outcome.Selected? && verdicts[i].symbol == verdicts[j].symbol) ==>
      && verdicts[i].clock.decisionAt + p.cooldownSeconds * SECOND <= verdicts[j].clock.decisionAt
      && verdicts[i].clock.decisionAt + verdicts[i].horizonSeconds * SECOND <= verdicts[j].clock.decisionAt
  }

  /** Every candidate a rejection names was really selected, for the same symbol. */
  ghost predicate Lineage(verdicts: seq<Verdict>) {
    forall i :: 0 <= i < |verdicts| && verdicts[i].outcome.Rejected? && verdicts[i].outcome.behind.Some? ==>
      Named(verdicts, verdicts[i].symbol, verdicts[i].outcome.behind.value)
  }

  lemma NamedMore(a: seq<Verdict>, b: seq<Verdict>)
    ensures forall s, sha :: Named(a, s, sha) ==> Named(a + b, s, sha)
    ensures forall s, sha :: Named(b, s, sha) ==> Named(a + b, s, sha)
  {
    forall s, sha | Named(a, s, sha) ensures Named(a + b, s, sha) {
      var i :| 0 <= i < |a| && a[i].outcome.Selected? && a[i].symbol == s && a[i].candidate == sha;
      assert (a + b)[i] == a[i];
    }
    forall s, sha | Named(b, s, sha) ensures Named(a + b, s, sha) {
      var i :| 0 <= i < |b| && b[i].outcome.Selected? && b[i].symbol == s && b[i].candidate == sha;
      assert (a + b)[|a| + i] == b[i];
    }
  }

  // What one clock adds, in terms of the memory it started from.

  ghost predicate Timed(p: Policy, verdicts: seq<Verdict>, at: Instant) {
    forall i :: 0 <= i < |verdicts| ==> verdicts[i].clock.decisionAt == at && verdicts[i].horizonSeconds <= p.cooldownSeconds
  }

  ghost predicate Admitted(p: Policy, m: Memory, d: Decision, at: Instant) {
    && (forall i :: 0 <= i < |d.verdicts| && d.verdicts[i].outcome.Selected? ==>
          && !Cooling(p, m, d.verdicts[i].symbol, at)
          && d.verdicts[i].symbol in d.memory.lastSelected && d.memory.lastSelected[d.verdicts[i].symbol].at == at)
    && (forall i, j :: 0 <= i < j < |d.verdicts| && d.verdicts[i].outcome.Selected? && d.verdicts[j].outcome.Selected? ==>
          d.verdicts[i].symbol != d.verdicts[j].symbol)
  }

  ghost predicate Traced(m: Memory, verdicts: seq<Verdict>) {
    forall i :: 0 <= i < |verdicts| && verdicts[i].outcome.Rejected? && verdicts[i].outcome.behind.Some? ==>
      || (verdicts[i].symbol in m.lastSelected && m.lastSelected[verdicts[i].symbol].sha == verdicts[i].outcome.behind.value)
      || Named(verdicts, verdicts[i].symbol, verdicts[i].outcome.behind.value)
  }

  ghost predicate Recorded(p: Policy, m: Memory, d: Decision, at: Instant) {
    && (forall s :: s in d.memory.lastSelected ==>
          || (s in m.lastSelected && d.memory.lastSelected[s] == m.lastSelected[s])
          || Named(d.verdicts, s, d.memory.lastSelected[s].sha))
    && (forall s :: s in m.lastSelected ==>
          && s in d.memory.lastSelected
          && (d.memory.lastSelected[s] == m.lastSelected[s] || (d.memory.lastSelected[s].at == at && !Cooling(p, m, s, at))))
  }

  ghost predicate ClockFacts(p: Policy, m: Memory, d: Decision, at: Instant) {
    Timed(p, d.verdicts, at) && Admitted(p, m, d, at) && Traced(m, d.verdicts) && Recorded(p, m, d, at)
  }

  lemma ClockStep(p: Policy, front: seq<Verdict>, m: Memory, d: Decision, at: Instant)
    requires forall i :: 0 <= i < |front| ==> front[i].horizonSeconds <= p.cooldownSeconds
    requires Faithful(front, m) && Apart(p, front) && Lineage(front) && ClockFacts(p, m, d, at)
    ensures var all := front + d.verdicts; Faithful(all, d.memory) && Apart(p, all) && Lineage(all)
  {
    var all := front + d.verdicts;
    NamedMore(front, d.verdicts);
    StepFaithful(p, front, m, d, at);
    StepApart(p, front, m, d, at);
    hide Named, Cooling;
    forall i | 0 <= i < |all| && all[i].outcome.Rejected? && all[i].outcome.behind.Some?
      ensures Named(all, all[i].symbol, all[i].outcome.behind.value)
    {
      if i < |front| { assert all[i] == front[i]; } else { assert all[i] == d.verdicts[i - |front|]; }
    }
  }

  lemma StepFaithful(p: Policy, front: seq<Verdict>, m: Memory, d: Decision, at: Instant)
    requires Faithful(front, m) && ClockFacts(p, m, d, at)
    ensures Faithful(front + d.verdicts, d.memory)
  {
    var all := front + d.verdicts;
    NamedMore(front, d.verdicts);
    hide Named;
    forall i | 0 <= i < |all| && all[i].outcome.Selected?
      ensures all[i].symbol in d.memory.lastSelected && all[i].clock.decisionAt <= d.memory.lastSelected[all[i].symbol].at
    {
      if i < |front| { assert all[i] == front[i]; } else { assert all[i] == d.verdicts[i - |front|]; }
    }
  }

  lemma StepApart(p: Policy, front: seq<Verdict>, m: Memory, d: Decision, at: Instant)
    requires Faithful(front, m) && Apart(p, front) && ClockFacts(p, m, d, at)
    requires forall i :: 0 <= i < |front| ==> front[i].horizonSeconds <= p.cooldownSeconds
    ensures Apart(p, front + d.verdicts)
  {
    hide Named, Lineage;
    var all := front + d.verdicts;
    forall k | 0 <= k < |all| ensures all[k] == if k < |front| then front[k] else d.verdicts[k - |front|] {}
    forall i, j | 0 <= i < j < |all| && all[i].outcome.Selected? && all[j].outcome.Selected? && all[i].symbol == all[j].symbol
      ensures all[i].clock.decisionAt + p.cooldownSeconds * SECOND <= all[j].clock.decisionAt
      ensures all[i].clock.decisionAt + all[i].horizonSeconds * SECOND <= all[j].clock.decisionAt
    {}
  }

  /** The listing of a clock, candidate by candidate. */
  ghost predicate ListingOf(p: Policy, m: Memory, all: set<Candidate>, listed: seq<Candidate>, verdicts: seq<Verdict>)
    requires OneClock(all)
  {
    && |verdicts| == |listed| && Elements(listed) == all && Distinct(listed)
    && (forall i :: 0 <= i < |listed| ==> listed[i] in all && verdicts[i] == VerdictOn(p, listed[i], Fate(p, m, all, listed[i])))
  }

  lemma {:induction false} DecideListing(p: Policy, m: Memory, cs: seq<Candidate>)
    requires DecideClock(p, m, cs).Ok?
    ensures cs != [] && OneClock(Elements(cs)) && (forall c :: c in cs ==> c.When() == cs[0].When() && c.strategy in p.rules)
    ensures ListingOf(p, m, Elements(cs), InListOrder(p, cs), DecideClock(p, m, cs).value.verdicts)
    ensures DecideClock(p, m, cs).value.memory == Remembered(p, m, Elements(cs), cs[0].When())
  {
    hide ClockError, Fate, Remembered, ListedBefore, InListOrder, CompleteMatrix, SameClock, DistinctShas, Policy.Contains, Clock.Before, OneClock, Ordered;
    AdmittedClock(p, m, cs);
    NoClockError(p, m, cs);
    ListOrder(p, cs);
    ListedOnce(p, cs);
    hide Distinct;
    var listed := InListOrder(p, cs);
    assert forall i :: 0 <= i < |listed| ==> listed[i] in cs;
  }

  lemma ListedOnce(p: Policy, cs: seq<Candidate>)
    requires OneClock(Elements(cs)) && Distinct(cs)
    ensures Distinct(InListOrder(p, cs))
  {
    ListOrder(p, cs);
    BetterIsOrder(p, Elements(cs));
    var listed := InListOrder(p, cs);
    var less := (a, b) => ListedBefore(p, a, b);
    hide ListedBefore, InListOrder;
    forall i, j | 0 <= i < j < |listed| ensures listed[i] != listed[j] {
      assert less(listed[i], listed[j]) && listed[i] in Elements(listed);
    }
  }

  /** Selecting a candidate is what the memory then holds for its symbol. */
  lemma MemoryOfChosen(p: Policy, m: Memory, all: set<Candidate>, clock: Clock, c: Candidate)
    requires OneClock(all) && Chosen(p, m, all, c)
    ensures !Cooling(p, m, c.symbol, c.decisionAt)
    ensures var n := Remembered(p, m, all, clock); c.symbol in n.lastSelected && n.lastSelected[c.symbol] == Pick(clock.decisionAt, c.sha)
  {
    hide Fate, Rank, Wins, Strong, Cooling;
    ClockIsCapped(p, m, all);
    FateIsCausal(p, m, all, c);
    assert c.symbol in ChosenSymbols(p, m, all);
  }

  lemma ClockAdmits(p: Policy, m: Memory, all: set<Candidate>, clock: Clock, listed: seq<Candidate>, verdicts: seq<Verdict>)
    requires OneClock(all) && ListingOf(p, m, all, listed, verdicts) && forall c :: c in all ==> c.decisionAt == clock.decisionAt
    ensures Admitted(p, m, Decision(Remembered(p, m, all, clock), verdicts), clock.decisionAt)
  {
    hide Fate, Cooling, Remembered;
    forall i | 0 <= i < |verdicts| && verdicts[i].outcome.Selected?
      ensures !Cooling(p, m, verdicts[i].symbol, clock.decisionAt)
      ensures var n := Remembered(p, m, all, clock); verdicts[i].symbol in n.lastSelected && n.lastSelected[verdicts[i].symbol].at == clock.decisionAt
    {
      MemoryOfChosen(p, m, all, clock, listed[i]);
    }
    ClockIsCapped(p, m, all);
    forall i, j | 0 <= i < j < |verdicts| && verdicts[i].outcome.Selected? && verdicts[j].outcome.Selected?
      ensures verdicts[i].symbol != verdicts[j].symbol
    {
      assert Chosen(p, m, all, listed[i]) && Chosen(p, m, all, listed[j]);
    }
  }

  lemma ChosenNamed(p: Policy, m: Memory, all: set<Candidate>, listed: seq<Candidate>, verdicts: seq<Verdict>, c: Candidate)
    requires OneClock(all) && ListingOf(p, m, all, listed, verdicts) && Chosen(p, m, all, c)
    ensures Named(verdicts, c.symbol, c.sha)
  {
    hide Fate;
    assert c in Elements(listed);
    var i :| 0 <= i < |listed| && listed[i] == c;
    assert verdicts[i].outcome.Selected?;
  }

  lemma ClockTraces(p: Policy, m: Memory, all: set<Candidate>, listed: seq<Candidate>, verdicts: seq<Verdict>)
    requires OneClock(all) && ListingOf(p, m, all, listed, verdicts)
    ensures Traced(m, verdicts)
  {
    hide Fate, Named, Chosen;
    forall i | 0 <= i < |verdicts| && verdicts[i].outcome.Rejected? && verdicts[i].outcome.behind.Some?
      ensures || (verdicts[i].symbol in m.lastSelected && m.lastSelected[verdicts[i].symbol].sha == verdicts[i].outcome.behind.value)
              || Named(verdicts, verdicts[i].symbol, verdicts[i].outcome.behind.value)
    {
      var c := listed[i];
      FateIsCausal(p, m, all, c);
      if w :| w in all && w.symbol == c.symbol && w.sha == verdicts[i].outcome.behind.value && Chosen(p, m, all, w) {
        ChosenNamed(p, m, all, listed, verdicts, w);
      }
    }
  }

  lemma ClockRecords(p: Policy, m: Memory, all: set<Candidate>, clock: Clock, listed: seq<Candidate>, verdicts: seq<Verdict>)
    requires OneClock(all) && ListingOf(p, m, all, listed, verdicts) && forall c :: c in all ==> c.decisionAt == clock.decisionAt
    ensures Recorded(p, m, Decision(Remembered(p, m, all, clock), verdicts), clock.decisionAt)
  {
    hide Fate, Named, Chosen, Cooling, LatestPick;
    var n := Remembered(p, m, all, clock);
    forall s | s in n.lastSelected
      ensures || (s in m.lastSelected && n.lastSelected[s] == m.lastSelected[s])
              || (Named(verdicts, s, n.lastSelected[s].sha) && n.lastSelected[s].at == clock.decisionAt && !Cooling(p, m, s, clock.decisionAt))
    {
      if s in ChosenSymbols(p, m, all) {
        var c :| c in all && Chosen(p, m, all, c) && c.symbol == s;
        MemoryOfChosen(p, m, all, clock, c);
        ChosenNamed(p, m, all, listed, verdicts, c);
      } else {
        NotChosen(p, m, all, clock, s);
      }
    }
  }

  lemma NotChosen(p: Policy, m: Memory, all: set<Candidate>, clock: Clock, s: Ident)
    requires OneClock(all) && s in m.lastSelected && s !in ChosenSymbols(p, m, all)
    ensures s in Remembered(p, m, all, clock).lastSelected && Remembered(p, m, all, clock).lastSelected[s] == m.lastSelected[s]
  {
    hide Chosen;
  }

  /** The facts of a clock, from the rule. */
  lemma {:induction false} DecideFacts(p: Policy, m: Memory, cs: seq<Candidate>)
    requires p.Valid() && DecideClock(p, m, cs).Ok?
    ensures ClockFacts(p, m, DecideClock(p, m, cs).value, cs[0].decisionAt)
  {
    hide ClockError, Fate, Remembered, InListOrder, Cooling, Admitted, Traced, Recorded, DecideClock;
    DecideListing(p, m, cs);
    var all, listed, d, clock := Elements(cs), InListOrder(p, cs), DecideClock(p, m, cs).value, cs[0].When();
    forall c | c in all ensures c.decisionAt == clock.decisionAt && c.strategy in p.rules { assert c.When() == clock; }
    assert d == Decision(Remembered(p, m, all, clock), d.verdicts);
    ClockAdmits(p, m, all, clock, listed, d.verdicts);
    ClockTraces(p, m, all, listed, d.verdicts);
    ClockRecords(p, m, all, clock, listed, d.verdicts);
  }

  /** Over every run: selections of a symbol keep the cooldown, horizons never overlap, and every
      candidate named by a rejection was really selected. */
  lemma {:induction false} RunsAreSafe(p: Policy, groups: seq<seq<Candidate>>)
    requires p.Valid() && RunClocks(p, groups).Ok?
    ensures var d := RunClocks(p, groups).value;
            && Apart(p, d.verdicts) && Lineage(d.verdicts) && Faithful(d.verdicts, d.memory)
            && forall i :: 0 <= i < |d.verdicts| ==> d.verdicts[i].horizonSeconds <= p.cooldownSeconds
  {
    hide DecideClock, Apart, Lineage, Faithful, ClockFacts, Policy.Valid;
    if groups == [] {
      EmptyRun(p);
    } else {
      var front := groups[..|groups| - 1];
      RunsAreSafe(p, front);
      var before := RunClocks(p, front).value;
      var last := DecideClock(p, before.memory, groups[|groups| - 1]).value;
      DecideFacts(p, before.memory, groups[|groups| - 1]);
      DecideNonEmpty(p, before.memory, groups[|groups| - 1]);
      ClockStep(p, before.verdicts, before.memory, last, groups[|groups| - 1][0].decisionAt);
      FactsTimed(p, before.memory, last, groups[|groups| - 1][0].decisionAt);
    }
  }

  lemma EmptyRun(p: Policy)
    ensures Apart(p, []) && Lineage([]) && Faithful([], Memory(map[], None))
  {}

  lemma DecideNonEmpty(p: Policy, m: Memory, cs: seq<Candidate>)
    requires DecideClock(p, m, cs).Ok?
    ensures cs != []
  {}

  lemma FactsTimed(p: Policy, m: Memory, d: Decision, at: Instant)
    requires ClockFacts(p, m, d, at)
    ensures Timed(p, d.verdicts, at)
  {}
}
