/** Outcome-blind arbitration of one decision clock: the rule, stated without any order of evaluation,
    and the arbitrator object that computes it. */
module Arbitration {
  import opened Prelude
  import opened Sorting

  datatype Rule = Rule(priority: nat, minimumStrength: real, horizonSeconds: nat)

  datatype Policy = Policy(candidateVersion: Ident, effectiveFrom: Day, effectiveTo: Option<Day>,
                           cooldownSeconds: nat, maximumSelections: nat, rules: map<Ident, Rule>)
  {
    predicate Valid() {
      && maximumSelections >= 1 && |rules| >= 1
      && (forall s :: s in rules ==> rules[s].priority < |rules| && rules[s].horizonSeconds <= cooldownSeconds)
      && (forall s, t :: s in rules && t in rules && rules[s].priority == rules[t].priority ==> s == t)
    }

    predicate Contains(day: Day) {
      effectiveFrom <= day && (effectiveTo.Some? ==> day <= effectiveTo.value)
    }
  }

  datatype Candidate = Candidate(sha: Digest, version: Ident, strategy: Ident, symbol: Ident,
                                 tradeDate: Day, decisionAt: Instant, isCandidate: bool, strength: real)
  {
    function When(): Clock { Clock(tradeDate, decisionAt) }
  }

  datatype Clock = Clock(tradeDate: Day, decisionAt: Instant)
  {
    predicate Before(other: Clock) {
      tradeDate < other.tradeDate || (tradeDate == other.tradeDate && decisionAt < other.decisionAt)
    }
  }

  datatype Reason = UpstreamBlocked | BelowMinimumStrength | SymbolCooldown | LowerStrategyPriority | ClockCapacity

  datatype Outcome = Selected(priority: nat) | Rejected(reason: Reason, behind: Option<Digest>)

  datatype Verdict = Verdict(candidate: Digest, symbol: Ident, clock: Clock, horizonSeconds: nat, outcome: Outcome)

  datatype Pick = Pick(at: Instant, sha: Digest)

  /** The arbitrator's memory: the last selection of each symbol and the last clock. */
  datatype Memory = Memory(lastSelected: map<Ident, Pick>, lastClock: Option<Clock>)

  datatype ArbitrationError = NoCandidates | SeveralClocks | ClockNotIncreasing | DateNotCovered | VersionMismatch
                            | DuplicateCandidate | IncompleteMatrix

  // ----- Admission of a clock -----

  predicate SameClock(cs: seq<Candidate>) {
    forall i :: 0 <= i < |cs| ==> cs[i].When() == cs[0].When()
  }

  predicate DistinctShas(cs: seq<Candidate>) {
    forall i, j :: 0 <= i < j < |cs| ==> cs[i].sha != cs[j].sha
  }

  /** Every symbol present has exactly one candidate of each configured strategy. */
  predicate CompleteMatrix(p: Policy, cs: seq<Candidate>) {
    && (forall i :: 0 <= i < |cs| ==> cs[i].strategy in p.rules)
    && (forall i, j :: 0 <= i < j < |cs| ==> cs[i].symbol != cs[j].symbol || cs[i].strategy != cs[j].strategy)
    && (forall i, s :: 0 <= i < |cs| && s in p.rules ==> HasStrategy(cs, cs[i].symbol, s))
  }

  predicate HasStrategy(cs: seq<Candidate>, symbol: Ident, strategy: Ident) {
    exists j :: 0 <= j < |cs| && cs[j].symbol == symbol && cs[j].strategy == strategy
  }

  function ClockError(p: Policy, m: Memory, cs: seq<Candidate>): Option<ArbitrationError> {
    if cs == [] then Some(NoCandidates)
    else if !SameClock(cs) then Some(SeveralClocks)
    else if m.lastClock.Some? && !m.lastClock.value.Before(cs[0].When()) then Some(ClockNotIncreasing)
    else if !p.Contains(cs[0].tradeDate) then Some(DateNotCovered)
    else if exists i :: 0 <= i < |cs| && cs[i].version != p.candidateVersion then Some(VersionMismatch)
    else if !DistinctShas(cs) then Some(DuplicateCandidate)
    else if !CompleteMatrix(p, cs) then Some(IncompleteMatrix)
    else None
  }

  // ----- The rule -----

  function PriorityOf(p: Policy, c: Candidate): nat { if c.strategy in p.rules then p.rules[c.strategy].priority else 0 }

  predicate Strong(p: Policy, c: Candidate) {
    c.isCandidate && c.strategy in p.rules && c.strength >= p.rules[c.strategy].minimumStrength
  }

  predicate Cooling(p: Policy, m: Memory, symbol: Ident, at: Instant) {
    symbol in m.lastSelected && at < m.lastSelected[symbol].at + p.cooldownSeconds * SECOND
  }

  predicate Contends(p: Policy, m: Memory, c: Candidate) {
    Strong(p, c) && !Cooling(p, m, c.symbol, c.decisionAt)
  }

  /** Strategy priority, then strength, then digest. */
  predicate Better(p: Policy, a: Candidate, b: Candidate) {
    || PriorityOf(p, a) < PriorityOf(p, b)
    || (PriorityOf(p, a) == PriorityOf(p, b) && a.strength > b.strength)
    || (PriorityOf(p, a) == PriorityOf(p, b) && a.strength == b.strength && a.sha < b.sha)
  }

  /** The same between symbols, with the symbol before the digest. */
  predicate BetterAcross(p: Policy, a: Candidate, b: Candidate) {
    || PriorityOf(p, a) < PriorityOf(p, b)
    || (PriorityOf(p, a) == PriorityOf(p, b) && a.strength > b.strength)
    || (PriorityOf(p, a) == PriorityOf(p, b) && a.strength == b.strength
        && (a.symbol < b.symbol || (a.symbol == b.symbol && a.sha < b.sha)))
  }

  predicate ListedBefore(p: Policy, a: Candidate, b: Candidate) {
    || a.symbol < b.symbol
    || (a.symbol == b.symbol && PriorityOf(p, a) < PriorityOf(p, b))
    || (a.symbol == b.symbol && PriorityOf(p, a) == PriorityOf(p, b) && a.sha < b.sha)
  }

  /** The best contender of its symbol. */
  predicate Wins(p: Policy, m: Memory, all: set<Candidate>, c: Candidate) {
    && c in all && Contends(p, m, c)
    && (forall d :: d in all && d != c && d.symbol == c.symbol && Contends(p, m, d) ==> Better(p, c, d))
  }

  function Winners(p: Policy, m: Memory, all: set<Candidate>): set<Candidate> {
    set c | c in all && Wins(p, m, all, c)
  }

  /** How many winners come before this one. */
  function Rank(p: Policy, m: Memory, all: set<Candidate>, c: Candidate): nat {
    |set w | w in Winners(p, m, all) && BetterAcross(p, w, c)|
  }

  /** Candidates of one clock: told apart by their digests. */
  ghost predicate OneClock(all: set<Candidate>) {
    && (forall a, b :: a in all && b in all && a.sha == b.sha ==> a == b)
    && (forall a, b :: a in all && b in all ==> a.decisionAt == b.decisionAt && a.tradeDate == b.tradeDate)
  }

  lemma BetterIsOrder(p: Policy, all: set<Candidate>)
    requires OneClock(all)
    ensures StrictOrder((a, b) => Better(p, a, b), all)
    ensures StrictOrder((a, b) => BetterAcross(p, a, b), all)
    ensures StrictOrder((a, b) => ListedBefore(p, a, b), all)
  {}

  lemma {:induction false} BestExists(p: Policy, group: set<Candidate>) returns (w: Candidate)
    requires OneClock(group) && group != {}
    ensures w in group && forall d :: d in group && d != w ==> Better(p, w, d)
    decreases group
  {
    var c :| c in group;
    if group == {c} {
      w := c;
    } else {
      var rest := group - {c};
      var best := BestExists(p, rest);
      BetterIsOrder(p, group);
      w := if Better(p, c, best) then c else best;
      forall d | d in group && d != w ensures Better(p, w, d) {
        if w == c && d != best { assert Better(p, best, d); }
      }
    }
  }

  /** Every symbol with a contender has exactly one winner. */
  lemma WinnerOf(p: Policy, m: Memory, all: set<Candidate>, c: Candidate) returns (w: Candidate)
    requires OneClock(all) && c in all && Contends(p, m, c)
    ensures w.symbol == c.symbol && Wins(p, m, all, w)
    ensures forall v: Candidate :: v.symbol == c.symbol && Wins(p, m, all, v) ==> v == w
  {
    var group := set d | d in all && d.symbol == c.symbol && Contends(p, m, d);
    assert c in group;
    w := BestExists(p, group);
    BetterIsOrder(p, all);
    forall v: Candidate | v.symbol == c.symbol && Wins(p, m, all, v) ensures v == w {
      assert v in group && w in group;
    }
  }

  /** What becomes of one candidate, said of the clock as a set. */
  ghost function Fate(p: Policy, m: Memory, all: set<Candidate>, c: Candidate): Outcome
    requires OneClock(all) && c in all
  {
    if !c.isCandidate then Rejected(UpstreamBlocked, None)
    else if !Strong(p, c) then Rejected(BelowMinimumStrength, None)
    else if Cooling(p, m, c.symbol, c.decisionAt) then Rejected(SymbolCooldown, Some(m.lastSelected[c.symbol].sha))
    else
      assert exists w: Candidate :: w.symbol == c.symbol && Wins(p, m, all, w) by { var w := WinnerOf(p, m, all, c); }
      var w: Candidate :| w.symbol == c.symbol && Wins(p, m, all, w);
      if Rank(p, m, all, w) >= p.maximumSelections then Rejected(ClockCapacity, None)
      else if w == c then Selected(Rank(p, m, all, w))
      else Rejected(LowerStrategyPriority, Some(w.sha))
  }

  function VerdictOn(p: Policy, c: Candidate, o: Outcome): Verdict {
    Verdict(c.sha, c.symbol, c.When(), if c.strategy in p.rules then p.rules[c.strategy].horizonSeconds else 0, o)
  }

  ghost predicate Chosen(p: Policy, m: Memory, all: set<Candidate>, c: Candidate)
    requires OneClock(all)
  {
    c in all && Fate(p, m, all, c).Selected?
  }

  ghost function ChosenSymbols(p: Policy, m: Memory, all: set<Candidate>): set<Ident>
    requires OneClock(all)
  {
    set c | c in all && Chosen(p, m, all, c) :: c.symbol
  }

  ghost function LatestPick(p: Policy, m: Memory, all: set<Candidate>, at: Instant, symbol: Ident): Pick
    requires OneClock(all) && (symbol in m.lastSelected || symbol in ChosenSymbols(p, m, all))
  {
    if symbol in ChosenSymbols(p, m, all) then
      var c :| c in all && Chosen(p, m, all, c) && c.symbol == symbol;
      Pick(at, c.sha)
    else m.lastSelected[symbol]
  }

  /** The memory after a clock. */
  ghost function Remembered(p: Policy, m: Memory, all: set<Candidate>, clock: Clock): Memory
    requires OneClock(all)
  {
    Memory(map symbol | symbol in m.lastSelected.Keys + ChosenSymbols(p, m, all) :: LatestPick(p, m, all, clock.decisionAt, symbol),
           Some(clock))
  }

  // ----- What the rule promises -----

  lemma FateOf(p: Policy, m: Memory, all: set<Candidate>, c: Candidate) returns (w: Candidate)
    requires OneClock(all) && c in all && Contends(p, m, c)
    ensures w.symbol == c.symbol && Wins(p, m, all, w)
    ensures Fate(p, m, all, c) == if Rank(p, m, all, w) >= p.maximumSelections then Rejected(ClockCapacity, None)
                                  else if w == c then Selected(Rank(p, m, all, w))
                                  else Rejected(LowerStrategyPriority, Some(w.sha))
  {
    w := WinnerOf(p, m, all, c);
  }

  /** At most one candidate of a symbol is selected, only when the symbol is not cooling down, and a
      rejection that names a candidate names one that really is, or was, selected. */
  lemma FateIsCausal(p: Policy, m: Memory, all: set<Candidate>, c: Candidate)
    requires OneClock(all) && c in all
    ensures Chosen(p, m, all, c) ==> Strong(p, c) && !Cooling(p, m, c.symbol, c.decisionAt) && Wins(p, m, all, c)
    ensures forall d :: d in all && Chosen(p, m, all, c) && Chosen(p, m, all, d) && c.symbol == d.symbol ==> c == d
    ensures Fate(p, m, all, c).Rejected? && Fate(p, m, all, c).behind.Some? ==>
              var sha := Fate(p, m, all, c).behind.value;
              || (c.symbol in m.lastSelected && m.lastSelected[c.symbol].sha == sha)
              || (exists w :: w in all && w.symbol == c.symbol && w.sha == sha && Chosen(p, m, all, w))
  {
    hide Rank, Better, Strong;
    if Contends(p, m, c) {
      var w := FateOf(p, m, all, c);
      var v := FateOf(p, m, all, w);
      BetterIsOrderOnly(p, all);
      assert v == w;
      forall d | d in all && Chosen(p, m, all, c) && Chosen(p, m, all, d) && c.symbol == d.symbol ensures c == d {
        var x := FateOf(p, m, all, d);
      }
    }
  }

  lemma BetterIsOrderOnly(p: Policy, all: set<Candidate>)
    requires OneClock(all)
    ensures forall a, b :: a in all && b in all && a != b ==> !(Better(p, a, b) && Better(p, b, a))
  {}
}
