/** The stateful arbitrator shared by replay and the live clock. */
module Arbitrator {
  import opened Prelude
  import opened Sorting
  import opened Arbitration

  datatype Decision = Decision(memory: Memory, verdicts: seq<Verdict>)

  lemma NoClockError(p: Policy, m: Memory, cs: seq<Candidate>)
    requires ClockError(p, m, cs).None?
    ensures cs != [] && SameClock(cs) && DistinctShas(cs) && CompleteMatrix(p, cs) && p.Contains(cs[0].tradeDate)
    ensures m.lastClock.Some? ==> m.lastClock.value.Before(cs[0].When())
  {
    hide SameClock, DistinctShas, CompleteMatrix, Policy.Contains, Clock.Before;
  }

  lemma ShasTellApart(cs: seq<Candidate>)
    requires DistinctShas(cs)
    ensures Distinct(cs) && forall a, b :: a in cs && b in cs && a.sha == b.sha ==> a == b
  {
    forall a, b | a in cs && b in cs && a.sha == b.sha ensures a == b {
      var i :| 0 <= i < |cs| && cs[i] == a;
      var j :| 0 <= j < |cs| && cs[j] == b;
      assert !(i < j) && !(j < i);
    }
  }

  lemma ClockShared(cs: seq<Candidate>)
    requires SameClock(cs) && cs != []
    ensures forall c :: c in cs ==> c.When() == cs[0].When()
  {}

  lemma StrategiesKnown(p: Policy, cs: seq<Candidate>)
    requires CompleteMatrix(p, cs)
    ensures forall c :: c in cs ==> c.strategy in p.rules
  {}

  lemma AdmittedClock(p: Policy, m: Memory, cs: seq<Candidate>)
    requires ClockError(p, m, cs).None?
    ensures OneClock(Elements(cs)) && Distinct(cs)
    ensures forall c :: c in cs ==> c.When() == cs[0].When() && c.strategy in p.rules
  {
    hide ClockError, Policy.Contains, CompleteMatrix, SameClock, DistinctShas;
    NoClockError(p, m, cs);
    ShasTellApart(cs);
    ClockShared(cs);
    StrategiesKnown(p, cs);
    forall a, b | a in cs && b in cs ensures a.decisionAt == b.decisionAt && a.tradeDate == b.tradeDate {
      assert a.When() == b.When();
    }
  }

  ghost function Listing(p: Policy, m: Memory, all: set<Candidate>, order: seq<Candidate>): seq<Verdict>
    requires OneClock(all) && forall c :: c in order ==> c in all
  {
    seq(|order|, i requires 0 <= i < |order| => VerdictOn(p, order[i], Fate(p, m, all, order[i])))
  }

  function InListOrder(p: Policy, cs: seq<Candidate>): seq<Candidate> {
    Sort((a, b) => ListedBefore(p, a, b), cs)
  }

  lemma ListOrder(p: Policy, cs: seq<Candidate>)
    requires OneClock(Elements(cs)) && Distinct(cs)
    ensures Elements(InListOrder(p, cs)) == Elements(cs) && |InListOrder(p, cs)| == |cs|
    ensures Ordered((a, b) => ListedBefore(p, a, b), InListOrder(p, cs))
    ensures forall c :: c in InListOrder(p, cs) <==> c in cs
  {
    BetterIsOrder(p, Elements(cs));
    SortFacts((a, b) => ListedBefore(p, a, b), cs);
    forall c ensures c in InListOrder(p, cs) <==> c in cs {
      assert c in Elements(InListOrder(p, cs)) <==> c in Elements(cs);
    }
  }

  /** One clock, specified by the rule alone. */
  ghost function DecideClock(p: Policy, m: Memory, cs: seq<Candidate>): Result<Decision, ArbitrationError> {
    if ClockError(p, m, cs).Some? then Err(ClockError(p, m, cs).value)
    else
      AdmittedClock(p, m, cs);
      ListOrder(p, cs);
      var all := Elements(cs);
      Ok(Decision(Remembered(p, m, all, cs[0].When()), Listing(p, m, all, InListOrder(p, cs))))
  }

  // ----- The loops -----

  /** Everything decided so far is decided by the rule. */
  ghost predicate Right(p: Policy, m: Memory, all: set<Candidate>, decisions: map<Digest, Verdict>)
    requires OneClock(all)
  {
    forall c :: c in all && c.sha in decisions ==> decisions[c.sha] == VerdictOn(p, c, Fate(p, m, all, c))
  }

  method DecideAll(p: Policy, group: seq<Candidate>, o: Outcome, decisions: map<Digest, Verdict>, ghost m: Memory, ghost all: set<Candidate>)
    returns (d: map<Digest, Verdict>)
    requires OneClock(all) && Right(p, m, all, decisions)
    requires forall c :: c in group ==> c in all && Fate(p, m, all, c) == o
    ensures Right(p, m, all, d) && decisions.Keys <= d.Keys
    ensures forall c :: c in group ==> c.sha in d
  {
    hide Fate;
    d := decisions;
    for i := 0 to |group|
      invariant Right(p, m, all, d) && decisions.Keys <= d.Keys
      invariant forall j :: 0 <= j < i ==> group[j].sha in d
    {
      assert group[i] in group;
      d := d[group[i].sha := VerdictOn(p, group[i], o)];
    }
  }

  /** Reject what is blocked or weak among one symbol's candidates; return the others. */
  method Screen(p: Policy, cs: seq<Candidate>, symbol: Ident, decisions: map<Digest, Verdict>, ghost m: Memory)
    returns (d: map<Digest, Verdict>, eligible: seq<Candidate>)
    requires OneClock(Elements(cs)) && Distinct(cs) && Right(p, m, Elements(cs), decisions)
    ensures Right(p, m, Elements(cs), d) && decisions.Keys <= d.Keys && Distinct(eligible)
    ensures forall c :: c in eligible <==> c in cs && c.symbol == symbol && Strong(p, c)
    ensures forall c :: c in cs && c.symbol == symbol && !Strong(p, c) ==> c.sha in d
  {
    d, eligible := decisions, [];
    for i := 0 to |cs|
      invariant Right(p, m, Elements(cs), d) && decisions.Keys <= d.Keys && Distinct(eligible)
      invariant forall c :: c in eligible <==> c in cs[..i] && c.symbol == symbol && Strong(p, c)
      invariant forall c :: c in cs[..i] && c.symbol == symbol && !Strong(p, c) ==> c.sha in d
    {
      var c := cs[i];
      assert cs[..i + 1] == cs[..i] + [c] && c in Elements(cs) && c !in cs[..i];
      if c.symbol == symbol {
        if !c.isCandidate {
          d := d[c.sha := VerdictOn(p, c, Rejected(UpstreamBlocked, None))];
        } else if !Strong(p, c) {
          d := d[c.sha := VerdictOn(p, c, Rejected(BelowMinimumStrength, None))];
        } else {
          eligible := eligible + [c];
        }
      }
    }
    assert cs[..|cs|] == cs;
  }

  /** The contenders of a symbol, best first. */
  lemma BestFirst(p: Policy, m: Memory, all: set<Candidate>, eligible: seq<Candidate>, symbol: Ident, at: Instant)
    requires OneClock(all) && eligible != [] && Distinct(eligible) && !Cooling(p, m, symbol, at)
    requires forall c :: c in all ==> c.decisionAt == at
    requires forall c :: c in eligible <==> c in all && c.symbol == symbol && Strong(p, c)
    ensures var sorted := Sort((a, b) => Better(p, a, b), eligible);
            && sorted != [] && Wins(p, m, all, sorted[0]) && sorted[0].symbol == symbol && sorted[0] !in sorted[1..]
            && (forall c :: c in eligible <==> c == sorted[0] || c in sorted[1..])
            && (forall c :: c in sorted ==> c in eligible && Contends(p, m, c))
            && (forall c :: c in all && c.symbol == symbol && Wins(p, m, all, c) ==> c == sorted[0])
  {
    hide Cooling, Strong, Better;
    var less := (a, b) => Better(p, a, b);
    var sorted := Sort(less, eligible);
    assert Elements(eligible) <= all;
    BetterIsOrder(p, Elements(eligible));
    SortFacts(less, eligible);
    forall c ensures c in sorted <==> c in eligible { assert c in Elements(sorted) <==> c in Elements(eligible); }
    assert sorted == [sorted[0]] + sorted[1..];
    TailElements(less, sorted);
    assert sorted[0] !in Elements(sorted[1..]);
    var w := sorted[0];
    assert w in sorted;
    forall d | d in all && d != w && d.symbol == w.symbol && Contends(p, m, d) ensures Better(p, w, d) {
      assert d in sorted;
      var j :| 0 <= j < |sorted| && sorted[j] == d;
      assert less(sorted[0], sorted[j]);
    }
    BetterIsOrderOnly(p, all);
  }

  /** The fate of a winner and of those behind it. */
  lemma GroupFate(p: Policy, m: Memory, all: set<Candidate>, w: Candidate, c: Candidate)
    requires OneClock(all) && Wins(p, m, all, w) && c in all && c.symbol == w.symbol && Contends(p, m, c)
    ensures Fate(p, m, all, c) == if Rank(p, m, all, w) >= p.maximumSelections then Rejected(ClockCapacity, None)
                                  else if w == c then Selected(Rank(p, m, all, w))
                                  else Rejected(LowerStrategyPriority, Some(w.sha))
  {
    hide Fate, Rank, Better, Contends;
    var v := FateOf(p, m, all, c);
    BetterIsOrderOnly(p, all);
    assert v == w;
  }

  lemma OrderedRank(p: Policy, m: Memory, all: set<Candidate>, ordered: seq<Candidate>, i: nat)
    requires OneClock(all) && i < |ordered| && Elements(ordered) == Winners(p, m, all)
    requires Ordered((a, b) => BetterAcross(p, a, b), ordered)
    ensures Rank(p, m, all, ordered[i]) == i
  {
    hide BetterAcross, Wins;
    var less := (a, b) => BetterAcross(p, a, b);
    assert Winners(p, m, all) <= all;
    BetterIsOrder(p, Winners(p, m, all));
    PositionIsRank(less, ordered, i);
    assert (set w | w in Winners(p, m, all) && BetterAcross(p, w, ordered[i])) == Below(less, Elements(ordered), ordered[i]);
  }

  lemma DecidedByRank(p: Policy, m: Memory, all: set<Candidate>, ordered: seq<Candidate>, c: Candidate)
    requires OneClock(all) && c in all && Elements(ordered) == Winners(p, m, all)
    requires Ordered((a, b) => BetterAcross(p, a, b), ordered)
    ensures Chosen(p, m, all, c) <==> exists i :: 0 <= i < |ordered| && i < p.maximumSelections && ordered[i] == c
  {
    hide Fate, Rank, Better, BetterAcross, Strong, Cooling;
    forall i | 0 <= i < |ordered| ensures Wins(p, m, all, ordered[i]) && Rank(p, m, all, ordered[i]) == i {
      assert ordered[i] in Elements(ordered);
      OrderedRank(p, m, all, ordered, i);
    }
    if Chosen(p, m, all, c) {
      FateIsCausal(p, m, all, c);
      assert c in Winners(p, m, all);
      var i :| 0 <= i < |ordered| && ordered[i] == c;
      GroupFate(p, m, all, c, c);
    }
    if i :| 0 <= i < |ordered| && i < p.maximumSelections && ordered[i] == c {
      GroupFate(p, m, all, c, c);
    }
  }

  class CandidateArbitrator {
    const policy: Policy
    var lastSelected: map<Ident, Pick>
    var lastClock: Option<Clock>

    constructor (policy: Policy)
      ensures this.policy == policy && Recall() == Memory(map[], None)
    {
      this.policy, lastSelected, lastClock := policy, map[], None;
    }

    function Recall(): Memory
      reads this
    {
      Memory(lastSelected, lastClock)
    }

    /** First pass: settle what cannot contend, and find each symbol's winner. */
    method FindWinners(cs: seq<Candidate>) returns (decisions: map<Digest, Verdict>, winners: seq<Candidate>, contenders: map<Digest, seq<Candidate>>)
      requires cs != [] && OneClock(Elements(cs)) && Distinct(cs) && forall c :: c in cs ==> c.decisionAt == cs[0].decisionAt
      ensures Found(policy, Recall(), Elements(cs), {}, decisions, winners, contenders)
    {
      hide Better, Strong, Cooling, Fate, Found, Right, Wins, Sort, Contends, OneClock;
      var at := cs[0].decisionAt;
      ghost var all, m := Elements(cs), Recall();
      decisions, winners, contenders := map[], [], map[];
      var left := set i | 0 <= i < |cs| :: cs[i].symbol;
      FoundNothing(policy, m, all, left);
      while left != {}
        invariant Found(policy, m, all, left, decisions, winners, contenders)
        decreases left
      {
        var symbol :| symbol in left;
        ghost var before := decisions;
        FoundRight(policy, m, all, left, decisions, winners, contenders);
        var eligible;
        decisions, eligible := Screen(policy, cs, symbol, decisions, m);
        if eligible != [] && !Cooling(policy, Recall(), symbol, at) {
          var sorted := Sort((a, b) => Better(policy, a, b), eligible);
          BestFirst(policy, m, all, eligible, symbol, at);
          var winner, lower := sorted[0], sorted[1..];
          FoundWinner(policy, m, all, left, before, decisions, winners, contenders, symbol, at, eligible, sorted);
          winners, contenders := winners + [winner], contenders[winner.sha := lower];
        } else {
          if eligible != [] {
            CoolingFate(policy, m, all, eligible, symbol, at);
            decisions := DecideAll(policy, eligible, Rejected(SymbolCooldown, Some(lastSelected[symbol].sha)), decisions, m, all);
          }
          NoContenders(policy, m, all, symbol, at, eligible);
          FoundNone(policy, m, all, left, before, decisions, winners, contenders, symbol, eligible);
        }
        left := left - {symbol};
      }
    }

    /** Second pass: rank the winners, select within capacity, and remember the selections. */
    method Rank(cs: seq<Candidate>, first: map<Digest, Verdict>, winners: seq<Candidate>, contenders: map<Digest, seq<Candidate>>)
      returns (decisions: map<Digest, Verdict>)
      requires cs != [] && OneClock(Elements(cs)) && Found(policy, Recall(), Elements(cs), {}, first, winners, contenders)
      modifies this`lastSelected
      ensures var all, m := Elements(cs), old(Recall());
              && Right(policy, m, all, decisions) && (forall c :: c in all ==> c.sha in decisions)
              && lastSelected == Remembered(policy, m, all, Clock(cs[0].tradeDate, cs[0].decisionAt)).lastSelected
    {
      hide Better, BetterAcross, Strong, Cooling, Fate, Right, Wins, Sort, Contends, OneClock, Found, Arbitration.Rank, Remembered;
      var at := cs[0].decisionAt;
      ghost var all, m := Elements(cs), Recall();
      FoundRight(policy, m, all, {}, first, winners, contenders);
      var ordered := Sort((a, b) => BetterAcross(policy, a, b), winners);
      RankedWinners(policy, m, all, first, winners, contenders);
      decisions := first;
      for i := 0 to |ordered|
        invariant Right(policy, m, all, decisions) && first.Keys <= decisions.Keys
        invariant forall j :: 0 <= j < i ==> GroupDecided(ordered[j], contenders, decisions)
        invariant lastSelected == StoreAll(m.lastSelected, ordered[..Min(i, policy.maximumSelections)], at)
      {
        var winner := ordered[i];
        var group := contenders[winner.sha];
        RankedGroup(policy, m, all, ordered, contenders, i);
        if i < policy.maximumSelections {
          decisions := DecideAll(policy, [winner], Selected(i), decisions, m, all);
          decisions := DecideAll(policy, group, Rejected(LowerStrategyPriority, Some(winner.sha)), decisions, m, all);
          assert ordered[..i + 1][..i] == ordered[..i];
          lastSelected := lastSelected[winner.symbol := Pick(at, winner.sha)];
        } else {
          decisions := DecideAll(policy, [winner] + group, Rejected(ClockCapacity, None), decisions, m, all);
        }
        assert GroupDecided(winner, contenders, decisions) by { assert winner in [winner] && winner in [winner] + group; }
      }
      AllDecided(policy, m, all, first, winners, contenders, ordered, decisions);
      MemoryMatches(policy, m, all, ordered, Clock(cs[0].tradeDate, at));
    }

    method Decide(cs: seq<Candidate>) returns (r: Result<seq<Verdict>, ArbitrationError>)
      modifies this
      ensures match DecideClock(policy, old(Recall()), cs)
              case Err(e) => r == Err(e) && Recall() == old(Recall())
              case Ok(d) => r == Ok(d.verdicts) && Recall() == d.memory
    {
      hide Found, Remembered, Fate, CompleteMatrix, Arbitration.Rank;
      var error := ClockError(policy, Recall(), cs);
      if error.Some? {
        return Err(error.value);
      }
      ghost var m := Recall();
      AdmittedClock(policy, m, cs);
      ListOrder(policy, cs);
      var decisions, winners, contenders := FindWinners(cs);
      decisions := Rank(cs, decisions, winners, contenders);
      lastClock := Some(cs[0].When());
      var listed := InListOrder(policy, cs);
      assert forall i :: 0 <= i < |listed| ==> listed[i] in Elements(cs);
      var verdicts := seq(|listed|, i requires 0 <= i < |listed| && listed[i].sha in decisions => decisions[listed[i].sha]);
      assert verdicts == Listing(policy, m, Elements(cs), listed);
      RememberedClock(policy, m, Elements(cs), cs[0].When());
      r := Ok(verdicts);
    }
  }

  lemma RememberedClock(p: Policy, m: Memory, all: set<Candidate>, clock: Clock)
    requires OneClock(all)
    ensures Remembered(p, m, all, clock).lastClock == Some(clock)
  {}

  function StoreAll(picks: map<Ident, Pick>, chosen: seq<Candidate>, at: Instant): map<Ident, Pick> {
    if chosen == [] then picks
    else
      var last := chosen[|chosen| - 1];
      StoreAll(picks, chosen[..|chosen| - 1], at)[last.symbol := Pick(at, last.sha)]
  }

  lemma AmongMore(chosen: seq<Candidate>, s: Ident)
    requires chosen != []
    ensures AmongSymbols(chosen, s) <==> AmongSymbols(chosen[..|chosen| - 1], s) || s == chosen[|chosen| - 1].symbol
  {
    var front := chosen[..|chosen| - 1];
    if AmongSymbols(front, s) {
      var i :| 0 <= i < |front| && front[i].symbol == s;
      assert chosen[i].symbol == s;
    }
    if AmongSymbols(chosen, s) {
      var i :| 0 <= i < |chosen| && chosen[i].symbol == s;
      assert i < |front| ==> front[i].symbol == s;
    }
    assert s == chosen[|chosen| - 1].symbol ==> AmongSymbols(chosen, s);
  }

  lemma {:induction false} StoreKeys(picks: map<Ident, Pick>, chosen: seq<Candidate>, at: Instant, s: Ident)
    ensures s in StoreAll(picks, chosen, at) <==> s in picks || AmongSymbols(chosen, s)
    ensures s in picks && !AmongSymbols(chosen, s) ==> StoreAll(picks, chosen, at)[s] == picks[s]
  {
    hide AmongSymbols;
    if chosen == [] {
      assert !AmongSymbols([], s) by { NoneAmong(s); }
    } else {
      AmongMore(chosen, s);
      StoreKeys(picks, chosen[..|chosen| - 1], at, s);
    }
  }

  lemma NoneAmong(s: Ident)
    ensures !AmongSymbols([], s)
  {}

  lemma {:induction false} StoreValue(picks: map<Ident, Pick>, chosen: seq<Candidate>, at: Instant, i: nat)
    requires (forall i, j :: 0 <= i < j < |chosen| ==> chosen[i].symbol != chosen[j].symbol) && i < |chosen|
    ensures chosen[i].symbol in StoreAll(picks, chosen, at) && StoreAll(picks, chosen, at)[chosen[i].symbol] == Pick(at, chosen[i].sha)
  {
    if i < |chosen| - 1 {
      StoreValue(picks, chosen[..|chosen| - 1], at, i);
    }
  }

  lemma StoreFacts(picks: map<Ident, Pick>, chosen: seq<Candidate>, at: Instant)
    requires forall i, j :: 0 <= i < j < |chosen| ==> chosen[i].symbol != chosen[j].symbol
    ensures forall s :: s in StoreAll(picks, chosen, at) <==> s in picks || AmongSymbols(chosen, s)
    ensures forall i :: 0 <= i < |chosen| ==>
              chosen[i].symbol in StoreAll(picks, chosen, at) && StoreAll(picks, chosen, at)[chosen[i].symbol] == Pick(at, chosen[i].sha)
    ensures forall s :: s in picks && !AmongSymbols(chosen, s) ==> s in StoreAll(picks, chosen, at) && StoreAll(picks, chosen, at)[s] == picks[s]
  {
    hide AmongSymbols, StoreAll;
    forall s ensures s in StoreAll(picks, chosen, at) <==> s in picks || AmongSymbols(chosen, s) { StoreKeys(picks, chosen, at, s); }
    forall i | 0 <= i < |chosen|
      ensures chosen[i].symbol in StoreAll(picks, chosen, at) && StoreAll(picks, chosen, at)[chosen[i].symbol] == Pick(at, chosen[i].sha)
    {
      StoreValue(picks, chosen, at, i);
    }
    forall s | s in picks && !AmongSymbols(chosen, s) ensures s in StoreAll(picks, chosen, at) && StoreAll(picks, chosen, at)[s] == picks[s] {
      StoreKeys(picks, chosen, at, s);
    }
  }

  ghost predicate GroupDecided(w: Candidate, contenders: map<Digest, seq<Candidate>>, decisions: map<Digest, Verdict>) {
    w.sha in decisions && w.sha in contenders && forall c :: c in contenders[w.sha] ==> c.sha in decisions
  }

  /** The ranked list holds exactly the winners, each with its position as rank. */
  ghost predicate Ranking(p: Policy, m: Memory, all: set<Candidate>, ordered: seq<Candidate>) {
    && Elements(ordered) == Winners(p, m, all) && Ordered((a, b) => BetterAcross(p, a, b), ordered)
    && (forall i, j :: 0 <= i < j < |ordered| ==> ordered[i].symbol != ordered[j].symbol)
  }

  lemma RankedWinners(p: Policy, m: Memory, all: set<Candidate>, decisions: map<Digest, Verdict>,
                      winners: seq<Candidate>, contenders: map<Digest, seq<Candidate>>)
    requires OneClock(all) && Found(p, m, all, {}, decisions, winners, contenders)
    ensures var ordered := Sort((a, b) => BetterAcross(p, a, b), winners);
            && Ranking(p, m, all, ordered)
            && (forall i :: 0 <= i < |ordered| ==> ordered[i].sha in contenders && Behind(p, m, all, ordered[i], contenders[ordered[i].sha]))
            && (forall w :: w in winners ==> w in ordered)
  {
    hide Right, Better, BetterAcross, Contends, Sort;
    var less := (a, b) => BetterAcross(p, a, b);
    assert Elements(winners) == Winners(p, m, all) by { WinsInAll(p, m, all); }
    BetterIsOrder(p, Elements(winners));
    SortFacts(less, winners);
    var ordered := Sort(less, winners);
    forall i | 0 <= i < |ordered| ensures ordered[i] in winners { assert ordered[i] in Elements(ordered); }
    forall w | w in winners ensures w in ordered { assert w in Elements(ordered); }
    BetterIsOrderOnly(p, all);
    forall i, j | 0 <= i < j < |ordered| ensures ordered[i].symbol != ordered[j].symbol {
      assert less(ordered[i], ordered[j]);
      assert ordered[i] in Elements(winners) && ordered[j] in Elements(winners);
    }
  }

  lemma RankedGroup(p: Policy, m: Memory, all: set<Candidate>, ordered: seq<Candidate>, contenders: map<Digest, seq<Candidate>>, i: nat)
    requires OneClock(all) && Ranking(p, m, all, ordered) && i < |ordered|
    requires ordered[i].sha in contenders && Behind(p, m, all, ordered[i], contenders[ordered[i].sha])
    ensures ordered[i] in all
    ensures Fate(p, m, all, ordered[i]) == if i < p.maximumSelections then Selected(i) else Rejected(ClockCapacity, None)
    ensures forall c :: c in contenders[ordered[i].sha] ==>
              c in all && Fate(p, m, all, c) == if i < p.maximumSelections then Rejected(LowerStrategyPriority, Some(ordered[i].sha))
                                                else Rejected(ClockCapacity, None)
  {
    hide Fate, Arbitration.Rank, Better, BetterAcross, Contends;
    var w := ordered[i];
    assert w in Elements(ordered);
    OrderedRank(p, m, all, ordered, i);
    GroupFate(p, m, all, w, w);
    forall c | c in contenders[w.sha] ensures Fate(p, m, all, c) == if i < p.maximumSelections then Rejected(LowerStrategyPriority, Some(w.sha))
                                                                    else Rejected(ClockCapacity, None) {
      GroupFate(p, m, all, w, c);
    }
  }

  lemma AllDecided(p: Policy, m: Memory, all: set<Candidate>, first: map<Digest, Verdict>, winners: seq<Candidate>,
                   contenders: map<Digest, seq<Candidate>>, ordered: seq<Candidate>, decisions: map<Digest, Verdict>)
    requires OneClock(all) && Found(p, m, all, {}, first, winners, contenders) && first.Keys <= decisions.Keys
    requires forall w :: w in winners ==> w in ordered
    requires forall j :: 0 <= j < |ordered| ==> GroupDecided(ordered[j], contenders, decisions)
    ensures forall c :: c in all ==> c.sha in decisions
  {
    hide Right, Wins, Behind;
    forall c | c in all ensures c.sha in decisions {
      if c.sha !in first {
        var w :| w in winners && w.sha in contenders && (c == w || c in contenders[w.sha]);
        assert GroupDecided(w, contenders, decisions);
      }
    }
  }

  lemma MemoryMatches(p: Policy, m: Memory, all: set<Candidate>, ordered: seq<Candidate>, clock: Clock)
    requires OneClock(all) && Ranking(p, m, all, ordered)
    ensures StoreAll(m.lastSelected, ordered[..Min(|ordered|, p.maximumSelections)], clock.decisionAt)
            == Remembered(p, m, all, clock).lastSelected
  {
    hide Fate, Arbitration.Rank, Better, BetterAcross, Wins, StoreAll, Ordered;
    var chosen := ordered[..Min(|ordered|, p.maximumSelections)];
    assert forall i :: 0 <= i < |chosen| ==> chosen[i] == ordered[i];
    StoreFacts(m.lastSelected, chosen, clock.decisionAt);
    forall c | c in all ensures Chosen(p, m, all, c) <==> c in chosen {
      DecidedByRank(p, m, all, ordered, c);
      if c in chosen {
        var i :| 0 <= i < |chosen| && chosen[i] == c;
        assert ordered[i] == c;
      }
    }
    forall i | 0 <= i < |chosen| ensures chosen[i] in all {
      assert ordered[i] in Elements(ordered);
    }
    SameMemory(p, m, all, chosen, clock, StoreAll(m.lastSelected, chosen, clock.decisionAt));
  }

  ghost predicate AmongSymbols(chosen: seq<Candidate>, s: Ident) { exists i :: 0 <= i < |chosen| && chosen[i].symbol == s }

  lemma ChosenSymbolsMean(p: Policy, m: Memory, all: set<Candidate>, chosen: seq<Candidate>, s: Ident)
    requires OneClock(all) && (forall c :: c in all ==> (Chosen(p, m, all, c) <==> c in chosen)) && forall c :: c in chosen ==> c in all
    ensures s in ChosenSymbols(p, m, all) <==> AmongSymbols(chosen, s)
  {
    hide Chosen, OneClock;
    if s in ChosenSymbols(p, m, all) {
      var c :| c in all && Chosen(p, m, all, c) && c.symbol == s;
      assert c in chosen;
    }
    if i :| 0 <= i < |chosen| && chosen[i].symbol == s {
      assert chosen[i] in all && Chosen(p, m, all, chosen[i]);
    }
  }

  lemma PickOfChosen(p: Policy, m: Memory, all: set<Candidate>, chosen: seq<Candidate>, at: Instant, i: nat)
    requires OneClock(all) && (forall c :: c in all ==> (Chosen(p, m, all, c) <==> c in chosen)) && forall c :: c in chosen ==> c in all
    requires (forall i, j :: 0 <= i < j < |chosen| ==> chosen[i].symbol != chosen[j].symbol) && i < |chosen|
    ensures chosen[i].symbol in ChosenSymbols(p, m, all) && LatestPick(p, m, all, at, chosen[i].symbol) == Pick(at, chosen[i].sha)
  {
    hide Chosen, OneClock;
    var s := chosen[i].symbol;
    assert chosen[i] in all && Chosen(p, m, all, chosen[i]);
    forall c | c in all && Chosen(p, m, all, c) && c.symbol == s ensures c == chosen[i] {
      var j :| 0 <= j < |chosen| && chosen[j] == c;
    }
  }

  lemma SameMemory(p: Policy, m: Memory, all: set<Candidate>, chosen: seq<Candidate>, clock: Clock, stored: map<Ident, Pick>)
    requires OneClock(all) && forall c :: c in all ==> (Chosen(p, m, all, c) <==> c in chosen)
    requires forall c :: c in chosen ==> c in all
    requires forall i, j :: 0 <= i < j < |chosen| ==> chosen[i].symbol != chosen[j].symbol
    requires forall s :: s in stored <==> s in m.lastSelected || AmongSymbols(chosen, s)
    requires forall i :: 0 <= i < |chosen| ==> chosen[i].symbol in stored && stored[chosen[i].symbol] == Pick(clock.decisionAt, chosen[i].sha)
    requires forall s :: s in m.lastSelected && !AmongSymbols(chosen, s) ==> s in stored && stored[s] == m.lastSelected[s]
    ensures stored == Remembered(p, m, all, clock).lastSelected
  {
    hide Chosen, OneClock, LatestPick, ChosenSymbols;
    var n := Remembered(p, m, all, clock).lastSelected;
    forall s ensures s in n <==> s in stored { ChosenSymbolsMean(p, m, all, chosen, s); }
    forall s | s in n ensures stored[s] == n[s] {
      ChosenSymbolsMean(p, m, all, chosen, s);
      if s in ChosenSymbols(p, m, all) {
        var i :| 0 <= i < |chosen| && chosen[i].symbol == s;
        PickOfChosen(p, m, all, chosen, clock.decisionAt, i);
      } else {
        NotPicked(p, m, all, clock.decisionAt, s);
      }
    }
  }

  lemma NotPicked(p: Policy, m: Memory, all: set<Candidate>, at: Instant, s: Ident)
    requires OneClock(all) && s in m.lastSelected && s !in ChosenSymbols(p, m, all)
    ensures LatestPick(p, m, all, at, s) == m.lastSelected[s]
  {
    hide Chosen, OneClock;
  }

  lemma NoContenders(p: Policy, m: Memory, all: set<Candidate>, symbol: Ident, at: Instant, eligible: seq<Candidate>)
    requires forall c :: c in all ==> c.decisionAt == at
    requires forall c :: c in eligible <==> c in all && c.symbol == symbol && Strong(p, c)
    requires eligible == [] || Cooling(p, m, symbol, at)
    ensures forall c :: c in all && c.symbol == symbol ==> !Contends(p, m, c)
  {
    hide Strong, Cooling;
  }

  /** The candidates behind a winner. */
  ghost predicate Behind(p: Policy, m: Memory, all: set<Candidate>, w: Candidate, group: seq<Candidate>) {
    forall c :: c in group ==> c in all && c.symbol == w.symbol && Contends(p, m, c) && c != w
  }

  ghost predicate InGroup(c: Candidate, winners: seq<Candidate>, contenders: map<Digest, seq<Candidate>>) {
    exists w :: w in winners && w.sha in contenders && (c == w || c in contenders[w.sha])
  }

  /** What the first pass knows once every symbol outside `left` has been looked at. */
  ghost predicate Found(p: Policy, m: Memory, all: set<Candidate>, left: set<Ident>, decisions: map<Digest, Verdict>,
                        winners: seq<Candidate>, contenders: map<Digest, seq<Candidate>>)
    requires OneClock(all)
  {
    && Right(p, m, all, decisions) && Distinct(winners)
    && (forall c :: c in all && c.symbol !in left ==> c.sha in decisions || InGroup(c, winners, contenders))
    && (forall w :: w in winners <==> w.symbol !in left && Wins(p, m, all, w))
    && (forall w :: w in winners ==> w.sha in contenders && Behind(p, m, all, w, contenders[w.sha]))
  }

  lemma FoundNothing(p: Policy, m: Memory, all: set<Candidate>, left: set<Ident>)
    requires OneClock(all) && forall c :: c in all ==> c.symbol in left
    ensures Found(p, m, all, left, map[], [], map[])
  {}

  lemma FoundRight(p: Policy, m: Memory, all: set<Candidate>, left: set<Ident>, decisions: map<Digest, Verdict>,
                   winners: seq<Candidate>, contenders: map<Digest, seq<Candidate>>)
    requires OneClock(all) && Found(p, m, all, left, decisions, winners, contenders)
    ensures Right(p, m, all, decisions)
  {}

  lemma FoundNone(p: Policy, m: Memory, all: set<Candidate>, left: set<Ident>, before: map<Digest, Verdict>, decisions: map<Digest, Verdict>,
                  winners: seq<Candidate>, contenders: map<Digest, seq<Candidate>>, symbol: Ident, eligible: seq<Candidate>)
    requires OneClock(all) && Found(p, m, all, left, before, winners, contenders) && symbol in left
    requires Right(p, m, all, decisions) && before.Keys <= decisions.Keys
    requires forall c :: c in all && c.symbol == symbol ==> c.sha in decisions && !Contends(p, m, c)
    ensures Found(p, m, all, left - {symbol}, decisions, winners, contenders)
  {
    hide Right, Contends, Behind, Better;
  }

  lemma FoundWinner(p: Policy, m: Memory, all: set<Candidate>, left: set<Ident>, before: map<Digest, Verdict>, decisions: map<Digest, Verdict>,
                    winners: seq<Candidate>, contenders: map<Digest, seq<Candidate>>, symbol: Ident, at: Instant,
                    eligible: seq<Candidate>, sorted: seq<Candidate>)
    requires OneClock(all) && Found(p, m, all, left, before, winners, contenders) && symbol in left
    requires Right(p, m, all, decisions) && before.Keys <= decisions.Keys
    requires forall c :: c in eligible ==> c in all && c.symbol == symbol
    requires forall c :: c in all && c.symbol == symbol && c !in eligible ==> c.sha in decisions
    requires sorted != [] && Wins(p, m, all, sorted[0]) && sorted[0].symbol == symbol && sorted[0] !in sorted[1..]
    requires forall c :: c in eligible <==> c == sorted[0] || c in sorted[1..]
    requires forall c :: c in sorted ==> c in eligible && Contends(p, m, c)
    requires forall c :: c in all && c.symbol == symbol && Wins(p, m, all, c) ==> c == sorted[0]
    ensures Found(p, m, all, left - {symbol}, decisions, winners + [sorted[0]], contenders[sorted[0].sha := sorted[1..]])
  {
    hide Right, Contends, Wins;
    var w, lower := sorted[0], sorted[1..];
    var more, groups := winners + [w], contenders[w.sha := lower];
    WinsInAll(p, m, all);
    assert forall v :: v in winners ==> v.symbol != symbol && v in all;
    forall v ensures v in more <==> v.symbol !in left - {symbol} && Wins(p, m, all, v) {
      assert v in more <==> v in winners || v == w;
    }
    assert forall v :: v in winners ==> v.sha != w.sha;
    forall c | c in all && c.symbol !in left - {symbol} ensures c.sha in decisions || InGroup(c, more, groups) {
      if c.symbol == symbol {
        assert c in eligible ==> w in more && w.sha in groups && (c == w || c in groups[w.sha]);
      } else if c.sha !in decisions {
        assert InGroup(c, winners, contenders);
        var v :| v in winners && v.sha in contenders && (c == v || c in contenders[v.sha]);
        assert v in more && groups[v.sha] == contenders[v.sha];
      }
    }
    forall v | v in more ensures v.sha in groups && Behind(p, m, all, v, groups[v.sha]) {
      assert v == w || (v in winners && groups[v.sha] == contenders[v.sha]);
    }
  }

  lemma WinsInAll(p: Policy, m: Memory, all: set<Candidate>)
    ensures forall w :: Wins(p, m, all, w) ==> w in all
  {}

  lemma CoolingFate(p: Policy, m: Memory, all: set<Candidate>, eligible: seq<Candidate>, symbol: Ident, at: Instant)
    requires OneClock(all) && Cooling(p, m, symbol, at)
    requires forall c :: c in eligible ==> c in all && c.symbol == symbol && c.decisionAt == at && Strong(p, c)
    ensures symbol in m.lastSelected
    ensures forall c :: c in eligible ==> Fate(p, m, all, c) == Rejected(SymbolCooldown, Some(m.lastSelected[symbol].sha))
    ensures forall c :: c in eligible ==> !Contends(p, m, c)
  {}
}
