/** Who is selected at a clock, told by strategy priority and strength alone. */
module ArbitrationMerit {
  import opened Prelude
  import opened Sorting
  import opened Arbitration
  import opened Arbitrator
  import opened ArbitrationRuns
  import opened ArbitrationReplay

  /** A smaller strategy priority number, or the same number and more strength. */
  predicate Stronger(p: Policy, a: Candidate, b: Candidate) {
    && a.strategy in p.rules && b.strategy in p.rules
    && (|| p.rules[a.strategy].priority < p.rules[b.strategy].priority
        || (p.rules[a.strategy].priority == p.rules[b.strategy].priority && a.strength > b.strength))
  }

  /** Stronger, or as strong with the symbol that comes first. */
  predicate Ahead(p: Policy, a: Candidate, b: Candidate) {
    || Stronger(p, a, b)
    || (&& a.strategy in p.rules && b.strategy in p.rules && a.symbol < b.symbol
        && p.rules[a.strategy].priority == p.rules[b.strategy].priority && a.strength == b.strength)
  }

  /** Passed upstream, strong enough for its strategy, and its symbol is not within the cooldown of its last selection. */
  predicate Qualified(p: Policy, m: Memory, c: Candidate) {
    && c.isCandidate && c.strategy in p.rules && p.rules[c.strategy].minimumStrength <= c.strength
    && !(c.symbol in m.lastSelected && c.decisionAt < m.lastSelected[c.symbol].at + p.cooldownSeconds * 1_000_000)
  }

  /** Qualified, and no other qualified candidate of its symbol is stronger, or as strong with a smaller digest. */
  predicate Leads(p: Policy, m: Memory, all: set<Candidate>, c: Candidate) {
    && c in all && Qualified(p, m, c)
    && (forall d :: d in all && d != c && d.symbol == c.symbol && Qualified(p, m, d) ==>
          !Stronger(p, d, c) && (Stronger(p, c, d) || c.sha < d.sha))
  }

  lemma LeadsWins(p: Policy, m: Memory, all: set<Candidate>, c: Candidate)
    requires OneClock(all)
    ensures Leads(p, m, all, c) <==> Wins(p, m, all, c)
  {
    forall d ensures Qualified(p, m, d) <==> Contends(p, m, d) {}
    if Wins(p, m, all, c) {
      forall d | d in all && d != c && d.symbol == c.symbol && Qualified(p, m, d)
        ensures !Stronger(p, d, c) && (Stronger(p, c, d) || c.sha < d.sha) { assert Better(p, c, d); }
    }
    if Leads(p, m, all, c) {
      forall d | d in all && d != c && d.symbol == c.symbol && Contends(p, m, d) ensures Better(p, c, d) { assert Qualified(p, m, d); }
    }
  }

  lemma AheadIsBetter(p: Policy, a: Candidate, b: Candidate)
    requires Ahead(p, a, b)
    ensures BetterAcross(p, a, b)
  {}

  // ----- The ranked winners -----

  lemma {:induction false} Listed<T>(s: set<T>) returns (a: seq<T>)
    ensures Distinct(a) && Elements(a) == s && |a| == |s|
    decreases s
  {
    if s == {} {
      a := [];
    } else {
      var x :| x in s;
      var rest := Listed(s - {x});
      a := rest + [x];
      assert forall y :: y in rest ==> y in Elements(rest);
      assert Elements(a) == Elements(rest) + {x};
    }
  }

  /** The winners in order: each stands at its own rank. */
  lemma RankedWinners(p: Policy, m: Memory, all: set<Candidate>) returns (a: seq<Candidate>)
    requires OneClock(all)
    ensures Elements(a) == Winners(p, m, all) && Distinct(a) && |a| == |Winners(p, m, all)|
    ensures forall i :: 0 <= i < |a| ==> Rank(p, m, all, a[i]) == i
  {
    var ws := Winners(p, m, all);
    var less := (x, y) => BetterAcross(p, x, y);
    var listed := Listed(ws);
    BetterIsOrder(p, all);
    WinsInAll(p, m, all);
    assert StrictOrder(less, ws);
    SortFacts(less, listed);
    a := Sort(less, listed);
    forall i | 0 <= i < |a| ensures Rank(p, m, all, a[i]) == i {
      PositionIsRank(less, a, i);
      assert Below(less, Elements(a), a[i]) == set w | w in ws && BetterAcross(p, w, a[i]);
    }
    forall i, j | 0 <= i < j < |a| ensures a[i] != a[j] { assert less(a[i], a[j]) && a[i] in Elements(a); }
  }

  lemma {:induction false} PrefixCount<T>(a: seq<T>, k: nat)
    requires Distinct(a) && k <= |a|
    ensures |Elements(a[..k])| == k
  {
    if k > 0 {
      PrefixCount(a, k - 1);
      assert a[..k] == a[..k - 1] + [a[k - 1]];
      assert Elements(a[..k]) == Elements(a[..k - 1]) + {a[k - 1]};
      assert a[k - 1] !in Elements(a[..k - 1]);
    }
  }

  ghost function ChosenSet(p: Policy, m: Memory, all: set<Candidate>): set<Candidate>
    requires OneClock(all)
  {
    set c | c in all && Chosen(p, m, all, c)
  }

  lemma WinnerFate(p: Policy, m: Memory, all: set<Candidate>, w: Candidate)
    requires OneClock(all) && Wins(p, m, all, w)
    ensures Fate(p, m, all, w) == if Rank(p, m, all, w) >= p.maximumSelections then Rejected(ClockCapacity, None) else Selected(Rank(p, m, all, w))
  {
    hide Rank, Fate;
    var v := FateOf(p, m, all, w);
    BetterIsOrderOnly(p, all);
  }

  /** As many are selected as there are leaders and places. */
  lemma PlacesAreFilled(p: Policy, m: Memory, all: set<Candidate>)
    requires OneClock(all)
    ensures |ChosenSet(p, m, all)| == Min(p.maximumSelections, |Winners(p, m, all)|)
  {
    hide Rank, Fate, Wins;
    var a := RankedWinners(p, m, all);
    var k := Min(p.maximumSelections, |a|);
    PrefixCount(a, k);
    forall c ensures c in ChosenSet(p, m, all) <==> c in Elements(a[..k]) {
      if c in ChosenSet(p, m, all) {
        SelectedPriority(p, m, all, c);
        assert c in Elements(a);
        var i :| 0 <= i < |a| && a[i] == c;
        assert a[..k][i] == c;
      }
      if c in Elements(a[..k]) {
        var i :| 0 <= i < k && a[..k][i] == c;
        assert a[i] == c && a[i] in Elements(a);
        WinsInAll(p, m, all);
        WinnerFate(p, m, all, c);
      }
    }
    assert ChosenSet(p, m, all) == Elements(a[..k]);
  }

  /** Merit across symbols: of two leaders, if one is selected and the other is ahead of it by priority, strength
      and symbol, the other is selected too, with a smaller rank. */
  lemma AheadIsSelectedFirst(p: Policy, m: Memory, all: set<Candidate>, c: Candidate, d: Candidate)
    requires OneClock(all) && Chosen(p, m, all, c) && Leads(p, m, all, d) && Ahead(p, d, c)
    ensures Leads(p, m, all, c) && Chosen(p, m, all, d)
    ensures Fate(p, m, all, d).priority < Fate(p, m, all, c).priority < p.maximumSelections
  {
    hide Rank, Fate, Wins, Leads;
    SelectedPriority(p, m, all, c);
    LeadsWins(p, m, all, c);
    LeadsWins(p, m, all, d);
    AheadIsBetter(p, d, c);
    RanksDiffer(p, m, all, d, c);
    WinnerFate(p, m, all, d);
    assert d in all by { WinsIn(p, m, all, d); }
  }

  lemma WinsIn(p: Policy, m: Memory, all: set<Candidate>, c: Candidate)
    requires Wins(p, m, all, c)
    ensures c in all
  {}

  /** A leader turned away for capacity leaves every place taken, by leaders it is not ahead of. */
  lemma CapacityIsMerited(p: Policy, m: Memory, all: set<Candidate>, c: Candidate)
    requires OneClock(all) && Leads(p, m, all, c) && Fate(p, m, all, c) == Rejected(ClockCapacity, None)
    ensures |ChosenSet(p, m, all)| == p.maximumSelections
    ensures forall d :: d in ChosenSet(p, m, all) ==> Leads(p, m, all, d) && !Ahead(p, c, d)
  {
    hide Rank, Fate, Wins, Leads;
    LeadsWins(p, m, all, c);
    WinnerFate(p, m, all, c);
    PlacesAreFilled(p, m, all);
    var a := RankedWinners(p, m, all);
    WinsInAll(p, m, all);
    assert c in all by { WinsIn(p, m, all, c); }
    assert c in Elements(a);
    forall d | d in ChosenSet(p, m, all) ensures Leads(p, m, all, d) && !Ahead(p, c, d) {
      SelectedPriority(p, m, all, d);
      LeadsWins(p, m, all, d);
      if Ahead(p, c, d) { AheadIsSelectedFirst(p, m, all, d, c); }
    }
  }

  /** Every outcome, by the candidate's own figures: which reason, and that a place goes to leaders only. */
  lemma OutcomeMeans(p: Policy, m: Memory, all: set<Candidate>, c: Candidate)
    requires OneClock(all) && c in all && c.strategy in p.rules
    ensures var o := Fate(p, m, all, c);
            && (o == Rejected(UpstreamBlocked, None) <==> !c.isCandidate)
            && (o == Rejected(BelowMinimumStrength, None) <==> c.isCandidate && c.strength < p.rules[c.strategy].minimumStrength)
            && (o.Rejected? && o.reason == SymbolCooldown <==>
                  && c.isCandidate && p.rules[c.strategy].minimumStrength <= c.strength
                  && c.symbol in m.lastSelected && c.decisionAt < m.lastSelected[c.symbol].at + p.cooldownSeconds * 1_000_000)
            && (o.Rejected? && o.reason == SymbolCooldown ==> o.behind == Some(m.lastSelected[c.symbol].sha))
            && (o.Rejected? && o.reason == ClockCapacity ==> Qualified(p, m, c) && forall w :: w in ChosenSet(p, m, all) ==> w.symbol != c.symbol)
            && (o.Selected? ==> Leads(p, m, all, c))
            && (o.Rejected? && o.reason == LowerStrategyPriority ==>
                  Qualified(p, m, c) && !Leads(p, m, all, c)
                  && exists w :: w in ChosenSet(p, m, all) && w.symbol == c.symbol && Some(w.sha) == o.behind && !Stronger(p, c, w))
  {
    hide Rank, Wins, Better;
    if Contends(p, m, c) {
      var w := FateOf(p, m, all, c);
      forall x | x in ChosenSet(p, m, all) && x.symbol == c.symbol ensures x == w {
        SelectedPriority(p, m, all, x);
        var v := WinnerOf(p, m, all, c);
      }
      LeadsWins(p, m, all, w);
      LeadsWins(p, m, all, c);
      WinnerFate(p, m, all, w);
      assert w in all by { WinsIn(p, m, all, w); }
    }
  }

  /** The verdicts of a clock: one for each candidate, with its own figures and its outcome, listed by symbol,
      strategy priority and digest. */
  lemma VerdictsListed(p: Policy, m: Memory, cs: seq<Candidate>) returns (listed: seq<Candidate>)
    requires DecideClock(p, m, cs).Ok?
    ensures OneClock(Elements(cs)) && Elements(listed) == Elements(cs) && |listed| == |cs|
    ensures |DecideClock(p, m, cs).value.verdicts| == |listed|
    ensures forall i :: 0 <= i < |listed| ==>
              && listed[i] in Elements(cs) && listed[i].strategy in p.rules
              && DecideClock(p, m, cs).value.verdicts[i]
                 == Verdict(listed[i].sha, listed[i].symbol, Clock(cs[0].tradeDate, cs[0].decisionAt), p.rules[listed[i].strategy].horizonSeconds, Fate(p, m, Elements(cs), listed[i]))
    ensures forall i, j :: 0 <= i < j < |listed| ==>
              || listed[i].symbol < listed[j].symbol
              || (listed[i].symbol == listed[j].symbol && p.rules[listed[i].strategy].priority < p.rules[listed[j].strategy].priority)
              || (listed[i].symbol == listed[j].symbol && listed[i].sha < listed[j].sha)
  {
    hide Fate, DecideClock, InListOrder;
    DecideListing(p, m, cs);
    listed := InListOrder(p, cs);
    assert Distinct(cs) by { AdmittedDistinct(p, m, cs); }
    ListOrder(p, cs);
    var less := (a, b) => ListedBefore(p, a, b);
    forall i | 0 <= i < |listed| ensures listed[i] in cs { assert listed[i] in Elements(listed); }
    forall i, j | 0 <= i < j < |listed|
      ensures || listed[i].symbol < listed[j].symbol
              || (listed[i].symbol == listed[j].symbol && p.rules[listed[i].strategy].priority < p.rules[listed[j].strategy].priority)
              || (listed[i].symbol == listed[j].symbol && listed[i].sha < listed[j].sha)
    {
      assert less(listed[i], listed[j]);
    }
  }

  lemma AdmittedDistinct(p: Policy, m: Memory, cs: seq<Candidate>)
    requires DecideClock(p, m, cs).Ok?
    ensures Distinct(cs)
  {
    hide ClockError;
    AdmittedClock(p, m, cs);
  }

  // ----- Which clocks are taken -----

  /** The candidates of one symbol. */
  function OfSymbol(cs: seq<Candidate>, symbol: Ident): seq<Candidate> {
    if cs == [] then []
    else OfSymbol(cs[..|cs| - 1], symbol) + if cs[|cs| - 1].symbol == symbol then [cs[|cs| - 1]] else []
  }

  lemma {:induction false} OfSymbolMembers(cs: seq<Candidate>, symbol: Ident, c: Candidate)
    ensures c in OfSymbol(cs, symbol) <==> c in cs && c.symbol == symbol
  {
    if cs != [] {
      OfSymbolMembers(cs[..|cs| - 1], symbol, c);
      assert cs == cs[..|cs| - 1] + [cs[|cs| - 1]];
    }
  }

  lemma {:induction false} OfSymbolDistinct(cs: seq<Candidate>, symbol: Ident)
    ensures DistinctKeys(OfSymbol(cs, symbol), (c: Candidate) => c.strategy)
            <==> forall i, j :: 0 <= i < j < |cs| && cs[i].symbol == symbol && cs[j].symbol == symbol ==> cs[i].strategy != cs[j].strategy
  {
    if cs != [] {
      var front, last := cs[..|cs| - 1], cs[|cs| - 1];
      var key := (c: Candidate) => c.strategy;
      OfSymbolDistinct(front, symbol);
      var part := OfSymbol(front, symbol);
      if last.symbol == symbol {
        var all := part + [last];
        assert all[..|all| - 1] == part;
        DistinctMore(all, key);
        KeysMean(part, key, last.strategy);
        if last.strategy in Keys(part, key) {
          var x :| x in part && key(x) == last.strategy;
          OfSymbolMembers(front, symbol, x);
          var i :| 0 <= i < |front| && front[i] == x;
          assert cs[i].symbol == symbol && cs[|cs| - 1].symbol == symbol && cs[i].strategy == cs[|cs| - 1].strategy;
        } else {
          forall i | 0 <= i < |front| && front[i].symbol == symbol ensures front[i].strategy != last.strategy {
            OfSymbolMembers(front, symbol, front[i]);
            assert front[i] in front && key(front[i]) == front[i].strategy;
          }
        }
      } else {
        assert part + [] == part;
      }
    }
  }

  /** As the source asks: every symbol present has as many candidates as there are rules, and exactly their
      strategies. */
  ghost predicate FullMatrix(p: Policy, cs: seq<Candidate>) {
    forall i :: 0 <= i < |cs| ==>
      && |OfSymbol(cs, cs[i].symbol)| == |p.rules|
      && (forall s :: s in p.rules.Keys <==> exists c :: c in OfSymbol(cs, cs[i].symbol) && c.strategy == s)
  }

  lemma SymbolMatrix(p: Policy, cs: seq<Candidate>, symbol: Ident)
    requires forall s :: s in p.rules.Keys <==> exists c :: c in OfSymbol(cs, symbol) && c.strategy == s
    ensures |OfSymbol(cs, symbol)| == |p.rules|
            <==> forall i, j :: 0 <= i < j < |cs| && cs[i].symbol == symbol && cs[j].symbol == symbol ==> cs[i].strategy != cs[j].strategy
  {
    var part, key := OfSymbol(cs, symbol), (c: Candidate) => c.strategy;
    OfSymbolDistinct(cs, symbol);
    DistinctByCount(part, key);
    forall s ensures s in Keys(part, key) <==> s in p.rules.Keys {
      KeysMean(part, key, s);
      if c :| c in part && c.strategy == s { assert key(c) == s; }
      if x :| x in part && key(x) == s { assert x.strategy == s; }
    }
    assert Keys(part, key) == p.rules.Keys;
    assert |p.rules.Keys| == |p.rules|;
  }

  lemma SymbolStrategies(p: Policy, cs: seq<Candidate>, symbol: Ident)
    ensures (forall s :: s in p.rules.Keys <==> exists c :: c in OfSymbol(cs, symbol) && c.strategy == s)
            <==> (forall j :: 0 <= j < |cs| && cs[j].symbol == symbol ==> cs[j].strategy in p.rules) && (forall s :: s in p.rules ==> HasStrategy(cs, symbol, s))
  {
    forall c ensures c in OfSymbol(cs, symbol) <==> c in cs && c.symbol == symbol { OfSymbolMembers(cs, symbol, c); }
    forall s ensures (exists c :: c in OfSymbol(cs, symbol) && c.strategy == s) <==> HasStrategy(cs, symbol, s) {
      if c :| c in OfSymbol(cs, symbol) && c.strategy == s {
        var j :| 0 <= j < |cs| && cs[j] == c;
      }
      if HasStrategy(cs, symbol, s) {
        var j :| 0 <= j < |cs| && cs[j].symbol == symbol && cs[j].strategy == s;
        assert cs[j] in OfSymbol(cs, symbol);
      }
    }
    forall j | 0 <= j < |cs| && cs[j].symbol == symbol ensures HasStrategy(cs, symbol, cs[j].strategy) {}
  }

  lemma MatrixExactly(p: Policy, cs: seq<Candidate>)
    ensures CompleteMatrix(p, cs) <==> FullMatrix(p, cs)
  {
    hide HasStrategy, OfSymbol;
    if CompleteMatrix(p, cs) {
      forall i | 0 <= i < |cs|
        ensures |OfSymbol(cs, cs[i].symbol)| == |p.rules| && (forall s :: s in p.rules.Keys <==> exists c :: c in OfSymbol(cs, cs[i].symbol) && c.strategy == s)
      {
        SymbolStrategies(p, cs, cs[i].symbol);
        SymbolMatrix(p, cs, cs[i].symbol);
      }
    }
    if FullMatrix(p, cs) {
      forall i | 0 <= i < |cs| ensures cs[i].strategy in p.rules && forall s :: s in p.rules ==> HasStrategy(cs, cs[i].symbol, s) {
        SymbolStrategies(p, cs, cs[i].symbol);
      }
      forall i, j | 0 <= i < j < |cs| && cs[i].symbol == cs[j].symbol ensures cs[i].strategy != cs[j].strategy {
        SymbolMatrix(p, cs, cs[i].symbol);
      }
    }
  }

  /** A clock is taken if and only if it is one clock, later than the last one, of a covered day and the configured
      version, without a repeated candidate, and its matrix is full; otherwise nothing is decided. */
  lemma ClockTakenExactly(p: Policy, m: Memory, cs: seq<Candidate>)
    ensures DecideClock(p, m, cs).Ok? <==>
              && cs != [] && (forall i :: 0 <= i < |cs| ==> cs[i].tradeDate == cs[0].tradeDate && cs[i].decisionAt == cs[0].decisionAt)
              && (m.lastClock.Some? ==> m.lastClock.value.tradeDate < cs[0].tradeDate
                                        || (m.lastClock.value.tradeDate == cs[0].tradeDate && m.lastClock.value.decisionAt < cs[0].decisionAt))
              && p.effectiveFrom <= cs[0].tradeDate && (p.effectiveTo.Some? ==> cs[0].tradeDate <= p.effectiveTo.value)
              && (forall i :: 0 <= i < |cs| ==> cs[i].version == p.candidateVersion)
              && (forall i, j :: 0 <= i < j < |cs| ==> cs[i].sha != cs[j].sha)
              && FullMatrix(p, cs)
  {
    hide CompleteMatrix, FullMatrix, Fate, Remembered, InListOrder;
    MatrixExactly(p, cs);
    if cs != [] { assert SameClock(cs) <==> forall i :: 0 <= i < |cs| ==> cs[i].tradeDate == cs[0].tradeDate && cs[i].decisionAt == cs[0].decisionAt; }
  }
}
