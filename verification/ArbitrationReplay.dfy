/** `arbitrate_candidates`: group by clock, run the clocks in order. The result ignores the order of the
    input and never looks ahead. */
module ArbitrationReplay {
  import opened Prelude
  import opened Sorting
  import opened Arbitration
  import opened Arbitrator
  import opened ArbitrationRuns

  // ----- Grouping -----

  function Clocks(cs: seq<Candidate>): seq<Clock> {
    if cs == [] then []
    else
      var front, clock := Clocks(cs[..|cs| - 1]), cs[|cs| - 1].When();
      if clock in front then front else front + [clock]
  }

  function SortedClocks(cs: seq<Candidate>): seq<Clock> {
    Sort((a: Clock, b: Clock) => a.Before(b), Clocks(cs))
  }

  function Group(cs: seq<Candidate>, clock: Clock): seq<Candidate> {
    if cs == [] then []
    else
      var front, last := Group(cs[..|cs| - 1], clock), cs[|cs| - 1];
      if last.When() == clock then front + [last] else front
  }

  function Groups(cs: seq<Candidate>, clocks: seq<Clock>): seq<seq<Candidate>> {
    seq(|clocks|, i requires 0 <= i < |clocks| => Group(cs, clocks[i]))
  }

  ghost function Arbitrate(p: Policy, cs: seq<Candidate>): Result<seq<Verdict>, ArbitrationError> {
    if cs == [] then Err(NoCandidates)
    else
      var d :- RunClocks(p, Groups(cs, SortedClocks(cs)));
      Ok(d.verdicts)
  }

  lemma {:induction false} RunErrorSticks(p: Policy, groups: seq<seq<Candidate>>, k: nat)
    requires k <= |groups|
    ensures RunClocks(p, groups[..k]).Err? ==> RunClocks(p, groups) == RunClocks(p, groups[..k])
    ensures RunClocks(p, groups).Ok? ==>
              && RunClocks(p, groups[..k]).Ok? && |RunClocks(p, groups[..k]).value.verdicts| <= |RunClocks(p, groups).value.verdicts|
              && RunClocks(p, groups).value.verdicts[..|RunClocks(p, groups[..k]).value.verdicts|] == RunClocks(p, groups[..k]).value.verdicts
  {
    hide DecideClock;
    if k == |groups| {
      assert groups[..k] == groups;
    } else {
      var front := groups[..|groups| - 1];
      assert front[..k] == groups[..k];
      RunErrorSticks(p, front, k);
    }
  }

  /** The source's loop over sorted clocks with one stateful arbitrator. */
  method ArbitrateCandidates(cs: seq<Candidate>, p: Policy) returns (r: Result<seq<Verdict>, ArbitrationError>)
    ensures r == Arbitrate(p, cs)
  {
    hide DecideClock, SortedClocks, Group;
    if cs == [] {
      return Err(NoCandidates);
    }
    var arbitrator := new CandidateArbitrator(p);
    var clocks := SortedClocks(cs);
    var groups := Groups(cs, clocks);
    var results: seq<Verdict> := [];
    for i := 0 to |clocks|
      invariant arbitrator.policy == p
      invariant RunClocks(p, groups[..i]) == Ok(Decision(arbitrator.Recall(), results))
    {
      assert groups[..i + 1][..i] == groups[..i];
      var verdicts := arbitrator.Decide(groups[i]);
      if verdicts.Err? {
        RunErrorSticks(p, groups, i + 1);
        return Err(verdicts.error);
      }
      results := results + verdicts.value;
    }
    assert groups[..|clocks|] == groups;
    r := Ok(results);
  }

  // ----- The order of the input -----

  ghost predicate Permuted<T>(a: seq<T>, b: seq<T>) {
    multiset(a) == multiset(b)
  }

  lemma PermutedMembers<T>(a: seq<T>, b: seq<T>)
    requires Permuted(a, b)
    ensures |a| == |b| && Elements(a) == Elements(b) && forall x :: x in a <==> x in b
  {
    assert |multiset(a)| == |a| && |multiset(b)| == |b|;
    forall x ensures x in a <==> x in b {
      assert x in a <==> x in multiset(a);
      assert x in b <==> x in multiset(b);
    }
  }

  predicate DistinctKeys<T, K(==)>(s: seq<T>, key: T -> K) {
    forall i, j :: 0 <= i < j < |s| ==> key(s[i]) != key(s[j])
  }

  ghost function Keys<T, K>(s: seq<T>, key: T -> K): set<K> {
    if s == [] then {} else Keys(s[..|s| - 1], key) + {key(s[|s| - 1])}
  }

  lemma {:induction false} KeysMean<T, K>(s: seq<T>, key: T -> K, k: K)
    ensures k in Keys(s, key) <==> exists x :: x in s && key(x) == k
  {
    if s != [] {
      var front, last := s[..|s| - 1], s[|s| - 1];
      KeysMean(front, key, k);
      assert s == front + [last];
      assert last in s;
    }
  }

  lemma DistinctMore<T, K>(s: seq<T>, key: T -> K)
    requires s != []
    ensures DistinctKeys(s, key) <==> DistinctKeys(s[..|s| - 1], key) && key(s[|s| - 1]) !in Keys(s[..|s| - 1], key)
  {
    hide Keys;
    var front, last := s[..|s| - 1], s[|s| - 1];
    KeysMean(front, key, key(last));
    if key(last) in Keys(front, key) {
      var x :| x in front && key(x) == key(last);
      var i :| 0 <= i < |front| && front[i] == x;
      assert key(s[i]) == key(s[|s| - 1]);
    } else {
      forall i | 0 <= i < |front| ensures key(s[i]) != key(last) { assert front[i] in front; }
      assert forall i :: 0 <= i < |front| ==> s[i] == front[i];
    }
  }

  /** Keys are pairwise distinct exactly when there are as many keys as elements. */
  lemma {:induction false} DistinctByCount<T, K>(s: seq<T>, key: T -> K)
    ensures |Keys(s, key)| <= |s| && (DistinctKeys(s, key) <==> |Keys(s, key)| == |s|)
  {
    if s != [] {
      DistinctByCount(s[..|s| - 1], key);
      DistinctMore(s, key);
      hide DistinctKeys;
      assert key(s[|s| - 1]) in Keys(s[..|s| - 1], key) ==> Keys(s, key) == Keys(s[..|s| - 1], key);
    }
  }

  lemma PermutedKeys<T, K>(a: seq<T>, b: seq<T>, key: T -> K)
    requires Permuted(a, b)
    ensures DistinctKeys(a, key) <==> DistinctKeys(b, key)
  {
    hide DistinctKeys, Keys;
    PermutedMembers(a, b);
    DistinctByCount(a, key);
    DistinctByCount(b, key);
    forall k | k in Keys(a, key) ensures k in Keys(b, key) {
      KeysMean(a, key, k);
      KeysMean(b, key, k);
    }
    forall k | k in Keys(b, key) ensures k in Keys(a, key) {
      KeysMean(a, key, k);
      KeysMean(b, key, k);
    }
    assert Keys(a, key) == Keys(b, key);
  }

  lemma PermutedSameClock(a: seq<Candidate>, b: seq<Candidate>)
    requires Permuted(a, b) && SameClock(a)
    ensures SameClock(b) && (a != [] ==> b != [] && a[0].When() == b[0].When() && a[0].tradeDate == b[0].tradeDate)
  {
    PermutedMembers(a, b);
    forall i | 0 <= i < |b| ensures b[i].When() == a[0].When() {
      assert b[i] in a;
    }
  }

  lemma PermutedMatrix(p: Policy, a: seq<Candidate>, b: seq<Candidate>)
    requires Permuted(a, b) && CompleteMatrix(p, a)
    ensures CompleteMatrix(p, b)
  {
    PermutedMembers(a, b);
    MatrixPairs(a, b);
    hide Permuted, Elements;
    forall i | 0 <= i < |b| ensures b[i].strategy in p.rules { assert b[i] in a; }
    forall i, s | 0 <= i < |b| && s in p.rules ensures HasStrategy(b, b[i].symbol, s) {
      assert b[i] in a;
      var k :| 0 <= k < |a| && a[k] == b[i];
      PermutedStrategy(a, b, a[k].symbol, s);
    }
  }

  lemma PermutedStrategy(a: seq<Candidate>, b: seq<Candidate>, symbol: Ident, strategy: Ident)
    requires (forall x :: x in a ==> x in b) && HasStrategy(a, symbol, strategy)
    ensures HasStrategy(b, symbol, strategy)
  {
    var j :| 0 <= j < |a| && a[j].symbol == symbol && a[j].strategy == strategy;
    assert a[j] in b;
  }

  lemma MatrixPairs(a: seq<Candidate>, b: seq<Candidate>)
    requires Permuted(a, b)
    requires forall i, j :: 0 <= i < j < |a| ==> a[i].symbol != a[j].symbol || a[i].strategy != a[j].strategy
    ensures forall i, j :: 0 <= i < j < |b| ==> b[i].symbol != b[j].symbol || b[i].strategy != b[j].strategy
  {
    var key := (c: Candidate) => (c.symbol, c.strategy);
    assert DistinctKeys(a, key);
    PermutedKeys(a, b, key);
    forall i, j | 0 <= i < j < |b| ensures b[i].symbol != b[j].symbol || b[i].strategy != b[j].strategy {
      assert key(b[i]) != key(b[j]);
    }
  }

  lemma PermutedVersion(p: Policy, a: seq<Candidate>, b: seq<Candidate>)
    requires Permuted(a, b) && exists i :: 0 <= i < |a| && a[i].version != p.candidateVersion
    ensures exists i :: 0 <= i < |b| && b[i].version != p.candidateVersion
  {
    PermutedMembers(a, b);
    var i :| 0 <= i < |a| && a[i].version != p.candidateVersion;
    assert a[i] in b;
  }

  /** Even the error raised does not depend on the order. */
  lemma PermutedError(p: Policy, m: Memory, a: seq<Candidate>, b: seq<Candidate>)
    requires Permuted(a, b)
    ensures ClockError(p, m, a) == ClockError(p, m, b)
  {
    PermutedMembers(a, b);
    var key := (c: Candidate) => c.sha;
    PermutedKeys(a, b, key);
    assert DistinctShas(a) == DistinctKeys(a, key) && DistinctShas(b) == DistinctKeys(b, key);
    if SameClock(a) || SameClock(b) {
      if SameClock(a) { PermutedSameClock(a, b); } else { PermutedSameClock(b, a); }
    }
    if exists i :: 0 <= i < |a| && a[i].version != p.candidateVersion { PermutedVersion(p, a, b); }
    if exists i :: 0 <= i < |b| && b[i].version != p.candidateVersion { PermutedVersion(p, b, a); }
    if CompleteMatrix(p, a) { PermutedMatrix(p, a, b); }
    if CompleteMatrix(p, b) { PermutedMatrix(p, b, a); }
    hide SameClock, DistinctShas, CompleteMatrix, DistinctKeys, Permuted;
  }

  lemma SameListing(p: Policy, a: seq<Candidate>, b: seq<Candidate>)
    requires OneClock(Elements(a)) && Distinct(a) && Distinct(b) && Elements(a) == Elements(b)
    ensures InListOrder(p, a) == InListOrder(p, b)
  {
    hide ListedBefore, InListOrder, OneClock, Ordered, StrictOrder;
    ListOrder(p, a);
    ListOrder(p, b);
    BetterIsOrder(p, Elements(a));
    OrderedUnique((x, y) => ListedBefore(p, x, y), InListOrder(p, a), InListOrder(p, b));
  }

  /** One clock does not depend on the order of its candidates. */
  lemma {:induction false} PermutedClock(p: Policy, m: Memory, a: seq<Candidate>, b: seq<Candidate>)
    requires Permuted(a, b)
    ensures DecideClock(p, m, a) == DecideClock(p, m, b)
  {
    hide ClockError, Fate, Remembered, InListOrder, Listing, Permuted, OneClock, Distinct, SameClock, DistinctShas, CompleteMatrix, Policy.Contains, Clock.Before;
    PermutedError(p, m, a, b);
    PermutedMembers(a, b);
    if ClockError(p, m, a).None? {
      AdmittedClock(p, m, a);
      AdmittedClock(p, m, b);
      NoClockError(p, m, a);
      assert a[0] in b;
      SameListing(p, a, b);
    }
  }

  lemma {:induction false} GroupPermuted(a: seq<Candidate>, clock: Clock, x: Candidate)
    ensures multiset(Group(a, clock))[x] == if x.When() == clock then multiset(a)[x] else 0
  {
    if a != [] {
      var front, last := a[..|a| - 1], a[|a| - 1];
      GroupPermuted(front, clock, x);
      assert a == front + [last];
    }
  }

  lemma SameGroups(a: seq<Candidate>, b: seq<Candidate>, clock: Clock)
    requires Permuted(a, b)
    ensures Permuted(Group(a, clock), Group(b, clock))
  {
    forall x ensures multiset(Group(a, clock))[x] == multiset(Group(b, clock))[x] {
      GroupPermuted(a, clock, x);
      GroupPermuted(b, clock, x);
    }
  }

  lemma {:induction false} ClocksMean(cs: seq<Candidate>)
    ensures Distinct(Clocks(cs))
    ensures forall k :: k in Clocks(cs) <==> exists c :: c in cs && c.When() == k
  {
    if cs != [] {
      var front, last := cs[..|cs| - 1], cs[|cs| - 1];
      ClocksMean(front);
      assert cs == front + [last];
      forall k ensures k in Clocks(cs) <==> exists c :: c in cs && c.When() == k {
        assert last in cs;
        assert k in Clocks(front) <==> exists c :: c in front && c.When() == k;
        assert forall c :: c in cs <==> c in front || c == last;
      }
    }
  }

  lemma BeforeIsOrder(s: set<Clock>)
    ensures StrictOrder((a: Clock, b: Clock) => a.Before(b), s)
  {}

  /** The clocks of the input, strictly increasing, each exactly once. */
  lemma SortedClocksFacts(cs: seq<Candidate>)
    ensures Ordered((a: Clock, b: Clock) => a.Before(b), SortedClocks(cs))
    ensures forall k :: k in SortedClocks(cs) <==> exists c :: c in cs && c.When() == k
  {
    hide Clock.Before;
    ClocksMean(cs);
    BeforeIsOrder(Elements(Clocks(cs)));
    SortFacts((a: Clock, b: Clock) => a.Before(b), Clocks(cs));
    forall k ensures k in SortedClocks(cs) <==> k in Clocks(cs) {
      assert k in Elements(SortedClocks(cs)) <==> k in Elements(Clocks(cs));
    }
  }

  lemma ClocksUnique(a: seq<Clock>, b: seq<Clock>)
    requires Ordered((x: Clock, y: Clock) => x.Before(y), a) && Ordered((x: Clock, y: Clock) => x.Before(y), b)
    requires forall k :: k in a <==> k in b
    ensures a == b
  {
    hide Clock.Before;
    BeforeIsOrder(Elements(a));
    assert Elements(a) == Elements(b);
    OrderedUnique((x: Clock, y: Clock) => x.Before(y), a, b);
  }

  lemma {:induction false} RunPermuted(p: Policy, a: seq<seq<Candidate>>, b: seq<seq<Candidate>>)
    requires |a| == |b| && forall i :: 0 <= i < |a| ==> Permuted(a[i], b[i])
    ensures RunClocks(p, a) == RunClocks(p, b)
  {
    hide DecideClock, Permuted;
    if a != [] {
      RunPermuted(p, a[..|a| - 1], b[..|b| - 1]);
      if RunClocks(p, a[..|a| - 1]).Ok? {
        PermutedClock(p, RunClocks(p, a[..|a| - 1]).value.memory, a[|a| - 1], b[|b| - 1]);
      }
    }
  }

  /** The arbitration of a candidate matrix, errors included, ignores the order of its input. */
  lemma {:induction false} InputOrderIsIrrelevant(p: Policy, a: seq<Candidate>, b: seq<Candidate>)
    requires Permuted(a, b)
    ensures Arbitrate(p, a) == Arbitrate(p, b)
  {
    hide RunClocks, SortedClocks, Group, Ordered;
    PermutedMembers(a, b);
    SortedClocksFacts(a);
    SortedClocksFacts(b);
    ClocksUnique(SortedClocks(a), SortedClocks(b));
    var clocks := SortedClocks(a);
    forall i | 0 <= i < |clocks| ensures Permuted(Groups(a, clocks)[i], Groups(b, clocks)[i]) {
      SameGroups(a, b, clocks[i]);
    }
    RunPermuted(p, Groups(a, clocks), Groups(b, clocks));
  }

  // ----- One verdict for each candidate -----

  function Concat(groups: seq<seq<Candidate>>): seq<Candidate> {
    if groups == [] then [] else Concat(groups[..|groups| - 1]) + groups[|groups| - 1]
  }

  /** How many candidates carry a digest. */
  function Asked(cs: seq<Candidate>, d: Digest): nat {
    if cs == [] then 0 else Asked(cs[..|cs| - 1], d) + if cs[|cs| - 1].sha == d then 1 else 0
  }

  /** How many verdicts name a digest. */
  function Answered(verdicts: seq<Verdict>, d: Digest): nat {
    if verdicts == [] then 0 else Answered(verdicts[..|verdicts| - 1], d) + if verdicts[|verdicts| - 1].candidate == d then 1 else 0
  }

  lemma {:induction false} AskedAdds(a: seq<Candidate>, b: seq<Candidate>, d: Digest)
    ensures Asked(a + b, d) == Asked(a, d) + Asked(b, d)
  {
    if b == [] {
      assert a + b == a;
    } else {
      AskedAdds(a, b[..|b| - 1], d);
      assert (a + b)[..|a + b| - 1] == a + b[..|b| - 1];
    }
  }

  lemma {:induction false} AnsweredAdds(a: seq<Verdict>, b: seq<Verdict>, d: Digest)
    ensures Answered(a + b, d) == Answered(a, d) + Answered(b, d)
  {
    if b == [] {
      assert a + b == a;
    } else {
      AnsweredAdds(a, b[..|b| - 1], d);
      assert (a + b)[..|a + b| - 1] == a + b[..|b| - 1];
    }
  }

  /** The list without its `i`-th element. */
  lemma Removed(b: seq<Candidate>, i: nat, d: Digest)
    requires i < |b|
    ensures var rest := b[..i] + b[i + 1..];
            && multiset(b) == multiset(rest) + multiset{b[i]} && |rest| == |b| - 1
            && Asked(b, d) == Asked(rest, d) + if b[i].sha == d then 1 else 0
  {
    var left, right := b[..i], b[i + 1..];
    assert b[..i + 1][..i] == left;
    assert b == b[..i + 1] + right && b[..i + 1] == left + [b[i]];
    AskedAdds(left, right, d);
    AskedAdds(b[..i + 1], right, d);
  }

  lemma {:induction false} AskedPermuted(a: seq<Candidate>, b: seq<Candidate>, d: Digest)
    requires Permuted(a, b)
    ensures Asked(a, d) == Asked(b, d)
  {
    PermutedMembers(a, b);
    if a != [] {
      var front, last := a[..|a| - 1], a[|a| - 1];
      assert a == front + [last];
      assert last in b;
      var i :| 0 <= i < |b| && b[i] == last;
      Removed(b, i, d);
      var rest := b[..i] + b[i + 1..];
      assert Permuted(front, rest) by {
        assert multiset(front) == multiset(a) - multiset{last};
        assert multiset(rest) == multiset(b) - multiset{last};
      }
      AskedPermuted(front, rest, d);
    }
  }

  /** The groups of distinct clocks hold each candidate as often as the input does. */
  lemma {:induction false} GroupsCount(cs: seq<Candidate>, clocks: seq<Clock>, x: Candidate)
    requires Distinct(clocks)
    ensures multiset(Concat(Groups(cs, clocks)))[x] == if x.When() in clocks then multiset(cs)[x] else 0
  {
    hide Group;
    if clocks != [] {
      var front, last := clocks[..|clocks| - 1], clocks[|clocks| - 1];
      assert clocks == front + [last];
      assert Groups(cs, clocks)[..|clocks| - 1] == Groups(cs, front);
      GroupsCount(cs, front, x);
      GroupPermuted(cs, last, x);
    }
  }

  lemma GroupsPermuted(cs: seq<Candidate>)
    ensures Permuted(Concat(Groups(cs, SortedClocks(cs))), cs)
  {
    hide Concat, Groups, SortedClocks, Clock.Before;
    var clocks := SortedClocks(cs);
    SortedClocksFacts(cs);
    ClocksDistinct(clocks);
    forall x ensures multiset(Concat(Groups(cs, clocks)))[x] == multiset(cs)[x] {
      GroupsCount(cs, clocks, x);
      assert x in multiset(cs) <==> x in cs;
    }
  }

  lemma ClocksDistinct(clocks: seq<Clock>)
    requires Ordered((a: Clock, b: Clock) => a.Before(b), clocks)
    ensures Distinct(clocks)
  {
    var before := (a: Clock, b: Clock) => a.Before(b);
    forall i, j | 0 <= i < j < |clocks| ensures clocks[i] != clocks[j] { assert before(clocks[i], clocks[j]); }
  }

  lemma {:induction false} ListingAnswers(listed: seq<Candidate>, verdicts: seq<Verdict>, d: Digest)
    requires |verdicts| == |listed| && forall i :: 0 <= i < |listed| ==> verdicts[i].candidate == listed[i].sha
    ensures Answered(verdicts, d) == Asked(listed, d)
  {
    if listed != [] { ListingAnswers(listed[..|listed| - 1], verdicts[..|listed| - 1], d); }
  }

  lemma ClockAnswers(p: Policy, m: Memory, cs: seq<Candidate>, d: Digest)
    requires DecideClock(p, m, cs).Ok?
    ensures Answered(DecideClock(p, m, cs).value.verdicts, d) == Asked(cs, d)
  {
    hide ClockError, Fate, Remembered, ListedBefore, InListOrder, Asked, Answered, Ordered, OneClock;
    AdmittedClock(p, m, cs);
    ListOrder(p, cs);
    var listed := InListOrder(p, cs);
    ListedOnce(p, cs);
    SamePermuted(listed, cs);
    AskedPermuted(listed, cs, d);
    ListingAnswers(listed, DecideClock(p, m, cs).value.verdicts, d);
  }

  lemma SamePermuted<T>(a: seq<T>, b: seq<T>)
    requires Distinct(a) && Distinct(b) && forall x :: x in a <==> x in b
    ensures Permuted(a, b)
  {
    forall x ensures multiset(a)[x] == multiset(b)[x] {
      OnceAtMost(a, x);
      OnceAtMost(b, x);
    }
  }

  lemma {:induction false} OnceAtMost<T>(a: seq<T>, x: T)
    requires Distinct(a)
    ensures multiset(a)[x] == if x in a then 1 else 0
  {
    if a != [] {
      assert a == a[..|a| - 1] + [a[|a| - 1]];
      OnceAtMost(a[..|a| - 1], x);
    }
  }

  lemma {:induction false} RunAnswers(p: Policy, groups: seq<seq<Candidate>>, d: Digest)
    requires RunClocks(p, groups).Ok?
    ensures Answered(RunClocks(p, groups).value.verdicts, d) == Asked(Concat(groups), d)
  {
    hide DecideClock;
    if groups != [] {
      var front, last := groups[..|groups| - 1], groups[|groups| - 1];
      var before := RunClocks(p, front).value;
      RunAnswers(p, front, d);
      ClockAnswers(p, before.memory, last, d);
      AnsweredAdds(before.verdicts, DecideClock(p, before.memory, last).value.verdicts, d);
      AskedAdds(Concat(front), last, d);
    }
  }

  /** Over the whole input, each digest gets as many verdicts as candidates carry it. */
  lemma EveryCandidateAnswered(p: Policy, cs: seq<Candidate>, d: Digest)
    requires Arbitrate(p, cs).Ok?
    ensures Answered(Arbitrate(p, cs).value, d) == Asked(cs, d)
  {
    hide RunClocks, SortedClocks, Groups, Concat;
    RunAnswers(p, Groups(cs, SortedClocks(cs)), d);
    GroupsPermuted(cs);
    AskedPermuted(Concat(Groups(cs, SortedClocks(cs))), cs, d);
  }

  // ----- No look-ahead -----

  /** The candidates decided no later than a clock. */
  function Until(cs: seq<Candidate>, limit: Clock): seq<Candidate> {
    if cs == [] then []
    else
      var front, last := Until(cs[..|cs| - 1], limit), cs[|cs| - 1];
      if last.When() == limit || last.When().Before(limit) then front + [last] else front
  }

  lemma {:induction false} UntilMembers(cs: seq<Candidate>, limit: Clock)
    ensures forall c :: c in Until(cs, limit) <==> c in cs && (c.When() == limit || c.When().Before(limit))
  {
    hide Clock.Before;
    if cs != [] {
      UntilMembers(cs[..|cs| - 1], limit);
      assert cs == cs[..|cs| - 1] + [cs[|cs| - 1]];
    }
  }

  lemma {:induction false} UntilGroup(cs: seq<Candidate>, limit: Clock, clock: Clock)
    requires clock == limit || clock.Before(limit)
    ensures Group(Until(cs, limit), clock) == Group(cs, clock)
  {
    hide Clock.Before;
    if cs != [] {
      var front, last := cs[..|cs| - 1], cs[|cs| - 1];
      UntilGroup(front, limit, clock);
      if last.When() == limit || last.When().Before(limit) {
        assert (Until(front, limit) + [last])[..|Until(front, limit)|] == Until(front, limit);
      }
    }
  }

  lemma {:induction false} CutClocks(clocks: seq<Clock>, limit: Clock) returns (n: nat)
    requires Ordered((x: Clock, y: Clock) => x.Before(y), clocks)
    ensures n <= |clocks|
    ensures forall i :: 0 <= i < |clocks| ==> (i < n <==> clocks[i] == limit || clocks[i].Before(limit))
  {
    n := 0;
    while n < |clocks| && (clocks[n] == limit || clocks[n].Before(limit))
      invariant n <= |clocks|
      invariant forall i :: 0 <= i < n ==> clocks[i] == limit || clocks[i].Before(limit)
    {
      n := n + 1;
    }
    var less := (x: Clock, y: Clock) => x.Before(y);
    forall i | n <= i < |clocks| ensures !(clocks[i] == limit || clocks[i].Before(limit)) {
      assert n < i ==> less(clocks[n], clocks[i]);
    }
  }

  /** Causality: arbitrating only the candidates up to a clock gives a prefix of the full result. */
  lemma {:induction false} NoLookAhead(p: Policy, cs: seq<Candidate>, limit: Clock)
    requires Arbitrate(p, cs).Ok? && Until(cs, limit) != []
    ensures var early, full := Arbitrate(p, Until(cs, limit)), Arbitrate(p, cs).value;
            early.Ok? && |early.value| <= |full| && full[..|early.value|] == early.value
  {
    hide RunClocks, SortedClocks, Group, Clock.Before, Until;
    var some, clocks := Until(cs, limit), SortedClocks(cs);
    SortedClocksFacts(cs);
    SortedClocksFacts(some);
    UntilMembers(cs, limit);
    var n := CutClocks(clocks, limit);
    forall k ensures k in SortedClocks(some) <==> k in clocks[..n] {
      if k in clocks[..n] {
        var i :| 0 <= i < n && clocks[i] == k;
        assert k in clocks;
        var c :| c in cs && c.When() == k;
        assert c in some;
      }
      if k in SortedClocks(some) {
        var c :| c in some && c.When() == k;
        assert k in clocks;
        var i :| 0 <= i < |clocks| && clocks[i] == k;
        assert clocks[..n][i] == k;
      }
    }
    ClocksUnique(SortedClocks(some), clocks[..n]);
    var groups := Groups(cs, clocks);
    forall i | 0 <= i < n ensures Groups(some, clocks[..n])[i] == groups[i] {
      UntilGroup(cs, limit, clocks[i]);
    }
    assert Groups(some, clocks[..n]) == groups[..n];
    RunErrorSticks(p, groups, n);
  }
}
