/** Closed-minute breadth: revision choice, bounded state, and the pairs a decision may use. */
module Breadth {
  import opened Prelude

  const MINUTE: int := 60 * SECOND

  datatype BarKey = BarKey(symbol: Ident, start: Instant)

  datatype Revision = Revision(key: BarKey, observedAt: Instant, receivedAt: Instant, price: real, position: Digest)

  datatype Policy = Policy(lookbackSeconds: nat, staleAfterSeconds: nat)

  /** The revision a minute ends with: newest observation, latest receipt on ties. */
  function Best(history: seq<Revision>, key: BarKey): Option<Revision> {
    if history == [] then None
    else
      var before, last := Best(history[..|history| - 1], key), history[|history| - 1];
      if last.key == key && (before.None? || last.observedAt >= before.value.observedAt) then Some(last) else before
  }

  /** Said without the order of evaluation. */
  ghost predicate Prevails(history: seq<Revision>, i: nat)
    requires i < |history|
  {
    forall j :: 0 <= j < |history| && history[j].key == history[i].key ==>
      history[j].observedAt < history[i].observedAt || (history[j].observedAt == history[i].observedAt && j <= i)
  }

  lemma {:induction false} BestPrevails(history: seq<Revision>, key: BarKey)
    ensures Best(history, key).None? <==> forall j :: 0 <= j < |history| ==> history[j].key != key
    ensures Best(history, key).Some? ==>
              exists i :: 0 <= i < |history| && history[i] == Best(history, key).value && history[i].key == key && Prevails(history, i)
  {
    if history != [] {
      var front, last := history[..|history| - 1], history[|history| - 1];
      BestPrevails(front, key);
      assert forall j :: 0 <= j < |front| ==> front[j] == history[j];
      var before := Best(front, key);
      if last.key == key && (before.None? || last.observedAt >= before.value.observedAt) {
        NewestPrevails(history, before, key);
      } else if before.Some? {
        var i :| 0 <= i < |front| && front[i] == before.value && front[i].key == key && Prevails(front, i);
        assert history[i] == front[i];
        forall j | 0 <= j < |history| && history[j].key == history[i].key
          ensures history[j].observedAt < history[i].observedAt || (history[j].observedAt == history[i].observedAt && j <= i)
        {
          assert j < |front| ==> front[j] == history[j];
        }
      }
    }
  }

  lemma NewestPrevails(history: seq<Revision>, before: Option<Revision>, key: BarKey)
    requires history != [] && history[|history| - 1].key == key
    requires before.None? ==> forall j :: 0 <= j < |history| - 1 ==> history[j].key != key
    requires before.Some? ==>
               && history[|history| - 1].observedAt >= before.value.observedAt
               && exists i :: 0 <= i < |history| - 1 && history[i] == before.value && history[i].key == key && Prevails(history[..|history| - 1], i)
    ensures Prevails(history, |history| - 1)
  {
    var front, last := history[..|history| - 1], history[|history| - 1];
    if before.Some? {
      var i :| 0 <= i < |history| - 1 && history[i] == before.value && history[i].key == key && Prevails(front, i);
      forall j | 0 <= j < |front| && history[j].key == key ensures history[j].observedAt <= last.observedAt {
        assert front[j] == history[j] && front[i] == history[i];
      }
    }
  }

  function Cutoff(p: Policy, receivedAt: Instant): Instant {
    receivedAt - (p.lookbackSeconds + p.staleAfterSeconds + 60) * SECOND
  }

  // ----- What a decision looks up -----

  function CurrentStart(at: Instant): Instant { at - at % MINUTE - MINUTE }

  function BaseStart(p: Policy, at: Instant): Instant { CurrentStart(at) - p.lookbackSeconds * SECOND }

  /** Pruning never reaches a minute that a decision may still look up, at any instant and after any
      receipt, exactly when the staleness bound is at least one minute. */
  lemma StalenessCoversPruning(p: Policy)
    ensures p.staleAfterSeconds >= 60 <==>
              forall at: Instant, received: Instant :: received <= at ==> BaseStart(p, at) >= Cutoff(p, received)
  {
    if p.staleAfterSeconds < 60 {
      var at := MINUTE - 1;
      assert at % MINUTE == at;
      assert BaseStart(p, at) < Cutoff(p, at);
    }
  }

  predicate Fresh(p: Policy, boundary: Instant, r: Revision) {
    boundary - r.observedAt <= p.staleAfterSeconds * SECOND
  }

  datatype Pair = Pair(symbol: Ident, baseline: Revision, current: Revision)

  /** The pair a symbol contributes, if both minutes are known and fresh. */
  function PairOf(p: Policy, symbol: Ident, at: Instant, baseline: Option<Revision>, current: Option<Revision>): seq<Pair> {
    if && baseline.Some? && current.Some? && Fresh(p, at, current.value)
       && Fresh(p, at - p.lookbackSeconds * SECOND, baseline.value)
    then [Pair(symbol, baseline.value, current.value)] else []
  }

  /** What a decision would use if nothing had ever been dropped. */
  function Pairs(p: Policy, history: seq<Revision>, symbols: seq<Ident>, at: Instant): seq<Pair> {
    if symbols == [] then []
    else
      var s := symbols[|symbols| - 1];
      Pairs(p, history, symbols[..|symbols| - 1], at)
      + PairOf(p, s, at, Best(history, BarKey(s, BaseStart(p, at))), Best(history, BarKey(s, CurrentStart(at))))
  }

  /** The revision stands at `i`: of this symbol and minute, and nothing in the history supersedes it. */
  ghost predicate Stands(history: seq<Revision>, symbol: Ident, start: Instant, i: int) {
    0 <= i < |history| && history[i].key == BarKey(symbol, start) && Prevails(history, i)
  }

  lemma BestStands(history: seq<Revision>, symbol: Ident, start: Instant, r: Revision)
    ensures Best(history, BarKey(symbol, start)) == Some(r) <==> exists i :: Stands(history, symbol, start, i) && history[i] == r
  {
    hide Best;
    BestPrevails(history, BarKey(symbol, start));
    if i :| Stands(history, symbol, start, i) && history[i] == r {
      assert history[i].key == BarKey(symbol, start);
      var j :| 0 <= j < |history| && history[j] == Best(history, BarKey(symbol, start)).value && history[j].key == BarKey(symbol, start) && Prevails(history, j);
    }
  }

  /** A pair of standing revisions: of the minute that last closed before the decision and of the one a lookback
      earlier, neither observed longer before its own boundary than the staleness bound. */
  ghost predicate IsPair(p: Policy, history: seq<Revision>, at: Instant, pair: Pair) {
    var closing := at / 60_000_000 * 60_000_000 - 60_000_000;
    && (exists i :: Stands(history, pair.symbol, closing, i) && history[i] == pair.current)
    && (exists i :: Stands(history, pair.symbol, closing - p.lookbackSeconds * 1_000_000, i) && history[i] == pair.baseline)
    && at <= pair.current.observedAt + p.staleAfterSeconds * 1_000_000
    && at - p.lookbackSeconds * 1_000_000 <= pair.baseline.observedAt + p.staleAfterSeconds * 1_000_000
  }

  lemma StartsMean(p: Policy, at: Instant)
    ensures CurrentStart(at) == at / 60_000_000 * 60_000_000 - 60_000_000
    ensures BaseStart(p, at) == at / 60_000_000 * 60_000_000 - 60_000_000 - p.lookbackSeconds * 1_000_000
  {
    assert at % MINUTE == at - at / MINUTE * MINUTE;
  }

  lemma OnePair(p: Policy, history: seq<Revision>, s: Ident, at: Instant, pair: Pair)
    ensures pair in PairOf(p, s, at, Best(history, BarKey(s, BaseStart(p, at))), Best(history, BarKey(s, CurrentStart(at))))
            <==> pair.symbol == s && IsPair(p, history, at, pair)
  {
    hide Best, Stands, CurrentStart, BaseStart;
    StartsMean(p, at);
    BestStands(history, s, CurrentStart(at), pair.current);
    BestStands(history, s, BaseStart(p, at), pair.baseline);
  }

  /** The pairs of a decision are exactly the standing, fresh pairs of its symbols. */
  lemma {:induction false} PairsExactly(p: Policy, history: seq<Revision>, symbols: seq<Ident>, at: Instant, pair: Pair)
    ensures pair in Pairs(p, history, symbols, at) <==> pair.symbol in symbols && IsPair(p, history, at, pair)
  {
    hide Best, PairOf, IsPair, CurrentStart, BaseStart;
    if symbols != [] {
      PairsExactly(p, history, symbols[..|symbols| - 1], at, pair);
      assert symbols == symbols[..|symbols| - 1] + [symbols[|symbols| - 1]];
      OnePair(p, history, symbols[|symbols| - 1], at, pair);
    }
  }

  datatype BreadthError = NotReceiptOrdered | BuiltTooEarly | ClockNotIncreasing

  class BreadthEngine {
    const policy: Policy
    const members: set<Ident>
    var bars: map<BarKey, Revision>
    var lastReceived: Option<Instant>
    var lastDecision: Option<Instant>
    /** Every provider bar of a member ever received, and the receipt that last pruned the table. */
    ghost var history: seq<Revision>
    ghost var prunedAt: Option<Instant>

    /** The table is the whole history's answer for every minute pruning has not passed. */
    ghost predicate Valid()
      reads this
    {
      && (history != [] <==> prunedAt.Some?) && (prunedAt.Some? ==> lastReceived.Some? && prunedAt.value <= lastReceived.value)
      && (forall key: BarKey :: prunedAt.Some? && key.start >= Cutoff(policy, prunedAt.value) && Best(history, key).Some? ==> key in bars)
      && (forall key :: key in bars ==> prunedAt.Some? && key.start >= Cutoff(policy, prunedAt.value) && Some(bars[key]) == Best(history, key))
    }

    constructor (policy: Policy, members: set<Ident>)
      ensures Valid() && history == [] && this.policy == policy && this.members == members
    {
      this.policy, this.members := policy, members;
      bars, lastReceived, lastDecision, history, prunedAt := map[], None, None, [], None;
    }

    /** One envelope; `bar` is the provider bar it decodes to, if any. */
    method Apply(symbol: Ident, receivedAt: Instant, bar: Option<Revision>) returns (r: Result<bool, BreadthError>)
      requires Valid() && (bar.Some? ==> bar.value.key.symbol == symbol && bar.value.receivedAt == receivedAt)
      modifies this
      ensures Valid() && lastDecision == old(lastDecision)
      ensures r.Err? <==> old(lastReceived).Some? && receivedAt < old(lastReceived).value
      ensures r.Err? ==> history == old(history) && lastReceived == old(lastReceived)
      ensures r.Ok? ==> lastReceived == Some(receivedAt)
                        && history == old(history) + if symbol in members && bar.Some? then [bar.value] else []
    {
      hide Best;
      if lastReceived.Some? && receivedAt < lastReceived.value {
        return Err(NotReceiptOrdered);
      }
      lastReceived := Some(receivedAt);
      if symbol !in members || bar.None? {
        return Ok(false);
      }
      var b := bar.value;
      ghost var before, was := bars, prunedAt;
      if b.key !in bars || b.observedAt >= bars[b.key].observedAt {
        bars := bars[b.key := b];
      }
      ghost var grown := history + [b];
      BestMore(history, b);
      bars := map key | key in bars && key.start >= Cutoff(policy, receivedAt) :: bars[key];
      history := grown;
      prunedAt := Some(receivedAt);
      r := Ok(true);
    }

    /** The pairs a decision uses are those of the full history, although the table is bounded. */
    method Build(symbols: seq<Ident>, at: Instant) returns (r: Result<seq<Pair>, BreadthError>)
      requires Valid() && policy.staleAfterSeconds >= 60
      modifies this`lastDecision
      ensures Valid()
      ensures r.Err? <==> (lastReceived.Some? && lastReceived.value > at) || (old(lastDecision).Some? && at <= old(lastDecision).value)
      ensures r.Ok? ==> r.value == Pairs(policy, history, symbols, at) && lastDecision == Some(at)
    {
      if lastReceived.Some? && lastReceived.value > at {
        return Err(BuiltTooEarly);
      }
      if lastDecision.Some? && at <= lastDecision.value {
        return Err(ClockNotIncreasing);
      }
      lastDecision := Some(at);
      var found: seq<Pair> := [];
      for i := 0 to |symbols|
        invariant Valid() && lastDecision == Some(at)
        invariant found == Pairs(policy, history, symbols[..i], at)
      {
        assert symbols[..i + 1][..i] == symbols[..i];
        var baseline := Lookup(symbols[i], BaseStart(policy, at), at);
        var current := Lookup(symbols[i], CurrentStart(at), at);
        found := found + PairOf(policy, symbols[i], at, baseline, current);
      }
      assert symbols[..|symbols|] == symbols;
      r := Ok(found);
    }

    method Lookup(symbol: Ident, start: Instant, at: Instant) returns (r: Option<Revision>)
      requires Valid() && policy.staleAfterSeconds >= 60 && start >= BaseStart(policy, at) && (lastReceived.Some? ==> lastReceived.value <= at)
      ensures r == Best(history, BarKey(symbol, start))
    {
      StalenessCoversPruning(policy);
      var key := BarKey(symbol, start);
      r := if key in bars then Some(bars[key]) else None;
    }
  }

  lemma BestMore(history: seq<Revision>, b: Revision)
    ensures history == [] ==> forall key :: Best(history, key).None?
    ensures forall key :: Best(history + [b], key)
                          == if b.key == key && (Best(history, key).None? || b.observedAt >= Best(history, key).value.observedAt) then Some(b) else Best(history, key)
  {
    assert (history + [b])[..|history|] == history;
  }
}
