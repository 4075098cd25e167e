/** Promotion evidence: fold construction and the error of three levels of rounded averages. */
module WalkForward {
  import opened Prelude

  // ----- Half-up rounding -----

  const TICKS: real := 10000.0
  const HALF: real := 0.00005

  /** To the nearest 0.0001; a tie goes away from zero. */
  function Round(x: real): real {
    if x >= 0.0 then (x * TICKS + 0.5).Floor as real / TICKS else 0.0 - ((0.0 - x) * TICKS + 0.5).Floor as real / TICKS
  }

  lemma RoundError(x: real)
    ensures -HALF <= Round(x) - x <= HALF
  {}

  lemma TieGoesAway(k: nat)
    ensures Round((k as real + 0.5) / TICKS) == (k + 1) as real / TICKS
  {}

  // ----- Averages -----

  /** One target's evidence in a session or a holdout. */
  datatype Row = Row(eligible: nat, average: Option<real>)

  function Sum(values: seq<real>): real {
    if values == [] then 0.0 else Sum(values[..|values| - 1]) + values[|values| - 1]
  }

  function Times(x: real, n: nat): real { x * n as real }

  function Over(x: real, n: nat): real
    requires n > 0
  {
    x / n as real
  }

  function EligibleOf(rows: seq<Row>): nat {
    if rows == [] then 0 else EligibleOf(rows[..|rows| - 1]) + rows[|rows| - 1].eligible
  }

  function Weight(row: Row): real { if row.average.Some? then Times(row.average.value, row.eligible) else 0.0 }

  function WeightedSum(rows: seq<Row>): real {
    if rows == [] then 0.0 else WeightedSum(rows[..|rows| - 1]) + Weight(rows[|rows| - 1])
  }

  function WeightedAverage(rows: seq<Row>): Option<real> {
    if EligibleOf(rows) == 0 then None else Some(Round(Over(WeightedSum(rows), EligibleOf(rows))))
  }

  function SessionRow(values: seq<real>): Row {
    Row(|values|, if values == [] then None else Some(Round(Over(Sum(values), |values|))))
  }

  function SessionRows(sessions: seq<seq<real>>): seq<Row> {
    if sessions == [] then [] else SessionRows(sessions[..|sessions| - 1]) + [SessionRow(sessions[|sessions| - 1])]
  }

  /** A holdout combines its sessions' rounded averages. */
  function HoldoutRow(sessions: seq<seq<real>>): Row {
    Row(EligibleOf(SessionRows(sessions)), WeightedAverage(SessionRows(sessions)))
  }

  function HoldoutRows(folds: seq<seq<seq<real>>>): seq<Row> {
    if folds == [] then [] else HoldoutRows(folds[..|folds| - 1]) + [HoldoutRow(folds[|folds| - 1])]
  }

  /** The figure the promotion gate compares with its minimum. */
  function TargetAverage(folds: seq<seq<seq<real>>>): Option<real> { WeightedAverage(HoldoutRows(folds)) }

  // The same, without any rounding.

  function Total(sessions: seq<seq<real>>): real {
    if sessions == [] then 0.0 else Total(sessions[..|sessions| - 1]) + Sum(sessions[|sessions| - 1])
  }

  function Count(sessions: seq<seq<real>>): nat {
    if sessions == [] then 0 else Count(sessions[..|sessions| - 1]) + |sessions[|sessions| - 1]|
  }

  function GrandTotal(folds: seq<seq<seq<real>>>): real {
    if folds == [] then 0.0 else GrandTotal(folds[..|folds| - 1]) + Total(folds[|folds| - 1])
  }

  function GrandCount(folds: seq<seq<seq<real>>>): nat {
    if folds == [] then 0 else GrandCount(folds[..|folds| - 1]) + Count(folds[|folds| - 1])
  }

  // ----- Error -----

  ghost predicate Within(x: real, y: real, bound: real) { -bound <= x - y <= bound }

  /** The row stands for `n` outcomes with this total, up to `error` for each of them. */
  ghost predicate Stands(row: Row, total: real, n: nat, error: real) {
    && row.eligible == n && (row.average.None? <==> n == 0)
    && Within(Weight(row), total, Times(error, n)) && (n == 0 ==> total == 0.0)
  }

  lemma OverTimes(x: real, n: nat)
    requires n > 0
    ensures Times(Over(x, n), n) == x
  {}

  lemma TimesWithin(x: real, y: real, bound: real, n: nat)
    requires Within(x, y, bound)
    ensures Within(Times(x, n), Times(y, n), Times(bound, n))
  {
    assert (x - y + bound) * n as real >= 0.0;
    assert (bound - (x - y)) * n as real >= 0.0;
  }

  lemma TimesSum(x: real, a: nat, b: nat)
    ensures Times(x, a + b) == Times(x, a) + Times(x, b)
  {}

  lemma TimesLinear(x: real, y: real, n: nat)
    ensures Times(x + y, n) == Times(x, n) + Times(y, n)
  {}

  /** Rounding an average moves the total it stands for by at most half a tick for each outcome. */
  lemma RoundedAverage(x: real, n: nat)
    requires n > 0
    ensures Within(Times(Round(Over(x, n)), n), x, Times(HALF, n))
  {
    hide Round, Times, Over;
    RoundError(Over(x, n));
    TimesWithin(Round(Over(x, n)), Over(x, n), HALF, n);
    OverTimes(x, n);
  }

  lemma SessionStands(values: seq<real>)
    ensures Stands(SessionRow(values), Sum(values), |values|, HALF)
  {
    hide Round, Over, Times;
    if values == [] {
      assert Times(HALF, 0) == 0.0 by { TimesZero(HALF); }
    } else {
      RoundedAverage(Sum(values), |values|);
    }
  }

  lemma TimesZero(x: real)
    ensures Times(x, 0) == 0.0
  {}

  /** Averaging rows adds one more half tick. */
  lemma AverageStands(rows: seq<Row>, total: real, n: nat, error: real)
    requires EligibleOf(rows) == n && Within(WeightedSum(rows), total, Times(error, n)) && (n == 0 ==> total == 0.0)
    ensures Stands(Row(n, WeightedAverage(rows)), total, n, error + HALF)
  {
    hide Round, Over, Times, EligibleOf, WeightedSum;
    TimesLinear(error, HALF, n);
    if n == 0 {
      TimesZero(error + HALF);
    } else {
      RoundedAverage(WeightedSum(rows), n);
    }
  }

  lemma {:induction false} SessionsStand(sessions: seq<seq<real>>)
    ensures EligibleOf(SessionRows(sessions)) == Count(sessions)
    ensures Within(WeightedSum(SessionRows(sessions)), Total(sessions), Times(HALF, Count(sessions)))
    ensures Count(sessions) == 0 ==> Total(sessions) == 0.0
  {
    hide Weight, Times, SessionRow, Sum;
    if sessions == [] {
      TimesZero(HALF);
    } else {
      var front, last := sessions[..|sessions| - 1], sessions[|sessions| - 1];
      SessionsStand(front);
      SessionStands(last);
      TimesSum(HALF, Count(front), |last|);
      var rows := SessionRows(front) + [SessionRow(last)];
      assert rows[..|rows| - 1] == SessionRows(front);
    }
  }

  lemma HoldoutStands(sessions: seq<seq<real>>)
    ensures Stands(HoldoutRow(sessions), Total(sessions), Count(sessions), HALF + HALF)
  {
    hide Weight, Times, SessionRows, Total, Count, WeightedAverage, WeightedSum, EligibleOf;
    SessionsStand(sessions);
    AverageStands(SessionRows(sessions), Total(sessions), Count(sessions), HALF);
  }

  lemma {:induction false} HoldoutsStand(folds: seq<seq<seq<real>>>)
    ensures EligibleOf(HoldoutRows(folds)) == GrandCount(folds)
    ensures Within(WeightedSum(HoldoutRows(folds)), GrandTotal(folds), Times(HALF + HALF, GrandCount(folds)))
    ensures GrandCount(folds) == 0 ==> GrandTotal(folds) == 0.0
  {
    hide Weight, Times, HoldoutRow, Total, Count;
    if folds == [] {
      TimesZero(HALF + HALF);
    } else {
      var front, last := folds[..|folds| - 1], folds[|folds| - 1];
      HoldoutsStand(front);
      HoldoutStands(last);
      TimesSum(HALF + HALF, GrandCount(front), Count(last));
      var rows := HoldoutRows(front) + [HoldoutRow(last)];
      assert rows[..|rows| - 1] == HoldoutRows(front);
    }
  }

  /** After three levels of half-up rounding the target average is within 0.00015 of the exact mean of
      all eligible holdout outcomes, and it is absent exactly when there are none. */
  lemma TargetWithin(folds: seq<seq<seq<real>>>)
    ensures TargetAverage(folds).None? <==> GrandCount(folds) == 0
    ensures GrandCount(folds) > 0 ==> Within(TargetAverage(folds).value, Over(GrandTotal(folds), GrandCount(folds)), 0.00015)
  {
    hide Times, HoldoutRows, GrandTotal, GrandCount, WeightedSum, EligibleOf, Round, Over;
    var n := GrandCount(folds);
    HoldoutsStand(folds);
    AverageStands(HoldoutRows(folds), GrandTotal(folds), n, HALF + HALF);
    if n > 0 { Divided(TargetAverage(folds).value, GrandTotal(folds), n, 0.00015); }
  }

  lemma Divided(x: real, total: real, n: nat, bound: real)
    requires n > 0 && Within(Times(x, n), total, Times(bound, n))
    ensures Within(x, Over(total, n), bound)
  {
    var m := Over(total, n);
    OverTimes(total, n);
    assert (x - m - bound) * n as real <= 0.0;
    assert (x - m + bound) * n as real >= 0.0;
  }

  // ----- Folds -----

  datatype Policy = Policy(development: nat, purge: nat, holdout: nat)
  {
    predicate Valid() { development >= 2 && purge >= 1 && holdout >= 1 }
  }

  /** Session positions: development before `developmentEnd`, purge up to `start`, holdout up to `end`. */
  datatype Fold = Fold(developmentEnd: nat, start: nat, end: nat)

  predicate InHoldout(f: Fold, i: nat) { f.start <= i < f.end }

  /** Expanding windows one after another, as many as fit. */
  ghost predicate FoldsOf(p: Policy, n: nat, folds: seq<Fold>) {
    && folds != []
    && (forall k :: 0 <= k < |folds| ==> FoldAt(p, folds[k], k))
    && 0 <= n - folds[|folds| - 1].end < p.holdout
  }

  predicate FoldAt(p: Policy, f: Fold, k: nat) {
    f.start == p.development + p.purge + k * p.holdout && f.developmentEnd == f.start - p.purge && f.end == f.start + p.holdout
  }

  lemma Between(k: nat, a: int, h: nat)
    requires h >= 1
    ensures k * h <= a < k * h + h <==> a >= 0 && a / h == k
  {
    assert a == a / h * h + a % h;
    if k * h <= a < k * h + h {
      var d := a / h - k;
      assert d * h == a / h * h - k * h;
      assert d >= 1 ==> d * h >= h;
      assert d <= -1 ==> d * h <= 0 - h;
    }
  }

  /** Expanding-window folds, or nothing when there are too few sessions. */
  method BuildFolds(n: nat, p: Policy) returns (r: Option<seq<Fold>>)
    requires p.Valid()
    ensures r.None? <==> n < p.development + p.purge + p.holdout
    ensures r.Some? ==> FoldsOf(p, n, r.value)
  {
    var first := p.development + p.purge;
    if n < first + p.holdout {
      return None;
    }
    var folds: seq<Fold> := [];
    var start := first;
    while start + p.holdout <= n
      invariant start == first + |folds| * p.holdout && start <= n
      invariant forall k :: 0 <= k < |folds| ==> FoldAt(p, folds[k], k)
      invariant folds != [] ==> folds[|folds| - 1].end == start
      decreases n - start
    {
      var fold := Fold(start - p.purge, start, start + p.holdout);
      NextFold(|folds|, p.holdout);
      folds := folds + [fold];
      start := start + p.holdout;
    }
    r := Some(folds);
  }

  lemma NextFold(k: nat, h: nat)
    ensures (k + 1) * h == k * h + h
  {}

  /** Every session falls in exactly one of: the initial development and purge, one holdout, or the
      pending tail, which is shorter than a holdout. */
  lemma SessionsPartition(p: Policy, n: nat, folds: seq<Fold>, i: nat)
    requires p.Valid() && FoldsOf(p, n, folds) && i < n
    ensures var first, last := p.development + p.purge, folds[|folds| - 1].end;
            && first <= last <= n && n - last < p.holdout
            && (first <= i < last <==> exists k :: 0 <= k < |folds| && InHoldout(folds[k], i))
            && (forall j, k :: 0 <= j < |folds| && 0 <= k < |folds| && InHoldout(folds[j], i) && InHoldout(folds[k], i) ==> j == k)
  {
    var first, h := p.development + p.purge, p.holdout;
    var last := folds[|folds| - 1];
    assert FoldAt(p, last, |folds| - 1);
    NextFold(|folds| - 1, h);
    assert first <= last.end by { assert |folds| * h >= 0; }
    forall k | 0 <= k < |folds| ensures InHoldout(folds[k], i) <==> i >= first && (i - first) / h == k {
      assert FoldAt(p, folds[k], k);
      Between(k, i - first, h);
    }
    if first <= i < last.end {
      var k := (i - first) / h;
      Bounded(i - first, |folds|, h);
      assert InHoldout(folds[k], i);
    }
    forall k | 0 <= k < |folds| && InHoldout(folds[k], i) ensures first <= i < last.end {
      assert (i - first) / h == k;
      Bounded(i - first, |folds|, h);
    }
  }

  lemma Bounded(a: int, m: nat, h: nat)
    requires h >= 1 && a >= 0
    ensures 0 <= a / h && (a / h < m <==> a < m * h)
  {
    var q := a / h;
    assert a == q * h + a % h;
    var d := m - q;
    assert d * h == m * h - q * h;
    assert d >= 1 ==> d * h >= h;
    assert d <= 0 ==> d * h <= 0;
  }

  /** A holdout never sees its own development: the purge lies between them. */
  lemma NoLeakage(p: Policy, n: nat, folds: seq<Fold>, k: nat, i: nat, j: nat)
    requires p.Valid() && FoldsOf(p, n, folds) && k < |folds| && i < folds[k].developmentEnd && InHoldout(folds[k], j)
    ensures i + p.purge < j < n
  {
    FoldInside(p, n, folds, k);
  }

  lemma FoldInside(p: Policy, n: nat, folds: seq<Fold>, k: nat)
    requires p.Valid() && FoldsOf(p, n, folds) && k < |folds|
    ensures FoldAt(p, folds[k], k) && folds[k].start <= folds[k].end <= folds[|folds| - 1].end <= n
  {
    assert FoldAt(p, folds[k], k) && FoldAt(p, folds[|folds| - 1], |folds| - 1);
    var d := |folds| - 1 - k;
    assert d * p.holdout == (|folds| - 1) * p.holdout - k * p.holdout;
    assert d * p.holdout >= 0;
  }

  // ----- The target over the folds -----

  /** One target's outcomes, holdout by holdout. `sessions` holds its eligible outcomes by session. */
  function Slices(sessions: seq<seq<real>>, folds: seq<Fold>): seq<seq<seq<real>>>
    requires forall k :: 0 <= k < |folds| ==> folds[k].start <= folds[k].end <= |sessions|
  {
    if folds == [] then []
    else Slices(sessions, folds[..|folds| - 1]) + [sessions[folds[|folds| - 1].start..folds[|folds| - 1].end]]
  }

  lemma {:induction false} TotalsAdd(a: seq<seq<real>>, b: seq<seq<real>>)
    ensures Total(a + b) == Total(a) + Total(b) && Count(a + b) == Count(a) + Count(b)
  {
    hide Sum;
    if b == [] {
      assert a + b == a;
    } else {
      TotalsAdd(a, b[..|b| - 1]);
      assert (a + b)[..|a + b| - 1] == a + b[..|b| - 1];
    }
  }

  /** The holdouts of the first `k` folds are one stretch of sessions. */
  lemma {:induction false} SlicesAreStretch(p: Policy, sessions: seq<seq<real>>, folds: seq<Fold>, k: nat)
    requires p.Valid() && FoldsOf(p, |sessions|, folds) && 1 <= k <= |folds|
    requires forall i :: 0 <= i < |folds| ==> folds[i].start <= folds[i].end <= |sessions|
    ensures p.development + p.purge <= folds[k - 1].end
    ensures var stretch := sessions[p.development + p.purge..folds[k - 1].end];
            GrandTotal(Slices(sessions, folds[..k])) == Total(stretch) && GrandCount(Slices(sessions, folds[..k])) == Count(stretch)
  {
    hide Total, Count;
    var first, last := p.development + p.purge, folds[k - 1];
    assert FoldAt(p, last, k - 1);
    assert folds[..k][..k - 1] == folds[..k - 1];
    var slice := sessions[last.start..last.end];
    var before := Slices(sessions, folds[..k - 1]);
    assert (before + [slice])[..|before|] == before;
    if k == 1 {
      assert folds[..0] == [];
    } else {
      SlicesAreStretch(p, sessions, folds, k - 1);
      assert FoldAt(p, folds[k - 2], k - 2);
      NextFold(k - 2, p.holdout);
      var stretch := sessions[first..folds[k - 2].end];
      TotalsAdd(stretch, slice);
      assert stretch + slice == sessions[first..last.end];
    }
  }

  /** The promotion figure over the folds the walk-forward builds is within 0.00015 of the exact mean of
      every eligible outcome in the sessions held out, from the first holdout to the last. */
  lemma WalkForwardTarget(p: Policy, sessions: seq<seq<real>>, folds: seq<Fold>)
    requires p.Valid() && FoldsOf(p, |sessions|, folds)
    ensures forall k :: 0 <= k < |folds| ==> folds[k].start <= folds[k].end <= |sessions|
    ensures p.development + p.purge <= folds[|folds| - 1].end <= |sessions|
    ensures var held := sessions[p.development + p.purge..folds[|folds| - 1].end];
            var average := TargetAverage(Slices(sessions, folds));
            && (average.None? <==> Count(held) == 0)
            && (Count(held) > 0 ==> Within(average.value, Over(Total(held), Count(held)), 0.00015))
  {
    hide Total, Count, GrandTotal, GrandCount, TargetAverage, Over;
    forall k | 0 <= k < |folds| ensures folds[k].start <= folds[k].end <= |sessions| { FoldInside(p, |sessions|, folds, k); }
    SlicesAreStretch(p, sessions, folds, |folds|);
    assert folds[..|folds|] == folds;
    TargetWithin(Slices(sessions, folds));
  }
}
