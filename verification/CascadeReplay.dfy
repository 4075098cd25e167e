/** The live cascade of features, contexts, scoring and arbitration equals the three-pass batch. */
module CascadeReplay {
  import opened Prelude
  import opened Journal
  import opened JournalReplay
  import opened JournalExact
  import opened Sorting
  import opened Arbitration
  import opened Arbitrator
  import opened ArbitrationRuns
  import opened ArbitrationReplay
  import opened JournalCascade

  // ----- Clock by clock -----

  /** What one decision clock sees: its snapshots and its context. */
  datatype Row<V, K> = Row(at: Instant, shots: seq<Snap<V>>, context: K)

  /** Feature and context engines side by side on one trace. */
  function Twin<F, C, V(!new), K(!new)>(m: Machines<F, C, V, K>, trace: seq<Event>): (F, C, seq<Row<V, K>>) {
    if trace == [] then (m.feature, m.context, [])
    else
      var before := Twin(m, trace[..|trace| - 1]);
      match trace[|trace| - 1]
      case Applied(e) => (m.feed(before.0, e), m.hear(before.1, e), before.2)
      case Decided(time, flag) =>
        var seen := m.look(before.0, time);
        var shots := Shots(m, seen.1, time, flag);
        var built := m.build(before.1, shots);
        (seen.0, built.0, before.2 + [Row(time, shots, built.1)])
  }

  function Flat<V, K>(rows: seq<Row<V, K>>): seq<Snap<V>> {
    if rows == [] then [] else Flat(rows[..|rows| - 1]) + rows[|rows| - 1].shots
  }

  function ContextsOf<V, K>(rows: seq<Row<V, K>>): seq<Timed<K>> {
    if rows == [] then [] else ContextsOf(rows[..|rows| - 1]) + [Timed(rows[|rows| - 1].at, rows[|rows| - 1].context)]
  }

  predicate Ascending<V, K>(rows: seq<Row<V, K>>) {
    forall i, j :: 0 <= i < j < |rows| ==> rows[i].at < rows[j].at
  }

  /** A row has one snapshot for every configured symbol, all of its own clock. */
  predicate RowFine<F, C, V(!new), K(!new)>(m: Machines<F, C, V, K>, row: Row<V, K>) {
    |row.shots| == |m.symbols| && forall i :: 0 <= i < |row.shots| ==> row.shots[i].symbol == m.symbols[i] && row.shots[i].at == row.at
  }

  predicate RowsFine<F, C, V(!new), K(!new)>(m: Machines<F, C, V, K>, rows: seq<Row<V, K>>) {
    Ascending(rows) && forall i :: 0 <= i < |rows| ==> RowFine(m, rows[i])
  }

  function TimesOf<V, K>(rows: seq<Row<V, K>>): seq<Instant> {
    if rows == [] then [] else TimesOf(rows[..|rows| - 1]) + [rows[|rows| - 1].at]
  }

  function DecidedTimes(trace: seq<Event>): seq<Instant> {
    if trace == [] then []
    else DecidedTimes(trace[..|trace| - 1]) + if trace[|trace| - 1].Decided? then [trace[|trace| - 1].at] else []
  }

  lemma {:induction false} MergeTimes(envelopes: seq<Envelope>, times: seq<Instant>, flags: seq<bool>)
    requires |flags| == |times|
    ensures DecidedTimes(Merge(envelopes, times, flags)) == times
    decreases |envelopes| + |times|
  {
    var n, m := |envelopes|, |times|;
    if n == 0 && m == 0 {
    } else if m == 0 || (n > 0 && envelopes[n - 1].receivedAt > times[m - 1]) {
      MergeTimes(envelopes[..n - 1], times, flags);
      var front := Merge(envelopes[..n - 1], times, flags);
      assert (front + [Applied(envelopes[n - 1])])[..|front|] == front;
    } else {
      MergeTimes(envelopes, times[..m - 1], flags[..m - 1]);
      var front := Merge(envelopes, times[..m - 1], flags[..m - 1]);
      assert (front + [Decided(times[m - 1], flags[m - 1])])[..|front|] == front;
      assert times == times[..m - 1] + [times[m - 1]];
    }
  }

  lemma {:induction false} TwinRows<F, C, V(!new), K(!new)>(m: Machines<F, C, V, K>, trace: seq<Event>)
    ensures TimesOf(Twin(m, trace).2) == DecidedTimes(trace)
    ensures forall i :: 0 <= i < |Twin(m, trace).2| ==> RowFine(m, Twin(m, trace).2[i])
  {
    if trace != [] {
      TwinRows(m, trace[..|trace| - 1]);
      var before := Twin(m, trace[..|trace| - 1]).2;
      var rows := Twin(m, trace).2;
      if trace[|trace| - 1].Decided? { assert rows[..|rows| - 1] == before; }
    }
  }

  lemma {:induction false} TimesIndexed<V, K>(rows: seq<Row<V, K>>)
    ensures |TimesOf(rows)| == |rows| && forall i :: 0 <= i < |rows| ==> TimesOf(rows)[i] == rows[i].at
  {
    if rows != [] { TimesIndexed(rows[..|rows| - 1]); }
  }

  /** On a merge of ascending clocks the rows are fine, one for each clock. */
  lemma MergeRows<F, C, V(!new), K(!new)>(m: Machines<F, C, V, K>, envelopes: seq<Envelope>, times: seq<Instant>, flags: seq<bool>)
    requires |flags| == |times| && forall i, j :: 0 <= i < j < |times| ==> times[i] < times[j]
    ensures var rows := Twin(m, Merge(envelopes, times, flags)).2; RowsFine(m, rows) && TimesOf(rows) == times && |rows| == |times|
  {
    hide Twin, Merge, RowFine;
    var trace := Merge(envelopes, times, flags);
    MergeTimes(envelopes, times, flags);
    TwinRows(m, trace);
    TimesIndexed(Twin(m, trace).2);
  }

  // ----- The three passes, row by row -----

  lemma {:induction false} TwinFeatures<F, C, V(!new), K(!new)>(m: Machines<F, C, V, K>, trace: seq<Event>)
    ensures Features(m, trace) == (Twin(m, trace).0, Flat(Twin(m, trace).2))
  {
    if trace != [] {
      TwinFeatures(m, trace[..|trace| - 1]);
      var before, rows := Twin(m, trace[..|trace| - 1]).2, Twin(m, trace).2;
      if trace[|trace| - 1].Decided? { assert rows[..|rows| - 1] == before; }
    }
  }

  lemma {:induction false} AtClockAdds<V>(a: seq<Snap<V>>, b: seq<Snap<V>>, t: Instant)
    ensures AtClock(a + b, t) == AtClock(a, t) + AtClock(b, t)
  {
    if b == [] {
      assert a + b == a;
    } else {
      AtClockAdds(a, b[..|b| - 1], t);
      assert (a + b)[..|a + b| - 1] == a + b[..|b| - 1];
    }
  }

  lemma {:induction false} AtClockSame<V>(shots: seq<Snap<V>>, own: Instant, t: Instant)
    requires forall i :: 0 <= i < |shots| ==> shots[i].at == own
    ensures AtClock(shots, t) == if t == own then shots else []
  {
    if shots != [] {
      AtClockSame(shots[..|shots| - 1], own, t);
      assert shots == shots[..|shots| - 1] + [shots[|shots| - 1]];
    }
  }

  /** The snapshots of the row at `t`, if there is one. */
  function RowAt<V, K>(rows: seq<Row<V, K>>, t: Instant): seq<Snap<V>> {
    if rows == [] then [] else if rows[|rows| - 1].at == t then rows[|rows| - 1].shots else RowAt(rows[..|rows| - 1], t)
  }

  lemma {:induction false} NoRowAt<V, K>(rows: seq<Row<V, K>>, t: Instant)
    requires forall i :: 0 <= i < |rows| ==> rows[i].at != t
    ensures RowAt(rows, t) == []
  {
    if rows != [] { NoRowAt(rows[..|rows| - 1], t); }
  }

  lemma {:induction false} FlatAt<F, C, V(!new), K(!new)>(m: Machines<F, C, V, K>, rows: seq<Row<V, K>>, t: Instant)
    requires RowsFine(m, rows)
    ensures AtClock(Flat(rows), t) == RowAt(rows, t)
  {
    if rows != [] {
      var front, last := rows[..|rows| - 1], rows[|rows| - 1];
      FlatAt(m, front, t);
      AtClockAdds(Flat(front), last.shots, t);
      assert RowFine(m, last);
      AtClockSame(last.shots, last.at, t);
      if t == last.at { NoRowAt(front, t); }
    }
  }

  lemma {:induction false} RowAtIndex<V, K>(rows: seq<Row<V, K>>, i: nat)
    requires Ascending(rows) && i < |rows|
    ensures RowAt(rows, rows[i].at) == rows[i].shots
  {
    if i < |rows| - 1 { RowAtIndex(rows[..|rows| - 1], i); }
  }

  /** The context pass over any snapshots that group like the rows builds the rows' contexts. */
  lemma {:induction false} TwinContexts<F, C, V(!new), K(!new)>(m: Machines<F, C, V, K>, snaps: seq<Snap<V>>, trace: seq<Event>)
    requires forall i :: 0 <= i < |Twin(m, trace).2| ==> AtClock(snaps, Twin(m, trace).2[i].at) == Twin(m, trace).2[i].shots
    ensures Contexts(m, snaps, trace) == (Twin(m, trace).1, ContextsOf(Twin(m, trace).2))
  {
    hide AtClock, Shots;
    if trace != [] {
      var front := trace[..|trace| - 1];
      var before, rows := Twin(m, front).2, Twin(m, trace).2;
      assert forall i :: 0 <= i < |before| ==> rows[i] == before[i];
      TwinContexts(m, snaps, front);
      if trace[|trace| - 1].Decided? {
        assert rows[..|rows| - 1] == before;
        assert AtClock(snaps, rows[|rows| - 1].at) == rows[|rows| - 1].shots;
      }
    }
  }

  // ----- The live cascade, row by row -----

  /** The deque of earlier snapshots after these clocks. */
  function HistoryAfter<F, C, V(!new), K(!new)>(m: Machines<F, C, V, K>, rows: seq<Row<V, K>>): seq<Snap<V>> {
    if rows == [] then []
    else DropBefore(HistoryAfter(m, rows[..|rows| - 1]), rows[|rows| - 1].at - m.lag) + rows[|rows| - 1].shots
  }

  /** The candidates of the last clock. */
  function LastGroup<F, C, V(!new), K(!new)>(m: Machines<F, C, V, K>, rows: seq<Row<V, K>>): seq<Candidate>
    requires rows != []
  {
    var last := rows[|rows| - 1];
    Score(m, last.shots, [Timed(last.at, last.context)], DropBefore(HistoryAfter(m, rows[..|rows| - 1]), last.at - m.lag))
  }

  function GroupsOf<F, C, V(!new), K(!new)>(m: Machines<F, C, V, K>, rows: seq<Row<V, K>>): seq<seq<Candidate>> {
    if rows == [] then [] else GroupsOf(m, rows[..|rows| - 1]) + [LastGroup(m, rows)]
  }

  /** The journal holds what the rows say, or has stopped at the first clock that arbitration refuses. */
  ghost predicate Follows<F, C, V(!new), K(!new)>(m: Machines<F, C, V, K>, p: Policy, twin: (F, C, seq<Row<V, K>>), l: Live<F, C, V, K>) {
    var run := RunClocks(p, GroupsOf(m, twin.2));
    if run.Err? then
      l.failed == Some(run.error) && l.snaps <= Flat(twin.2) && l.contexts <= ContextsOf(twin.2) && l.candidates <= Concat(GroupsOf(m, twin.2))
    else l == Live(twin.0, twin.1, HistoryAfter(m, twin.2), run.value.memory, Flat(twin.2), ContextsOf(twin.2),
                   Concat(GroupsOf(m, twin.2)), run.value.verdicts, None)
  }

  lemma RowMore<F, C, V(!new), K(!new)>(m: Machines<F, C, V, K>, p: Policy, rows: seq<Row<V, K>>, row: Row<V, K>)
    ensures var all, found := rows + [row], Score(m, row.shots, [Timed(row.at, row.context)], DropBefore(HistoryAfter(m, rows), row.at - m.lag));
            && HistoryAfter(m, all) == DropBefore(HistoryAfter(m, rows), row.at - m.lag) + row.shots
            && Flat(all) == Flat(rows) + row.shots && ContextsOf(all) == ContextsOf(rows) + [Timed(row.at, row.context)]
            && GroupsOf(m, all) == GroupsOf(m, rows) + [found] && Concat(GroupsOf(m, all)) == Concat(GroupsOf(m, rows)) + found
  {
    hide Score, DropBefore;
    var all := rows + [row];
    assert all[..|all| - 1] == rows;
    var gs := GroupsOf(m, all);
    assert gs[..|gs| - 1] == GroupsOf(m, rows);
  }

  lemma RunMore(p: Policy, groups: seq<seq<Candidate>>, found: seq<Candidate>)
    ensures var run, all := RunClocks(p, groups), RunClocks(p, groups + [found]);
            && (run.Err? ==> all == run)
            && (run.Ok? ==> var d := DecideClock(p, run.value.memory, found);
                            if d.Err? then all == Err(d.error) else all == Ok(Decision(d.value.memory, run.value.verdicts + d.value.verdicts)))
  {
    hide DecideClock;
    assert (groups + [found])[..|groups|] == groups;
  }

  lemma LiveDecides<F, C, V(!new), K(!new)>(m: Machines<F, C, V, K>, p: Policy, twin: (F, C, seq<Row<V, K>>), l: Live<F, C, V, K>, time: Instant, flag: bool)
    requires Follows(m, p, twin, l)
    ensures var seen := m.look(twin.0, time);
            var shots := Shots(m, seen.1, time, flag);
            var built := m.build(twin.1, shots);
            Follows(m, p, (seen.0, built.0, twin.2 + [Row(time, shots, built.1)]), LiveStep(m, p, l, Decided(time, flag)))
  {
    hide Score, DropBefore, DecideClock, Shots, HistoryAfter, GroupsOf, Flat, ContextsOf, Concat, RunClocks;
    var seen := m.look(twin.0, time);
    var shots := Shots(m, seen.1, time, flag);
    var built := m.build(twin.1, shots);
    var row := Row(time, shots, built.1);
    RowMore(m, p, twin.2, row);
    var found := Score(m, shots, [Timed(time, built.1)], DropBefore(HistoryAfter(m, twin.2), time - m.lag));
    RunMore(p, GroupsOf(m, twin.2), found);
  }

  lemma {:induction false} LiveFollows<F, C, V(!new), K(!new)>(m: Machines<F, C, V, K>, p: Policy, trace: seq<Event>)
    ensures Follows(m, p, Twin(m, trace), LiveDay(m, p, trace))
  {
    hide Shots, Score, DecideClock;
    if trace != [] {
      hide Follows;
      var front, last := trace[..|trace| - 1], trace[|trace| - 1];
      LiveFollows(m, p, front);
      if last.Decided? {
        LiveDecides(m, p, Twin(m, front), LiveDay(m, p, front), last.at, last.gapFlag);
      } else {
        LiveApplies(m, p, Twin(m, front), LiveDay(m, p, front), last.envelope);
      }
    }
  }

  lemma LiveApplies<F, C, V(!new), K(!new)>(m: Machines<F, C, V, K>, p: Policy, twin: (F, C, seq<Row<V, K>>), l: Live<F, C, V, K>, e: Envelope)
    requires Follows(m, p, twin, l)
    ensures Follows(m, p, (m.feed(twin.0, e), m.hear(twin.1, e), twin.2), LiveStep(m, p, l, Applied(e)))
  {
    hide RunClocks, GroupsOf, HistoryAfter, Flat, ContextsOf, Concat;
  }

  // ----- Scoring with a pruned history -----

  lemma {:induction false} DropKeeps<V>(history: seq<Snap<V>>, cutoff: Instant, t: Instant)
    requires t >= cutoff
    ensures AtClock(DropBefore(history, cutoff), t) == AtClock(history, t)
    decreases |history|
  {
    if history != [] && history[0].at < cutoff {
      DropKeeps(history[1..], cutoff, t);
      assert history == [history[0]] + history[1..];
      AtClockAdds([history[0]], history[1..], t);
      assert AtClock([history[0]], t) == [];
    }
  }

  /** The pruned deque answers for every clock within the lag as the full history does. */
  lemma {:induction false} HistoryAnswers<F, C, V(!new), K(!new)>(m: Machines<F, C, V, K>, rows: seq<Row<V, K>>, t: Instant)
    requires Ascending(rows) && (rows != [] ==> t >= rows[|rows| - 1].at - m.lag)
    ensures AtClock(HistoryAfter(m, rows), t) == AtClock(Flat(rows), t)
  {
    hide DropBefore, AtClock;
    if rows != [] {
      var front, last := rows[..|rows| - 1], rows[|rows| - 1];
      HistoryAnswers(m, front, t);
      DropKeeps(HistoryAfter(m, front), last.at - m.lag, t);
      AtClockAdds(DropBefore(HistoryAfter(m, front), last.at - m.lag), last.shots, t);
      AtClockAdds(Flat(front), last.shots, t);
    }
  }

  lemma {:induction false} EachSame<F, C, V(!new), K(!new)>(m: Machines<F, C, V, K>, a: seq<Snap<V>>, ka: seq<Timed<K>>, b: seq<Snap<V>>, kb: seq<Timed<K>>, sorted: seq<Snap<V>>)
    requires forall i :: 0 <= i < |sorted| ==> ScoreOne(m, a, ka, sorted[i]) == ScoreOne(m, b, kb, sorted[i])
    ensures ScoreEach(m, a, ka, sorted) == ScoreEach(m, b, kb, sorted)
  {
    hide ScoreOne;
    if sorted != [] { EachSame(m, a, ka, b, kb, sorted[..|sorted| - 1]); }
  }

  lemma {:induction false} EachAdds<F, C, V(!new), K(!new)>(m: Machines<F, C, V, K>, a: seq<Snap<V>>, k: seq<Timed<K>>, x: seq<Snap<V>>, y: seq<Snap<V>>)
    ensures ScoreEach(m, a, k, x + y) == ScoreEach(m, a, k, x) + ScoreEach(m, a, k, y)
  {
    hide ScoreOne;
    if y == [] {
      assert x + y == x;
    } else {
      EachAdds(m, a, k, x, y[..|y| - 1]);
      assert (x + y)[..|x + y| - 1] == x + y[..|y| - 1];
    }
  }

  lemma SnapIsOrder<V(!new)>(s: set<Snap<V>>)
    requires forall a, b :: a in s && b in s && a.at == b.at && a.symbol == b.symbol ==> a == b
    ensures StrictOrder((a: Snap<V>, b: Snap<V>) => SnapBefore(a, b), s)
  {}

  lemma {:induction false} FlatMembers<F, C, V(!new), K(!new)>(m: Machines<F, C, V, K>, rows: seq<Row<V, K>>, s: Snap<V>)
    requires RowsFine(m, rows) && s in Flat(rows)
    ensures exists i, j :: 0 <= i < |rows| && 0 <= j < |m.symbols| && rows[i].shots[j] == s
  {
    var front, last := rows[..|rows| - 1], rows[|rows| - 1];
    assert RowFine(m, last);
    if s in Flat(front) {
      FlatMembers(m, front, s);
      var i, j :| 0 <= i < |front| && 0 <= j < |m.symbols| && front[i].shots[j] == s;
      assert rows[i] == front[i];
    } else {
      var j :| 0 <= j < |last.shots| && last.shots[j] == s;
      assert rows[|rows| - 1].shots[j] == s;
    }
  }

  lemma ShotsDiffer<F, C, V(!new), K(!new)>(m: Machines<F, C, V, K>, rows: seq<Row<V, K>>, i: nat, j: nat, x: nat, y: nat)
    requires Distinct(m.symbols) && RowsFine(m, rows) && i < |rows| && x < |rows| && j < |m.symbols| && y < |m.symbols|
    requires |rows[i].shots| == |m.symbols| == |rows[x].shots|
    requires rows[i].shots[j].at == rows[x].shots[y].at && rows[i].shots[j].symbol == rows[x].shots[y].symbol
    ensures i == x && j == y
  {
    assert RowFine(m, rows[i]) && RowFine(m, rows[x]);
    assert !(i < x) && !(x < i);
    assert !(j < y) && !(y < j);
  }

  /** Snapshots are told apart by clock and symbol. */
  lemma FlatKeys<F, C, V(!new), K(!new)>(m: Machines<F, C, V, K>, rows: seq<Row<V, K>>)
    requires m.Valid() && RowsFine(m, rows)
    ensures forall a, b :: a in Flat(rows) && b in Flat(rows) && a.at == b.at && a.symbol == b.symbol ==> a == b
  {
    hide Flat, Machines.Valid, Distinct, Ascending, RowFine;
    assert Distinct(m.symbols) by { SymbolsDistinct(m); }
    forall i | 0 <= i < |rows| ensures |rows[i].shots| == |m.symbols| { ShotCount(m, rows[i]); }
    forall a, b | a in Flat(rows) && b in Flat(rows) && a.at == b.at && a.symbol == b.symbol ensures a == b {
      FlatMembers(m, rows, a);
      FlatMembers(m, rows, b);
      var i, j :| 0 <= i < |rows| && 0 <= j < |m.symbols| && rows[i].shots[j] == a;
      var x, y :| 0 <= x < |rows| && 0 <= y < |m.symbols| && rows[x].shots[y] == b;
      ShotsDiffer(m, rows, i, j, x, y);
    }
  }

  lemma SymbolsDistinct<F, C, V(!new), K(!new)>(m: Machines<F, C, V, K>)
    requires m.Valid()
    ensures Distinct(m.symbols) && m.symbols != [] && m.lag >= 1
  {}

  lemma {:induction false} FlatDistinct<F, C, V(!new), K(!new)>(m: Machines<F, C, V, K>, rows: seq<Row<V, K>>)
    requires Distinct(m.symbols) && RowsFine(m, rows)
    ensures Distinct(Flat(rows)) && forall s :: s in Flat(rows) ==> rows != [] && s.at <= rows[|rows| - 1].at
  {
    if rows != [] {
      var front, last := rows[..|rows| - 1], rows[|rows| - 1];
      FlatDistinct(m, front);
      assert RowFine(m, last);
      assert front != [] ==> front[|front| - 1] == rows[|rows| - 2];
      DistinctJoin(Flat(front), last.shots);
    }
  }

  lemma DistinctJoin<T>(a: seq<T>, b: seq<T>)
    requires Distinct(a) && Distinct(b) && forall x :: x in a ==> x !in b
    ensures Distinct(a + b)
  {
    var all := a + b;
    forall i, j | 0 <= i < j < |all| ensures all[i] != all[j] {
      if j < |a| {
      } else if i < |a| {
        assert all[i] in a && all[j] in b;
      } else {
        assert all[i] == b[i - |a|] && all[j] == b[j - |a|];
      }
    }
  }

  /** Sorting the day by clock and symbol is sorting clock by clock. */
  lemma SortSplits<F, C, V(!new), K(!new)>(m: Machines<F, C, V, K>, rows: seq<Row<V, K>>)
    requires m.Valid() && RowsFine(m, rows) && rows != []
    ensures InOrder(Flat(rows)) == InOrder(Flat(rows[..|rows| - 1])) + InOrder(rows[|rows| - 1].shots)
    ensures Among(InOrder(Flat(rows[..|rows| - 1])), Flat(rows[..|rows| - 1]))
    ensures Among(InOrder(rows[|rows| - 1].shots), rows[|rows| - 1].shots) && |InOrder(rows[|rows| - 1].shots)| == |rows[|rows| - 1].shots|
  {
    hide Machines.Valid, SnapBefore, Sort, RowFine;
    var less := (a: Snap<V>, b: Snap<V>) => SnapBefore(a, b);
    var early, shots := Flat(rows[..|rows| - 1]), rows[|rows| - 1].shots;
    assert Distinct(m.symbols) by { SymbolsDistinct(m); }
    FlatKeys(m, rows);
    FlatDistinct(m, rows);
    SnapIsOrder(Elements(early + shots));
    forall x, y | x in early && y in shots ensures less(x, y) { EarlierClock(m, rows, x, y); }
    SortJoin(less, early, shots);
    PartsOrdered(less, early, shots);
    SortedMembers(less, early);
    SortedMembers(less, shots);
    SortFacts(less, shots);
  }

  ghost predicate Among<V>(a: seq<Snap<V>>, b: seq<Snap<V>>) { forall s :: s in a ==> s in b }

  lemma SameScore<F, C, V(!new), K(!new)>(m: Machines<F, C, V, K>, a: seq<Snap<V>>, ka: seq<Timed<K>>, b: seq<Snap<V>>, kb: seq<Timed<K>>, s: Snap<V>)
    requires AtClock(a, s.at) == AtClock(b, s.at) && AtClock(a, s.at - m.lag) == AtClock(b, s.at - m.lag)
    requires ContextAt(ka, s.at) == ContextAt(kb, s.at)
    ensures ScoreOne(m, a, ka, s) == ScoreOne(m, b, kb, s)
  {}

  lemma EarlierClock<F, C, V(!new), K(!new)>(m: Machines<F, C, V, K>, rows: seq<Row<V, K>>, x: Snap<V>, y: Snap<V>)
    requires RowsFine(m, rows) && rows != [] && Distinct(m.symbols) && x in Flat(rows[..|rows| - 1]) && y in rows[|rows| - 1].shots
    ensures SnapBefore(x, y)
  {
    var front, last := rows[..|rows| - 1], rows[|rows| - 1];
    FlatDistinct(m, front);
    assert RowFine(m, last) && front[|front| - 1] == rows[|rows| - 2];
  }

  // ----- Scoring clock by clock is scoring the day -----

  lemma {:induction false} ContextMore<K>(contexts: seq<Timed<K>>, x: Timed<K>, t: Instant)
    ensures ContextAt(contexts + [x], t) == if x.at == t then Some(x.context) else ContextAt(contexts, t)
  {
    assert (contexts + [x])[..|contexts|] == contexts;
  }

  /** Looking further ahead changes nothing for an earlier clock. */
  lemma EarlierScore<F, C, V(!new), K(!new)>(m: Machines<F, C, V, K>, rows: seq<Row<V, K>>, s: Snap<V>)
    requires m.Valid() && RowsFine(m, rows) && rows != [] && s in Flat(rows[..|rows| - 1])
    ensures ScoreOne(m, Flat(rows), ContextsOf(rows), s) == ScoreOne(m, Flat(rows[..|rows| - 1]), ContextsOf(rows[..|rows| - 1]), s)
  {
    hide AtClock, ScoreOne, Machines.Valid, Distinct, RowFine, ContextAt, Flat;
    var front, last := rows[..|rows| - 1], rows[|rows| - 1];
    SymbolsDistinct(m);
    FlatDistinct(m, front);
    assert front[|front| - 1] == rows[|rows| - 2] && s.at < last.at;
    LaterRow(m, rows, s.at);
    LaterRow(m, rows, s.at - m.lag);
    ContextMore(ContextsOf(front), Timed(last.at, last.context), s.at);
    SameScore(m, Flat(rows), ContextsOf(rows), Flat(front), ContextsOf(front), s);
  }

  lemma LaterRow<F, C, V(!new), K(!new)>(m: Machines<F, C, V, K>, rows: seq<Row<V, K>>, t: Instant)
    requires RowsFine(m, rows) && rows != [] && t < rows[|rows| - 1].at
    ensures AtClock(Flat(rows), t) == AtClock(Flat(rows[..|rows| - 1]), t)
  {
    FlatAt(m, rows, t);
    FlatAt(m, rows[..|rows| - 1], t);
  }

  /** The live history and the whole day answer the last clock alike. */
  lemma LastScore<F, C, V(!new), K(!new)>(m: Machines<F, C, V, K>, rows: seq<Row<V, K>>, s: Snap<V>)
    requires m.Valid() && RowsFine(m, rows) && rows != [] && s.at == rows[|rows| - 1].at
    ensures var last := rows[|rows| - 1];
            var recent := DropBefore(HistoryAfter(m, rows[..|rows| - 1]), last.at - m.lag);
            ScoreOne(m, Flat(rows), ContextsOf(rows), s) == ScoreOne(m, recent + last.shots, [Timed(last.at, last.context)], s)
  {
    hide AtClock, ScoreOne, Machines.Valid, DropBefore, HistoryAfter, RowFine, Flat, ContextAt;
    SymbolsDistinct(m);
    var front, last := rows[..|rows| - 1], rows[|rows| - 1];
    LastAnswers(m, rows, s.at);
    LastAnswers(m, rows, s.at - m.lag);
    ContextMore(ContextsOf(front), Timed(last.at, last.context), s.at);
    ContextMore([], Timed(last.at, last.context), s.at);
    assert [] + [Timed(last.at, last.context)] == [Timed(last.at, last.context)];
    SameScore(m, Flat(rows), ContextsOf(rows), DropBefore(HistoryAfter(m, front), last.at - m.lag) + last.shots, [Timed(last.at, last.context)], s);
  }

  lemma LastAnswers<F, C, V(!new), K(!new)>(m: Machines<F, C, V, K>, rows: seq<Row<V, K>>, t: Instant)
    requires RowsFine(m, rows) && rows != [] && t >= rows[|rows| - 1].at - m.lag
    ensures var last := rows[|rows| - 1];
            AtClock(DropBefore(HistoryAfter(m, rows[..|rows| - 1]), last.at - m.lag) + last.shots, t) == AtClock(Flat(rows), t)
  {
    hide AtClock, DropBefore, HistoryAfter, RowFine;
    var front, last := rows[..|rows| - 1], rows[|rows| - 1];
    AtClockAdds(DropBefore(HistoryAfter(m, front), last.at - m.lag), last.shots, t);
    AtClockAdds(Flat(front), last.shots, t);
    DropKeeps(HistoryAfter(m, front), last.at - m.lag, t);
    assert front != [] ==> front[|front| - 1] == rows[|rows| - 2];
    HistoryAnswers(m, front, t);
  }

  /** One pass over the day's snapshots gives the candidates the journal found clock by clock. */
  lemma {:induction false} DayScores<F, C, V(!new), K(!new)>(m: Machines<F, C, V, K>, rows: seq<Row<V, K>>)
    requires m.Valid() && RowsFine(m, rows)
    ensures Score(m, Flat(rows), ContextsOf(rows), []) == Concat(GroupsOf(m, rows))
  {
    hide ScoreOne, Machines.Valid, DropBefore, HistoryAfter, InOrder, RowFine, ScoreEach;
    if rows == [] {
      NothingScored(m);
    } else {
      var front, last := rows[..|rows| - 1], rows[|rows| - 1];
      DayScores(m, front);
      SortSplits(m, rows);
      var all, contexts := Flat(rows), ContextsOf(rows);
      assert [] + all == all && [] + Flat(front) == Flat(front);
      EachAdds(m, all, contexts, InOrder(Flat(front)), InOrder(last.shots));
      var early, late := InOrder(Flat(front)), InOrder(last.shots);
      forall i | 0 <= i < |early| ensures ScoreOne(m, all, contexts, early[i]) == ScoreOne(m, Flat(front), ContextsOf(front), early[i]) {
        assert early[i] in early;
        EarlierScore(m, rows, early[i]);
      }
      EachSame(m, all, contexts, Flat(front), ContextsOf(front), early);
      var recent := DropBefore(HistoryAfter(m, front), last.at - m.lag);
      forall i | 0 <= i < |late| ensures ScoreOne(m, all, contexts, late[i]) == ScoreOne(m, recent + last.shots, [Timed(last.at, last.context)], late[i]) {
        assert late[i] in late;
        ShotClock(m, rows, late[i]);
        LastScore(m, rows, late[i]);
      }
      EachSame(m, all, contexts, recent + last.shots, [Timed(last.at, last.context)], late);
      var groups := GroupsOf(m, rows);
      assert groups[..|groups| - 1] == GroupsOf(m, front);
    }
  }

  lemma ShotClock<F, C, V(!new), K(!new)>(m: Machines<F, C, V, K>, rows: seq<Row<V, K>>, s: Snap<V>)
    requires RowsFine(m, rows) && rows != [] && s in rows[|rows| - 1].shots
    ensures s.at == rows[|rows| - 1].at
  {
    assert RowFine(m, rows[|rows| - 1]);
  }

  lemma NothingScored<F, C, V(!new), K(!new)>(m: Machines<F, C, V, K>)
    ensures Score(m, [], [], []) == []
  {
    var none: seq<Snap<V>> := [];
    assert none + none == none && InOrder(none) == [];
  }

  // ----- Arbitrating clock by clock is arbitrating the day -----

  /** Each group is one clock's candidates, and no group is empty. */
  ghost predicate GroupsFine(day: Day, groups: seq<seq<Candidate>>, times: seq<Instant>) {
    && |groups| == |times| && (forall i, j :: 0 <= i < j < |times| ==> times[i] < times[j])
    && (forall i :: 0 <= i < |groups| ==> groups[i] != [] && OfClock(groups[i], Clock(day, times[i])))
  }

  predicate OfClock(group: seq<Candidate>, clock: Clock) {
    forall i :: 0 <= i < |group| ==> group[i].When() == clock
  }

  lemma {:induction false} GroupAdds(a: seq<Candidate>, b: seq<Candidate>, clock: Clock)
    ensures Group(a + b, clock) == Group(a, clock) + Group(b, clock)
  {
    if b == [] {
      assert a + b == a;
    } else {
      GroupAdds(a, b[..|b| - 1], clock);
      assert (a + b)[..|a + b| - 1] == a + b[..|b| - 1];
    }
  }

  lemma {:induction false} GroupSame(group: seq<Candidate>, own: Clock, clock: Clock)
    requires OfClock(group, own)
    ensures Group(group, clock) == if clock == own then group else []
  {
    if group != [] {
      GroupSame(group[..|group| - 1], own, clock);
      assert group == group[..|group| - 1] + [group[|group| - 1]];
    }
  }

  lemma {:induction false} ConcatGroup(day: Day, groups: seq<seq<Candidate>>, times: seq<Instant>, i: nat)
    requires GroupsFine(day, groups, times) && i < |groups|
    ensures Group(Concat(groups), Clock(day, times[i])) == groups[i]
  {
    var n := |groups| - 1;
    GroupAdds(Concat(groups[..n]), groups[n], Clock(day, times[i]));
    GroupSame(groups[n], Clock(day, times[n]), Clock(day, times[i]));
    if i < n {
      ConcatGroup(day, groups[..n], times[..n], i);
    } else {
      NoGroup(day, groups[..n], times[..n], times[n]);
    }
  }

  lemma {:induction false} NoGroup(day: Day, groups: seq<seq<Candidate>>, times: seq<Instant>, t: Instant)
    requires GroupsFine(day, groups, times) && forall i :: 0 <= i < |times| ==> times[i] != t
    ensures Group(Concat(groups), Clock(day, t)) == []
  {
    if groups != [] {
      var n := |groups| - 1;
      GroupAdds(Concat(groups[..n]), groups[n], Clock(day, t));
      GroupSame(groups[n], Clock(day, times[n]), Clock(day, t));
      NoGroup(day, groups[..n], times[..n], t);
    }
  }

  function ClocksAt(day: Day, times: seq<Instant>): seq<Clock> {
    seq(|times|, i requires 0 <= i < |times| => Clock(day, times[i]))
  }

  lemma {:induction false} ConcatClocks(day: Day, groups: seq<seq<Candidate>>, times: seq<Instant>, clock: Clock)
    requires GroupsFine(day, groups, times)
    ensures (exists c :: c in Concat(groups) && c.When() == clock) <==> clock.tradeDate == day && clock.decisionAt in times
  {
    if groups != [] {
      var n := |groups| - 1;
      var front, last := Concat(groups[..n]), groups[n];
      ConcatClocks(day, groups[..n], times[..n], clock);
      assert times == times[..n] + [times[n]];
      assert forall c :: c in Concat(groups) <==> c in front || c in last;
      assert last[0] in last && last[0].When() == Clock(day, times[n]);
      forall c | c in last ensures c.When() == Clock(day, times[n]) {
        var i :| 0 <= i < |last| && last[i] == c;
      }
    }
  }

  /** The groups come back, in order, out of their concatenation. */
  lemma DayGroups(day: Day, groups: seq<seq<Candidate>>, times: seq<Instant>)
    requires GroupsFine(day, groups, times)
    ensures Groups(Concat(groups), SortedClocks(Concat(groups))) == groups
  {
    hide Concat, SortedClocks, Group;
    var cs, clocks := Concat(groups), ClocksAt(day, times);
    SortedClocksFacts(cs);
    forall k ensures k in SortedClocks(cs) <==> k in clocks {
      ConcatClocks(day, groups, times, k);
      if k.tradeDate == day && k.decisionAt in times {
        var i :| 0 <= i < |times| && times[i] == k.decisionAt;
        assert clocks[i] == k;
      }
    }
    ClocksUnique(SortedClocks(cs), clocks);
    forall i | 0 <= i < |groups| ensures Groups(cs, clocks)[i] == groups[i] { ConcatGroup(day, groups, times, i); }
  }

  lemma {:induction false} EachOfClock<F, C, V(!new), K(!new)>(m: Machines<F, C, V, K>, a: seq<Snap<V>>, k: seq<Timed<K>>, sorted: seq<Snap<V>>, t: Instant)
    requires m.Valid() && forall i :: 0 <= i < |sorted| ==> sorted[i].at == t
    ensures OfClock(ScoreEach(m, a, k, sorted), Clock(m.day, t)) && (sorted != [] ==> ScoreEach(m, a, k, sorted) != [])
  {
    hide Lookup, ContextAt;
    if sorted != [] {
      EachOfClock(m, a, k, sorted[..|sorted| - 1], t);
    }
  }

  lemma {:induction false} RowGroups<F, C, V(!new), K(!new)>(m: Machines<F, C, V, K>, rows: seq<Row<V, K>>)
    requires m.Valid() && RowsFine(m, rows)
    ensures GroupsFine(m.day, GroupsOf(m, rows), TimesOf(rows))
  {
    hide Machines.Valid, ScoreEach, InOrder, DropBefore, HistoryAfter, OfClock, RowFine;
    TimesIndexed(rows);
    if rows != [] {
      var front, last := rows[..|rows| - 1], rows[|rows| - 1];
      RowGroups(m, front);
      TimesIndexed(front);
      SortSplits(m, rows);
      var sorted := InOrder(last.shots);
      forall i | 0 <= i < |sorted| ensures sorted[i].at == last.at {
        assert sorted[i] in sorted;
        ShotClock(m, rows, sorted[i]);
      }
      assert |last.shots| == |m.symbols| > 0 by { SymbolsDistinct(m); assert RowFine(m, last); ShotCount(m, last); }
      EachOfClock(m, DropBefore(HistoryAfter(m, front), last.at - m.lag) + last.shots, [Timed(last.at, last.context)], sorted, last.at);
      GroupJoins(m.day, GroupsOf(m, front), TimesOf(front), LastGroup(m, rows), last.at);
    }
  }

  lemma ShotCount<F, C, V(!new), K(!new)>(m: Machines<F, C, V, K>, row: Row<V, K>)
    requires RowFine(m, row)
    ensures |row.shots| == |m.symbols|
  {}

  lemma GroupJoins(day: Day, groups: seq<seq<Candidate>>, times: seq<Instant>, group: seq<Candidate>, t: Instant)
    requires GroupsFine(day, groups, times) && group != [] && OfClock(group, Clock(day, t)) && (forall i :: 0 <= i < |times| ==> times[i] < t)
    ensures GroupsFine(day, groups + [group], times + [t])
  {
    hide OfClock;
  }

  // ----- The theorem -----

  /** On any merge of receipts and clocks, the interleaved cascade and the three passes agree. */
  lemma CascadeOnMerge<F, C, V(!new), K(!new)>(m: Machines<F, C, V, K>, p: Policy, envelopes: seq<Envelope>, times: seq<Instant>, flags: seq<bool>)
    requires m.Valid() && |flags| == |times| && times != [] && forall i, j :: 0 <= i < j < |times| ==> times[i] < times[j]
    ensures var trace := Merge(envelopes, times, flags);
            var live, snaps := LiveDay(m, p, trace), Features(m, trace).1;
            var contexts := Contexts(m, snaps, trace).1;
            var verdicts := Arbitrate(p, Score(m, snaps, contexts, []));
            && verdicts == (if live.failed.Some? then Err(live.failed.value) else Ok(live.verdicts))
            && live.snaps <= snaps && live.contexts <= contexts && live.candidates <= Score(m, snaps, contexts, [])
            && (live.failed.None? ==> live.snaps == snaps && live.contexts == contexts && live.candidates == Score(m, snaps, contexts, []))
  {
    hide Merge, Twin, LiveDay, Features, Contexts, Score, RunClocks, Machines.Valid, Flat, ContextsOf, GroupsOf, HistoryAfter, Concat, RowFine, SortedClocks, Groups;
    var trace := Merge(envelopes, times, flags);
    var rows := Twin(m, trace).2;
    MergeRows(m, envelopes, times, flags);
    TwinFeatures(m, trace);
    forall i | 0 <= i < |rows| ensures AtClock(Flat(rows), rows[i].at) == rows[i].shots {
      FlatAt(m, rows, rows[i].at);
      RowAtIndex(rows, i);
    }
    TwinContexts(m, Flat(rows), trace);
    LiveFollows(m, p, trace);
    DayScores(m, rows);
    RowGroups(m, rows);
    DayGroups(m.day, GroupsOf(m, rows), times);
    assert Concat(GroupsOf(m, rows)) != [] by { SomeCandidates(m.day, GroupsOf(m, rows), times); }
  }

  lemma SomeCandidates(day: Day, groups: seq<seq<Candidate>>, times: seq<Instant>)
    requires GroupsFine(day, groups, times) && times != []
    ensures Concat(groups) != []
  {
    assert groups[|groups| - 1] != [];
  }

  /** The context engine never sees the flags of a trace, only those on the snapshots. */
  lemma {:induction false} FlagsUnseen<F, C, V(!new), K(!new)>(m: Machines<F, C, V, K>, snaps: seq<Snap<V>>, envelopes: seq<Envelope>, times: seq<Instant>, a: seq<bool>, b: seq<bool>)
    requires |a| == |times| == |b|
    ensures Contexts(m, snaps, Merge(envelopes, times, a)) == Contexts(m, snaps, Merge(envelopes, times, b))
    decreases |envelopes| + |times|
  {
    hide Contexts, AtClock;
    var n, k := |envelopes|, |times|;
    if n == 0 && k == 0 {
    } else if k == 0 || (n > 0 && envelopes[n - 1].receivedAt > times[k - 1]) {
      FlagsUnseen(m, snaps, envelopes[..n - 1], times, a, b);
      ContextHears(m, snaps, Merge(envelopes[..n - 1], times, a), envelopes[n - 1]);
      ContextHears(m, snaps, Merge(envelopes[..n - 1], times, b), envelopes[n - 1]);
    } else {
      FlagsUnseen(m, snaps, envelopes, times[..k - 1], a[..k - 1], b[..k - 1]);
      ContextBuilds(m, snaps, Merge(envelopes, times[..k - 1], a[..k - 1]), times[k - 1], a[k - 1]);
      ContextBuilds(m, snaps, Merge(envelopes, times[..k - 1], b[..k - 1]), times[k - 1], b[k - 1]);
    }
  }

  /** The clocks grouped out of the snapshots are the decision clocks. */
  lemma SnapshotClocks<F, C, V(!new), K(!new)>(m: Machines<F, C, V, K>, rows: seq<Row<V, K>>, times: seq<Instant>)
    requires m.Valid() && RowsFine(m, rows) && TimesOf(rows) == times && forall i, j :: 0 <= i < j < |times| ==> times[i] < times[j]
    ensures ClockTimes(Flat(rows)) == times
  {
    hide Machines.Valid, ClockTimes, RowFine, Ascending;
    var less := (a: Instant, b: Instant) => a < b;
    var clocks := ClockTimes(Flat(rows));
    TimesAscend(Flat(rows));
    TimesIndexed(rows);
    forall i | 0 <= i < |rows| ensures |rows[i].shots| == |m.symbols| { ShotCount(m, rows[i]); }
    forall t ensures t in clocks <==> t in times {
      if t in clocks {
        var s :| s in Flat(rows) && s.at == t;
        FlatMembers(m, rows, s);
        var i, j :| 0 <= i < |rows| && 0 <= j < |m.symbols| && rows[i].shots[j] == s;
        ShotAt(m, rows[i], j);
        assert times[i] == t;
      }
      if t in times {
        var i :| 0 <= i < |times| && times[i] == t;
        SymbolsDistinct(m);
        ShotAt(m, rows[i], 0);
        FlatHolds(rows, i, 0);
        assert rows[i].shots[0] in Flat(rows) && rows[i].shots[0].at == t;
      }
    }
    assert Elements(clocks) == Elements(times);
    assert StrictOrder(less, Elements(clocks));
    OrderedUnique(less, clocks, times);
  }

  lemma ShotAt<F, C, V(!new), K(!new)>(m: Machines<F, C, V, K>, row: Row<V, K>, j: nat)
    requires RowFine(m, row) && j < |m.symbols|
    ensures j < |row.shots| && row.shots[j].at == row.at
  {}

  lemma {:induction false} FlatHolds<V, K>(rows: seq<Row<V, K>>, i: nat, j: nat)
    requires i < |rows| && j < |rows[i].shots|
    ensures rows[i].shots[j] in Flat(rows)
  {
    if i < |rows| - 1 { FlatHolds(rows[..|rows| - 1], i, j); }
  }

  /** The whole day. When every envelope was timely and every clock is settled, the journal's interleaved
      cascade and the three batch passes (features over the capture, contexts merged from those
      snapshots and the capture, arbitration of every candidate scored from both) emit the same
      snapshots, contexts, candidates and verdicts, or stop on the same arbitration error, the journal having
      written a first part of the batch's. */
  lemma LiveDayIsBatchDay<F, C, V(!new), K(!new)>(m: Machines<F, C, V, K>, p: Policy, g: Setting, calls: seq<Call>)
    requires m.Valid() && g.Valid() && Sorted(Captured(calls)) && !Run(g, calls).failed && Run(g, calls).next == |g.times|
    requires EnvelopesTimely(g, calls)
    requires forall i :: 0 <= i < |g.times| ==> Passed(g, calls, g.times[i]) && ClockSettled(g, calls, g.times[i])
    ensures var live, all := LiveDay(m, p, Run(g, calls).trace), Captured(calls);
            var snaps := Features(m, BatchTrace(g, all, Run(g, calls).gaps)).1;
            var contexts := ContextPass(m, snaps, all);
            var candidates := Score(m, snaps, contexts, []);
            && Arbitrate(p, candidates) == (if live.failed.Some? then Err(live.failed.value) else Ok(live.verdicts))
            && live.snaps <= snaps && live.contexts <= contexts && live.candidates <= candidates
            && (live.failed.None? ==> live.snaps == snaps && live.contexts == contexts && live.candidates == candidates)
  {
    hide Run, Merge, LiveDay, Features, Contexts, Score, Arbitrate, Machines.Valid, Covered, ClockSettled, EnvelopesTimely, Captured, Passed, ReceivedBy, Twin, Flat, ClockTimes, NoFlags, BatchFlags, RowFine, Ascending, GapsOf;
    LiveIsBatchExactly(g, calls);
    var all, gaps := Captured(calls), Run(g, calls).gaps;
    var cut := all[..ReceivedBy(all, g.times[|g.times| - 1])];
    var flags := BatchFlags(g, gaps, |g.times|);
    FlagCount(g, gaps);
    CascadeOnMerge(m, p, cut, g.times, flags);
    var trace := Merge(cut, g.times, flags);
    MergeRows(m, cut, g.times, flags);
    TwinFeatures(m, trace);
    SnapshotClocks(m, Twin(m, trace).2, g.times);
    FlagsCounted(|g.times|);
    FlagsUnseen(m, Features(m, trace).1, cut, g.times, flags, NoFlags(|g.times|));
  }
}
