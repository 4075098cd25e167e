/** The two tuples inside a paper ledger: reservations ordered by entry digest, positions by symbol. */
module LedgerParts {
  import opened Prelude
  import opened PaperModel

  // ----- Reservations -----

  predicate Ordered(rs: seq<Reservation>) {
    forall i, j :: 0 <= i < j < |rs| ==> rs[i].entry < rs[j].entry
  }

  /** `sorted((*rs, r))` on an ordered tuple. */
  function Insert(rs: seq<Reservation>, r: Reservation): seq<Reservation> {
    if rs == [] then [r]
    else if rs[0].entry <= r.entry then [rs[0]] + Insert(rs[1..], r)
    else [r] + rs
  }

  /** The reservations of every other entry. */
  function Without(rs: seq<Reservation>, entry: Digest): seq<Reservation> {
    if rs == [] then []
    else if rs[0].entry == entry then Without(rs[1..], entry)
    else [rs[0]] + Without(rs[1..], entry)
  }

  /** Drop one entry's reservation and, if something is left of it, file the remainder. */
  function Swap(rs: seq<Reservation>, entry: Digest, left: Option<Reservation>): seq<Reservation> {
    if left.None? then Without(rs, entry) else Insert(Without(rs, entry), left.value)
  }

  /** Every reservation of one entry swapped for `r`, in place. */
  function Replace(rs: seq<Reservation>, entry: Digest, r: Reservation): seq<Reservation> {
    seq(|rs|, i requires 0 <= i < |rs| => if rs[i].entry == entry then r else rs[i])
  }

  function EntryMatches(rs: seq<Reservation>, entry: Digest, status: ReservationStatus): seq<Reservation> {
    if rs == [] then []
    else if rs[0].entry == entry && rs[0].status == status then [rs[0]] + EntryMatches(rs[1..], entry, status)
    else EntryMatches(rs[1..], entry, status)
  }

  function ExitMatches(rs: seq<Reservation>, exit: Digest): seq<Reservation> {
    if rs == [] then []
    else if rs[0].exit == Some(exit) && rs[0].status == ExitPending then [rs[0]] + ExitMatches(rs[1..], exit)
    else ExitMatches(rs[1..], exit)
  }

  function Total(rs: seq<Reservation>, f: Reservation -> real): real {
    if rs == [] then 0.0 else f(rs[0]) + Total(rs[1..], f)
  }

  function Count(rs: seq<Reservation>, f: Reservation -> int): int {
    if rs == [] then 0 else f(rs[0]) + Count(rs[1..], f)
  }

  predicate Keyed(rs: seq<Reservation>, entry: Digest) {
    exists r :: r in rs && r.entry == entry
  }

  lemma {:induction false} InsertFacts(rs: seq<Reservation>, r: Reservation)
    requires Ordered(rs) && !Keyed(rs, r.entry)
    ensures Ordered(Insert(rs, r))
    ensures forall x :: x in Insert(rs, r) <==> x in rs || x == r
  {
    if rs != [] {
      assert rs == [rs[0]] + rs[1..];
      assert rs[0] in rs;
      if rs[0].entry <= r.entry {
        forall x | x in rs[1..] ensures x in rs {}
        InsertFacts(rs[1..], r);
        var tail := Insert(rs[1..], r);
        forall j | 0 <= j < |tail| ensures rs[0].entry < tail[j].entry {
          assert tail[j] in tail;
        }
      }
    }
  }

  lemma {:induction false} WithoutFacts(rs: seq<Reservation>, entry: Digest)
    requires Ordered(rs)
    ensures Ordered(Without(rs, entry))
    ensures forall x :: x in Without(rs, entry) <==> x in rs && x.entry != entry
    ensures !Keyed(Without(rs, entry), entry)
  {
    if rs != [] {
      assert rs == [rs[0]] + rs[1..];
      WithoutFacts(rs[1..], entry);
      var tail := Without(rs[1..], entry);
      forall j | 0 <= j < |tail| ensures rs[0].entry < tail[j].entry {
        assert tail[j] in tail;
      }
    }
  }

  lemma SameKeySame(rs: seq<Reservation>, a: Reservation, b: Reservation)
    requires Ordered(rs) && a in rs && b in rs && a.entry == b.entry
    ensures a == b
  {
    var i :| 0 <= i < |rs| && rs[i] == a;
    var j :| 0 <= j < |rs| && rs[j] == b;
  }

  /** On an ordered tuple, replacing in place is removing and inserting. */
  lemma {:induction false} ReplaceIsReinsert(rs: seq<Reservation>, x: Reservation, r: Reservation)
    requires Ordered(rs) && x in rs && r.entry == x.entry
    ensures Replace(rs, x.entry, r) == Insert(Without(rs, x.entry), r)
  {
    var head, rest := rs[0], rs[1..];
    assert rs == [head] + rest;
    if head.entry == x.entry {
      WithoutAbsent(rest, x.entry);
      assert Replace(rs, x.entry, r) == [r] + rest;
      assert Insert(rest, r) == [r] + rest;
    } else {
      ReplaceIsReinsert(rest, x, r);
      assert head.entry < x.entry;
      assert Replace(rs, x.entry, r) == [head] + Replace(rest, x.entry, r);
      var w := [head] + Without(rest, x.entry);
      assert Without(rs, x.entry) == w && w[1..] == Without(rest, x.entry);
    }
  }

  lemma {:induction false} WithoutAbsent(rs: seq<Reservation>, entry: Digest)
    requires forall i :: 0 <= i < |rs| ==> rs[i].entry != entry
    ensures Without(rs, entry) == rs
  {
    if rs != [] { WithoutAbsent(rs[1..], entry); }
  }

  lemma {:induction false} EntryMatchFacts(rs: seq<Reservation>, entry: Digest, status: ReservationStatus)
    requires Ordered(rs)
    ensures |EntryMatches(rs, entry, status)| <= 1
    ensures forall x :: x in EntryMatches(rs, entry, status) <==> x in rs && x.entry == entry && x.status == status
  {
    if rs != [] {
      assert rs == [rs[0]] + rs[1..];
      EntryMatchFacts(rs[1..], entry, status);
      var tail := EntryMatches(rs[1..], entry, status);
      assert tail != [] ==> tail[0] in tail;
    }
  }

  lemma {:induction false} ExitMatchFacts(rs: seq<Reservation>, exit: Digest)
    ensures forall x :: x in ExitMatches(rs, exit) <==> x in rs && x.exit == Some(exit) && x.status == ExitPending
  {
    if rs != [] {
      assert rs == [rs[0]] + rs[1..];
      ExitMatchFacts(rs[1..], exit);
    }
  }

  lemma {:induction false} ExitMatchNone(rs: seq<Reservation>, exit: Digest)
    requires forall i :: 0 <= i < |rs| ==> !(rs[i].exit == Some(exit) && rs[i].status == ExitPending)
    ensures ExitMatches(rs, exit) == []
  {
    if rs != [] { ExitMatchNone(rs[1..], exit); }
  }

  /** When only one entry carries an exit digest, the search for it finds exactly that reservation. */
  lemma {:induction false} ExitMatchUnique(rs: seq<Reservation>, exit: Digest, x: Reservation)
    requires Ordered(rs) && x in rs && x.exit == Some(exit) && x.status == ExitPending
    requires forall y :: y in rs && y.exit == Some(exit) && y.status == ExitPending ==> y.entry == x.entry
    ensures ExitMatches(rs, exit) == [x]
  {
    assert rs == [rs[0]] + rs[1..];
    if rs[0].exit == Some(exit) && rs[0].status == ExitPending {
      assert rs[0] in rs;
      SameKeySame(rs, rs[0], x);
      ExitMatchNone(rs[1..], exit);
    } else {
      ExitMatchUnique(rs[1..], exit, x);
    }
  }

  lemma {:induction false} SumInsert(rs: seq<Reservation>, r: Reservation, f: Reservation -> real)
    ensures Total(Insert(rs, r), f) == Total(rs, f) + f(r)
  {
    if rs != [] && rs[0].entry <= r.entry {
      SumInsert(rs[1..], r, f);
      assert ([rs[0]] + Insert(rs[1..], r))[1..] == Insert(rs[1..], r);
    } else {
      assert ([r] + rs)[1..] == rs;
    }
  }

  lemma {:induction false} SumWithout(rs: seq<Reservation>, x: Reservation, f: Reservation -> real)
    requires Ordered(rs) && x in rs
    ensures Total(Without(rs, x.entry), f) == Total(rs, f) - f(x)
  {
    assert rs == [rs[0]] + rs[1..];
    if rs[0].entry == x.entry {
      SameKeySame(rs, rs[0], x);
      WithoutAbsent(rs[1..], x.entry);
    } else {
      SumWithout(rs[1..], x, f);
      assert ([rs[0]] + Without(rs[1..], x.entry))[1..] == Without(rs[1..], x.entry);
    }
  }

  lemma {:induction false} CountInsert(rs: seq<Reservation>, r: Reservation, f: Reservation -> int)
    ensures Count(Insert(rs, r), f) == Count(rs, f) + f(r)
  {
    if rs != [] && rs[0].entry <= r.entry {
      CountInsert(rs[1..], r, f);
      assert ([rs[0]] + Insert(rs[1..], r))[1..] == Insert(rs[1..], r);
    } else {
      assert ([r] + rs)[1..] == rs;
    }
  }

  lemma {:induction false} CountWithout(rs: seq<Reservation>, x: Reservation, f: Reservation -> int)
    requires Ordered(rs) && x in rs
    ensures Count(Without(rs, x.entry), f) == Count(rs, f) - f(x)
  {
    assert rs == [rs[0]] + rs[1..];
    if rs[0].entry == x.entry {
      SameKeySame(rs, rs[0], x);
      WithoutAbsent(rs[1..], x.entry);
    } else {
      CountWithout(rs[1..], x, f);
      assert ([rs[0]] + Without(rs[1..], x.entry))[1..] == Without(rs[1..], x.entry);
    }
  }

  lemma SwapFacts(rs: seq<Reservation>, entry: Digest, left: Option<Reservation>)
    requires Ordered(rs) && (left.Some? ==> left.value.entry == entry)
    ensures Ordered(Swap(rs, entry, left))
    ensures forall x :: x in Swap(rs, entry, left) <==> (x in rs && x.entry != entry) || Some(x) == left
  {
    WithoutFacts(rs, entry);
    if left.Some? { InsertFacts(Without(rs, entry), left.value); }
  }

  lemma SwapTotal(rs: seq<Reservation>, x: Reservation, left: Option<Reservation>, f: Reservation -> real)
    requires Ordered(rs) && x in rs
    ensures Total(Swap(rs, x.entry, left), f) == Total(rs, f) - f(x) + if left.Some? then f(left.value) else 0.0
  {
    SumWithout(rs, x, f);
    if left.Some? { SumInsert(Without(rs, x.entry), left.value, f); }
  }

  lemma SwapCount(rs: seq<Reservation>, x: Reservation, left: Option<Reservation>, f: Reservation -> int)
    requires Ordered(rs) && x in rs
    ensures Count(Swap(rs, x.entry, left), f) == Count(rs, f) - f(x) + if left.Some? then f(left.value) else 0
  {
    CountWithout(rs, x, f);
    if left.Some? { CountInsert(Without(rs, x.entry), left.value, f); }
  }

  // ----- Positions -----

  predicate Ascending(ps: seq<Position>) {
    forall i, j :: 0 <= i < j < |ps| ==> ps[i].symbol < ps[j].symbol
  }

  /** Settled shares of one symbol that may still be committed. */
  function Available(ps: seq<Position>, symbol: Ident): int {
    if ps == [] then 0
    else if ps[0].symbol == symbol then ps[0].available
    else Available(ps[1..], symbol)
  }

  function Moved(ps: seq<Position>, symbol: Ident, delta: int): seq<Position> {
    seq(|ps|, i requires 0 <= i < |ps| =>
      if ps[i].symbol == symbol then ps[i].(available := ps[i].available + delta) else ps[i])
  }

  lemma {:induction false} AvailableMoved(ps: seq<Position>, symbol: Ident, delta: int, s: Ident)
    ensures Available(Moved(ps, symbol, delta), s)
            == Available(ps, s) + if s == symbol && HasPosition(ps, s) then delta else 0
  {
    if ps != [] {
      AvailableMoved(ps[1..], symbol, delta, s);
      assert Moved(ps, symbol, delta)[1..] == Moved(ps[1..], symbol, delta);
      assert HasPosition(ps, s) <==> ps[0].symbol == s || HasPosition(ps[1..], s) by {
        if HasPosition(ps, s) && ps[0].symbol != s {
          var i :| 0 <= i < |ps| && ps[i].symbol == s;
          assert ps[1..][i - 1].symbol == s;
        }
        if HasPosition(ps[1..], s) {
          var i :| 0 <= i < |ps[1..]| && ps[1..][i].symbol == s;
          assert ps[i + 1].symbol == s;
        }
      }
    }
  }

  lemma {:induction false} AvailableAt(ps: seq<Position>, i: nat)
    requires Ascending(ps) && i < |ps|
    ensures Available(ps, ps[i].symbol) == ps[i].available
  {
    if i > 0 { AvailableAt(ps[1..], i - 1); }
  }
}
