/** Sorting by a strict order, and why the sorted list of a set is unique. */
module Sorting {

  ghost predicate StrictOrder<T(!new)>(less: (T, T) -> bool, s: set<T>) {
    && (forall x, y :: x in s && y in s && less(x, y) ==> !less(y, x))
    && (forall x, y :: x in s && y in s && x != y ==> less(x, y) || less(y, x))
    && (forall x, y, z :: x in s && y in s && z in s && less(x, y) && less(y, z) ==> less(x, z))
  }

  ghost predicate Ordered<T>(less: (T, T) -> bool, s: seq<T>) {
    forall i, j :: 0 <= i < j < |s| ==> less(s[i], s[j])
  }

  function Place<T>(less: (T, T) -> bool, s: seq<T>, x: T): seq<T> {
    if s == [] then [x]
    else if less(x, s[0]) then [x] + s
    else [s[0]] + Place(less, s[1..], x)
  }

  function Sort<T>(less: (T, T) -> bool, s: seq<T>): seq<T> {
    if s == [] then [] else Place(less, Sort(less, s[..|s| - 1]), s[|s| - 1])
  }

  ghost function Elements<T>(s: seq<T>): set<T> { set x | x in s }

  predicate Distinct<T(==)>(s: seq<T>) {
    forall i, j :: 0 <= i < j < |s| ==> s[i] != s[j]
  }

  lemma {:induction false} PlaceFacts<T(!new)>(less: (T, T) -> bool, s: seq<T>, x: T)
    requires StrictOrder(less, Elements(s) + {x}) && Ordered(less, s) && x !in s
    ensures Ordered(less, Place(less, s, x))
    ensures Elements(Place(less, s, x)) == Elements(s) + {x} && |Place(less, s, x)| == |s| + 1
  {
    if s != [] && !less(x, s[0]) {
      var rest := s[1..];
      assert s == [s[0]] + rest;
      assert Elements(s) == {s[0]} + Elements(rest);
      PlaceFacts(less, rest, x);
      var placed := Place(less, rest, x);
      forall j | 0 <= j < |placed| ensures less(s[0], placed[j]) {
        assert placed[j] in Elements(placed);
        if placed[j] in rest {
          var k :| 0 <= k < |rest| && rest[k] == placed[j];
          assert s[k + 1] == rest[k];
        }
      }
      assert Elements(Place(less, s, x)) == {s[0]} + Elements(placed);
    } else if s != [] {
      assert s[0] in Elements(s);
      forall j | 0 <= j < |s| ensures less(x, s[j]) {
        assert s[j] in Elements(s) && (j == 0 || less(s[0], s[j]));
      }
      assert Elements([x] + s) == Elements(s) + {x};
    } else {
      assert Elements([x]) == Elements(s) + {x};
    }
  }

  lemma {:induction false} SortFacts<T(!new)>(less: (T, T) -> bool, s: seq<T>)
    requires StrictOrder(less, Elements(s)) && Distinct(s)
    ensures Ordered(less, Sort(less, s)) && Elements(Sort(less, s)) == Elements(s) && |Sort(less, s)| == |s|
  {
    if s != [] {
      var front, last := s[..|s| - 1], s[|s| - 1];
      assert s == front + [last];
      assert Elements(s) == Elements(front) + {last};
      SortFacts(less, front);
      assert last !in Elements(front);
      PlaceFacts(less, Sort(less, front), last);
    }
  }

  lemma SameHead<T(!new)>(less: (T, T) -> bool, a: seq<T>, b: seq<T>)
    requires Ordered(less, a) && Ordered(less, b) && Elements(a) == Elements(b) && StrictOrder(less, Elements(a)) && a != [] && b != []
    ensures a[0] == b[0]
  {
    assert a[0] in Elements(b) && b[0] in Elements(a);
    var i :| 0 <= i < |b| && b[i] == a[0];
    var j :| 0 <= j < |a| && a[j] == b[0];
    assert i > 0 ==> less(b[0], a[0]);
    assert j > 0 ==> less(a[0], b[0]);
  }

  lemma NoElements<T>(a: seq<T>)
    ensures Elements(a) == {} <==> a == []
  {
    if a != [] { assert a[0] in Elements(a); }
  }

  /** The ordered list of a set of elements is unique. */
  lemma {:induction false} OrderedUnique<T(!new)>(less: (T, T) -> bool, a: seq<T>, b: seq<T>)
    requires Ordered(less, a) && Ordered(less, b) && Elements(a) == Elements(b) && StrictOrder(less, Elements(a))
    ensures a == b
  {
    if a == [] || b == [] {
      NoElements(a);
      NoElements(b);
    } else {
      SameHead(less, a, b);
      TailElements(less, a);
      TailElements(less, b);
      OrderedUnique(less, a[1..], b[1..]);
      assert a == [a[0]] + a[1..] && b == [b[0]] + b[1..];
    }
  }

  lemma TailElements<T(!new)>(less: (T, T) -> bool, a: seq<T>)
    requires Ordered(less, a) && a != [] && StrictOrder(less, Elements(a))
    ensures Elements(a[1..]) == Elements(a) - {a[0]}
    ensures Ordered(less, a[1..]) && StrictOrder(less, Elements(a[1..]))
  {
    assert a == [a[0]] + a[1..];
    forall x | x in a[1..] ensures x != a[0] {
      var i :| 0 <= i < |a[1..]| && a[1..][i] == x;
      assert less(a[0], a[i + 1]) && a[0] in Elements(a);
    }
  }

  ghost function Below<T>(less: (T, T) -> bool, s: set<T>, x: T): set<T> { set y | y in s && less(y, x) }

  /** Position in the ordered list is the number of elements that come before. */
  lemma {:induction false} PositionIsRank<T(!new)>(less: (T, T) -> bool, a: seq<T>, i: nat)
    requires Ordered(less, a) && StrictOrder(less, Elements(a)) && i < |a|
    ensures |Below(less, Elements(a), a[i])| == i
  {
    if i == 0 {
      forall y | y in Elements(a) ensures !less(y, a[0]) {
        var j :| 0 <= j < |a| && a[j] == y;
        assert j > 0 ==> less(a[0], a[j]);
        assert a[0] in Elements(a);
      }
      assert Below(less, Elements(a), a[0]) == {};
    } else {
      TailElements(less, a);
      PositionIsRank(less, a[1..], i - 1);
      assert a[1..][i - 1] == a[i];
      assert less(a[0], a[i]) && a[0] in Elements(a) && a[i] in Elements(a);
      assert Below(less, Elements(a), a[i]) == Below(less, Elements(a[1..]), a[i]) + {a[0]};
    }
  }

  lemma SortedMembers<T(!new)>(less: (T, T) -> bool, s: seq<T>)
    requires StrictOrder(less, Elements(s)) && Distinct(s)
    ensures forall x :: x in Sort(less, s) <==> x in s
  {
    SortFacts(less, s);
    forall x ensures x in Sort(less, s) <==> x in s { assert x in Elements(Sort(less, s)) <==> x in Elements(s); }
  }

  lemma OrderedJoin<T>(less: (T, T) -> bool, a: seq<T>, b: seq<T>)
    requires Ordered(less, a) && Ordered(less, b) && forall x, y :: x in a && y in b ==> less(x, y)
    ensures Ordered(less, a + b)
  {
    var all := a + b;
    forall i, j | 0 <= i < j < |all| ensures less(all[i], all[j]) {
      if j < |a| {
      } else if i < |a| {
        assert all[i] in a && all[j] in b;
      } else {
        assert all[i] == b[i - |a|] && all[j] == b[j - |a|];
      }
    }
  }

  lemma PartsOrdered<T(!new)>(less: (T, T) -> bool, a: seq<T>, b: seq<T>)
    requires StrictOrder(less, Elements(a + b)) && Distinct(a + b)
    ensures StrictOrder(less, Elements(a)) && StrictOrder(less, Elements(b)) && Distinct(a) && Distinct(b)
  {
    assert Elements(a) <= Elements(a + b) && Elements(b) <= Elements(a + b);
    assert forall i :: 0 <= i < |a| ==> (a + b)[i] == a[i];
    assert forall i :: 0 <= i < |b| ==> (a + b)[|a| + i] == b[i];
    forall i, j | 0 <= i < j < |b| ensures b[i] != b[j] { assert (a + b)[|a| + i] != (a + b)[|a| + j]; }
  }

  /** When one part comes wholly before the other, the parts sort separately. */
  lemma SortJoin<T(!new)>(less: (T, T) -> bool, a: seq<T>, b: seq<T>)
    requires StrictOrder(less, Elements(a + b)) && Distinct(a + b) && forall x, y :: x in a && y in b ==> less(x, y)
    ensures Sort(less, a + b) == Sort(less, a) + Sort(less, b)
  {
    PartsOrdered(less, a, b);
    SortFacts(less, a + b);
    SortFacts(less, a);
    SortFacts(less, b);
    SortedMembers(less, a);
    SortedMembers(less, b);
    hide StrictOrder, Distinct, Sort;
    OrderedJoin(less, Sort(less, a), Sort(less, b));
    assert Elements(Sort(less, a) + Sort(less, b)) == Elements(a + b);
    OrderedUnique(less, Sort(less, a + b), Sort(less, a) + Sort(less, b));
  }

  // ----- Orders with ties -----

  /** A strict order in which elements may tie. */
  ghost predicate WeakOrder<T(!new)>(less: (T, T) -> bool) {
    && (forall x, y :: less(x, y) ==> !less(y, x))
    && (forall x, y, z :: !less(y, x) && !less(z, y) ==> !less(z, x))
  }

  ghost predicate NonDecreasing<T>(less: (T, T) -> bool, s: seq<T>) {
    forall i, j :: 0 <= i < j < |s| ==> !less(s[j], s[i])
  }

  lemma {:induction false} PlaceKeeps<T>(less: (T, T) -> bool, s: seq<T>, x: T)
    ensures multiset(Place(less, s, x)) == multiset(s) + multiset{x}
  {
    if s != [] && !less(x, s[0]) {
      assert s == [s[0]] + s[1..];
      PlaceKeeps(less, s[1..], x);
    }
  }

  lemma PlacedMembers<T>(less: (T, T) -> bool, s: seq<T>, x: T)
    ensures forall y :: y in Place(less, s, x) <==> y in s || y == x
  {
    PlaceKeeps(less, s, x);
    forall y ensures y in Place(less, s, x) <==> y in s || y == x {
      assert y in Place(less, s, x) <==> y in multiset(Place(less, s, x));
      assert y in s <==> y in multiset(s);
    }
  }

  lemma HeadFirst<T>(less: (T, T) -> bool, head: T, rest: seq<T>)
    requires NonDecreasing(less, rest) && forall y :: y in rest ==> !less(y, head)
    ensures NonDecreasing(less, [head] + rest)
  {}

  lemma {:induction false} PlaceNonDecreasing<T(!new)>(less: (T, T) -> bool, s: seq<T>, x: T)
    requires WeakOrder(less) && NonDecreasing(less, s)
    ensures NonDecreasing(less, Place(less, s, x))
  {
    if s != [] {
      var head, rest := s[0], s[1..];
      assert s == [head] + rest;
      assert forall y :: y in rest ==> !less(y, head);
      PlaceNonDecreasing(less, rest, x);
      PlacedMembers(less, rest, x);
      hide NonDecreasing;
      if less(x, head) { HeadFirst(less, x, s); } else { HeadFirst(less, head, Place(less, rest, x)); }
    }
  }

  /** Sorting with ties: a permutation, in non-decreasing order. */
  lemma {:induction false} SortWithTies<T(!new)>(less: (T, T) -> bool, s: seq<T>)
    requires WeakOrder(less)
    ensures NonDecreasing(less, Sort(less, s)) && multiset(Sort(less, s)) == multiset(s)
    ensures forall y :: y in Sort(less, s) <==> y in s
  {
    if s != [] {
      var front, last := s[..|s| - 1], s[|s| - 1];
      SortWithTies(less, front);
      PlaceNonDecreasing(less, Sort(less, front), last);
      PlaceKeeps(less, Sort(less, front), last);
      PlacedMembers(less, Sort(less, front), last);
      assert s == front + [last];
    }
  }
}
