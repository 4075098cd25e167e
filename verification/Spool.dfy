/** The capture spool: a bounded local outbox that publishes commit manifests last. */
module Spool {
  import opened Prelude
  import opened Sorting

  /** A safe relative path: payload or manifest, ordered as its text is. */
  datatype Key = Key(path: Ident, manifest: bool)

  datatype Body = Body(sha: Digest, size: nat)

  type Files = map<Key, Body>

  /** Payloads before manifests, then by path. */
  predicate Earlier(a: Key, b: Key) {
    (!a.manifest && b.manifest) || (a.manifest == b.manifest && a.path < b.path)
  }

  // ----- Sizes -----

  ghost function SizeOf(files: Files): nat {
    if files == map[] then 0
    else
      assert exists k :: k in files by { assert files.Keys != {}; }
      var k :| k in files;
      files[k].size + SizeOf(files - {k})
  }

  lemma {:induction false} SizeWithout(files: Files, k: Key)
    requires k in files
    ensures SizeOf(files) == files[k].size + SizeOf(files - {k})
    decreases |files|
  {
    var x :| x in files && SizeOf(files) == files[x].size + SizeOf(files - {x});
    if x != k {
      SizeWithout(files - {x}, k);
      SizeWithout(files - {k}, x);
      assert files - {x} - {k} == files - {k} - {x};
    }
  }

  lemma SizeWith(files: Files, k: Key, b: Body)
    requires k !in files
    ensures SizeOf(files[k := b]) == SizeOf(files) + b.size
  {
    SizeWithout(files[k := b], k);
    assert files[k := b] - {k} == files;
  }

  // ----- Staging and draining -----

  datatype SpoolError = SpoolFull | LocalConflict | Unavailable | StoreConflict

  function StageError(files: Files, bytes: nat, limit: nat, k: Key, b: Body): Option<SpoolError> {
    if k in files then (if files[k].sha != b.sha then Some(LocalConflict) else None)
    else if bytes + b.size > limit then Some(SpoolFull)
    else None
  }

  /** The store's own behaviour on one put: it answers, it is down, or it stores and the answer is lost. */
  datatype Weather = Clear | DownBefore | DownAfter

  /** A conditional, immutable put. */
  function Put(store: Files, k: Key, b: Body): Files {
    if k in store then store else store[k := b]
  }

  /** What one put leaves in the store and tells the spool. */
  function Attempt(store: Files, k: Key, b: Body, w: Weather): (Files, Option<SpoolError>) {
    match w
    case DownBefore => (store, Some(Unavailable))
    case DownAfter => (Put(store, k, b), Some(Unavailable))
    case Clear => (Put(store, k, b), if k in store && store[k].sha != b.sha then Some(StoreConflict) else None)
  }

  datatype Disk = Disk(files: Files, store: Files, bytes: int, stopped: Option<SpoolError>, crashed: bool)

  /** Publish one file; it leaves the spool once the store has answered well. */
  function DrainOne(d: Disk, k: Key, w: Weather, crash: bool): Disk
    requires k in d.files
  {
    var b := d.files[k];
    var r := Attempt(d.store, k, b, w);
    var n := d.(store := r.0);
    if r.1.Some? then n.(stopped := r.1)
    else if crash then n.(crashed := true)
    else n.(files := d.files - {k}, bytes := d.bytes - b.size)
  }

  /** Publish the listed files in order. `crash` is the position after whose put the process dies. */
  function DrainFrom(d: Disk, entries: seq<Key>, weather: nat -> Weather, crash: Option<nat>, i: nat): Disk
    requires i <= |entries|
    decreases |entries| - i
  {
    if i == |entries| || entries[i] !in d.files then d
    else
      var n := DrainOne(d, entries[i], weather(i), crash == Some(i));
      if n.stopped.Some? || n.crashed then n else DrainFrom(n, entries, weather, crash, i + 1)
  }

  ghost predicate Listing(files: Files, entries: seq<Key>) {
    && (forall i, j :: 0 <= i < j < |entries| ==> Earlier(entries[i], entries[j]))
    && (forall k :: k in entries <==> k in files)
  }

  // ----- The spool object -----

  class CaptureSpool {
    const limit: nat
    var files: Files
    var bytes: int

    ghost predicate Valid()
      reads this
    {
      bytes == SizeOf(files) <= limit
    }

    /** Restart over what the disk holds; leftover temporary files are gone. `measured` is the sum of
        the file sizes. */
    constructor (limit: nat, found: Files, measured: nat)
      requires measured == SizeOf(found) <= limit
      ensures Valid() && files == found && this.limit == limit
    {
      this.limit, files, bytes := limit, found, measured;
    }

    method Stage(k: Key, b: Body) returns (r: Result<Digest, SpoolError>)
      requires Valid()
      modifies this
      ensures Valid()
      ensures match StageError(old(files), old(bytes) as int, limit, k, b)
              case Some(e) => r == Err(e) && files == old(files)
              case None => r == Ok(b.sha) && files == if k in old(files) then old(files) else old(files)[k := b]
    {
      var error := StageError(files, bytes, limit, k, b);
      if error.Some? {
        return Err(error.value);
      }
      if k !in files {
        SizeWith(files, k, b);
        files := files[k := b];
        bytes := bytes + b.size;
      }
      r := Ok(b.sha);
    }

    /** The pending files, payloads first, then by path. */
    method Entries() returns (entries: seq<Key>)
      ensures Listing(files, entries)
    {
      hide Earlier;
      var found: seq<Key> := [];
      var left := files.Keys;
      while left != {}
        invariant left <= files.Keys && Distinct(found)
        invariant forall k :: k in found <==> k in files && k !in left
        decreases left
      {
        var k :| k in left;
        found := found + [k];
        left := left - {k};
      }
      EarlierIsOrder(Elements(found));
      var less := (a: Key, b: Key) => Earlier(a, b);
      SortFacts(less, found);
      entries := Sort(less, found);
      ListingFrom(files, found, entries);
    }

    /** Publish everything pending, until the store fails or the process dies. */
    method Drain(before: Files, weather: nat -> Weather, crash: Option<nat>)
      returns (store: Files, stopped: Option<SpoolError>, crashed: bool)
      requires Valid()
      modifies this
      ensures Valid()
      ensures exists entries :: Listing(old(files), entries)
      ensures forall entries :: Listing(old(files), entries) ==>
                Disk(files, store, bytes, stopped, crashed)
                == DrainFrom(Disk(old(files), before, old(bytes), None, false), entries, weather, crash, 0)
    {
      hide SizeOf, Listing, Attempt;
      var entries := Entries();
      forall other | Listing(files, other) ensures other == entries { ListingUnique(files, other, entries); }
      store, stopped, crashed := before, None, false;
      var i := 0;
      ghost var target := DrainFrom(Disk(files, before, bytes, None, false), entries, weather, crash, 0);
      while i < |entries| && entries[i] in files
        invariant 0 <= i <= |entries| && Valid()
        invariant stopped.None? && !crashed
        invariant target == DrainFrom(Disk(files, store, bytes, stopped, crashed), entries, weather, crash, i)
      {
        var k := entries[i];
        var b := files[k];
        var (left, error) := Attempt(store, k, b, weather(i));
        store := left;
        if error.Some? {
          stopped := error;
          return;
        }
        if crash == Some(i) {
          crashed := true;
          return;
        }
        SizeWithout(files, k);
        files := files - {k};
        bytes := bytes - b.size;
        i := i + 1;
      }
    }
  }

  lemma EarlierIsOrder(s: set<Key>)
    ensures StrictOrder((a: Key, b: Key) => Earlier(a, b), s)
  {}

  lemma ListingFrom(files: Files, found: seq<Key>, entries: seq<Key>)
    requires (forall k :: k in found <==> k in files) && Elements(entries) == Elements(found)
    requires Ordered((a: Key, b: Key) => Earlier(a, b), entries)
    ensures Listing(files, entries)
  {
    hide Earlier;
    var less := (a: Key, b: Key) => Earlier(a, b);
    forall i, j | 0 <= i < j < |entries| ensures Earlier(entries[i], entries[j]) { assert less(entries[i], entries[j]); }
    forall k ensures k in entries <==> k in files { assert k in Elements(entries) <==> k in Elements(found); }
  }

  /** There is only one listing, so a drain is determined by the files. */
  lemma ListingUnique(files: Files, a: seq<Key>, b: seq<Key>)
    requires Listing(files, a) && Listing(files, b)
    ensures a == b
  {
    hide Earlier;
    var less := (x: Key, y: Key) => Earlier(x, y);
    assert Elements(a) == Elements(b);
    EarlierIsOrder(Elements(a));
    OrderedUnique(less, a, b);
  }
}
