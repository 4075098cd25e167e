/** How far a drain gets, and that a clear one empties the spool. */
module SpoolProgress {
  import opened Prelude
  import opened Spool

  /** Staging is refused exactly for other content under a pending key, or for lack of room. */
  lemma StagesExactly(files: Files, bytes: nat, limit: nat, k: Key, b: Body)
    ensures StageError(files, bytes, limit, k, b) == Some(LocalConflict) <==> k in files && files[k].sha != b.sha
    ensures StageError(files, bytes, limit, k, b) == Some(SpoolFull) <==> k !in files && limit < bytes + b.size
    ensures StageError(files, bytes, limit, k, b) == None <==> (k in files && files[k].sha == b.sha) || (k !in files && bytes + b.size <= limit)
  {}

  /** The `i`-th put goes through: the store is up, has nothing else under the key, and the process survives it. */
  predicate Smooth(files: Files, store: Files, entries: seq<Key>, weather: nat -> Weather, crash: Option<nat>, i: nat)
    requires i < |entries| && entries[i] in files
  {
    weather(i) == Clear && (entries[i] in store ==> store[entries[i]].sha == files[entries[i]].sha) && crash != Some(i)
  }

  /** The store once it has these files too; what it already holds stays. */
  function Merged(store: Files, files: Files, gone: set<Key>): Files
    requires gone <= files.Keys
  {
    map k | k in store.Keys + gone :: if k in store then store[k] else files[k]
  }

  ghost function Published(entries: seq<Key>, n: nat): set<Key>
    requires n <= |entries|
  {
    set j | 0 <= j < n :: entries[j]
  }

  /** The disk when exactly the first `n` entries have been published and removed. */
  ghost function DrainedTo(files: Files, store: Files, entries: seq<Key>, n: nat): Disk
    requires Listing(files, entries) && n <= |entries|
  {
    InFiles(files, entries, n);
    Disk(files - Published(entries, n), Merged(store, files, Published(entries, n)), SizeOf(files - Published(entries, n)), None, false)
  }

  lemma InFiles(files: Files, entries: seq<Key>, n: nat)
    requires Listing(files, entries) && n <= |entries|
    ensures Published(entries, n) <= files.Keys
    ensures n < |entries| ==> entries[n] in files && entries[n] !in Published(entries, n) && Published(entries, n + 1) == Published(entries, n) + {entries[n]}
    ensures n == |entries| ==> Published(entries, n) == files.Keys
  {
    forall j | 0 <= j < n ensures entries[j] in files { assert entries[j] in entries; }
    if n < |entries| {
      assert entries[n] in entries;
      forall j | 0 <= j < n ensures entries[j] != entries[n] { assert Earlier(entries[j], entries[n]); }
    } else {
      forall k | k in files ensures k in Published(entries, n) {
        assert k in entries;
        var j :| 0 <= j < |entries| && entries[j] == k;
      }
    }
  }

  lemma MergedMore(store: Files, files: Files, gone: set<Key>, k: Key)
    requires gone <= files.Keys && k in files && k !in gone
    ensures Put(Merged(store, files, gone), k, files[k]) == Merged(store, files, gone + {k})
    ensures k in Merged(store, files, gone) <==> k in store
    ensures k in store ==> Merged(store, files, gone)[k] == store[k]
  {}

  lemma OneFurther(files: Files, store: Files, entries: seq<Key>, weather: nat -> Weather, crash: Option<nat>, i: nat)
    requires Listing(files, entries) && i < |entries|
    ensures entries[i] in files && entries[i] in DrainedTo(files, store, entries, i).files
    ensures Smooth(files, store, entries, weather, crash, i) ==>
              DrainOne(DrainedTo(files, store, entries, i), entries[i], weather(i), crash == Some(i)) == DrainedTo(files, store, entries, i + 1)
    ensures !Smooth(files, store, entries, weather, crash, i) ==>
              var d, r := DrainedTo(files, store, entries, i), DrainOne(DrainedTo(files, store, entries, i), entries[i], weather(i), crash == Some(i));
              && (r.stopped.Some? || r.crashed) && r.files == d.files && r.bytes == d.bytes
              && (r.store == d.store || (entries[i] !in store && r.store == d.store[entries[i] := files[entries[i]]]))
              && (r.stopped == Some(Unavailable) <==> weather(i) != Clear)
              && (r.stopped == Some(StoreConflict) <==> weather(i) == Clear && entries[i] in store && store[entries[i]].sha != files[entries[i]].sha)
              && (r.crashed <==> weather(i) == Clear && (entries[i] in store ==> store[entries[i]].sha == files[entries[i]].sha))
  {
    hide SizeOf, Listing, Merged, Published;
    InFiles(files, entries, i);
    InFiles(files, entries, i + 1);
    var gone, k := Published(entries, i), entries[i];
    MergedMore(store, files, gone, k);
    assert files - gone - {k} == files - (gone + {k});
    SizeWithout(files - gone, k);
  }

  /** A drain publishes, in listing order, exactly the entries before the first one that does not go through: it ends
      with those drained if there is none, and otherwise at that one, for the reason it gives. */
  lemma {:induction false} DrainsExactly(files: Files, store: Files, entries: seq<Key>, weather: nat -> Weather, crash: Option<nat>, i: nat, n: nat)
    requires Listing(files, entries) && i <= n <= |entries|
    requires forall j :: i <= j < n ==> entries[j] in files && Smooth(files, store, entries, weather, crash, j)
    requires n < |entries| ==> entries[n] in files && !Smooth(files, store, entries, weather, crash, n)
    ensures n < |entries| ==> entries[n] in DrainedTo(files, store, entries, n).files
    ensures DrainFrom(DrainedTo(files, store, entries, i), entries, weather, crash, i)
            == if n == |entries| then DrainedTo(files, store, entries, n)
               else DrainOne(DrainedTo(files, store, entries, n), entries[n], weather(n), crash == Some(n))
    decreases n - i
  {
    hide Listing, Smooth, DrainOne, DrainedTo, DrainFrom;
    if i < n {
      OneFurther(files, store, entries, weather, crash, i);
      Going(files, store, entries, i + 1);
      DrainOnward(DrainedTo(files, store, entries, i), entries, weather, crash, i);
      DrainsExactly(files, store, entries, weather, crash, i + 1, n);
    } else if n < |entries| {
      OneFurther(files, store, entries, weather, crash, n);
      DrainOnward(DrainedTo(files, store, entries, n), entries, weather, crash, n);
    } else {
      DrainEnds(DrainedTo(files, store, entries, n), entries, weather, crash);
    }
  }

  lemma Going(files: Files, store: Files, entries: seq<Key>, n: nat)
    requires Listing(files, entries) && n <= |entries|
    ensures DrainedTo(files, store, entries, n).stopped.None? && !DrainedTo(files, store, entries, n).crashed
  {}

  lemma DrainOnward(d: Disk, entries: seq<Key>, weather: nat -> Weather, crash: Option<nat>, i: nat)
    requires i < |entries| && entries[i] in d.files
    ensures var n := DrainOne(d, entries[i], weather(i), crash == Some(i));
            DrainFrom(d, entries, weather, crash, i) == if n.stopped.Some? || n.crashed then n else DrainFrom(n, entries, weather, crash, i + 1)
  {}

  lemma DrainEnds(d: Disk, entries: seq<Key>, weather: nat -> Weather, crash: Option<nat>)
    ensures DrainFrom(d, entries, weather, crash, |entries|) == d
  {}

  /** With the store up, no conflicting content and no crash, a drain empties the spool into the store. */
  lemma ClearDrainEmpties(files: Files, store: Files, entries: seq<Key>, weather: nat -> Weather)
    requires Listing(files, entries)
    requires forall i :: 0 <= i < |entries| ==> weather(i) == Clear
    requires forall k :: k in files && k in store ==> store[k].sha == files[k].sha
    ensures var r := DrainFrom(Disk(files, store, SizeOf(files), None, false), entries, weather, None, 0);
            && r.files == map[] && r.bytes == 0 && r.stopped.None? && !r.crashed && r.store == Merged(store, files, files.Keys)
  {
    hide Listing, Merged;
    InFiles(files, entries, 0);
    InFiles(files, entries, |entries|);
    assert Published(entries, 0) == {} && files - {} == files;
    assert Merged(store, files, {}) == store by { NothingMerged(store, files); }
    forall i | 0 <= i < |entries| ensures entries[i] in files && Smooth(files, store, entries, weather, None, i) { InFiles(files, entries, i); }
    DrainsExactly(files, store, entries, weather, None, 0, |entries|);
    assert files - files.Keys == map[];
  }

  lemma NothingMerged(store: Files, files: Files)
    ensures Merged(store, files, {}) == store
  {}
}
