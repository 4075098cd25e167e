/** The spool over its whole life: staging, draining, outages, and crashes at every point between a
    put and the file's removal. */
module SpoolProtocol {
  import opened Prelude
  import opened Spool

  /** One staging: what was staged, and whether the store already had an object of that key. */
  datatype Staged = Staged(key: Key, sha: Digest, published: bool)

  /** `log` records, in order, everything that staging has made durable. */
  datatype World = World(files: Files, store: Files, bytes: int, running: bool, log: seq<Staged>)

  datatype StageCrash = NoCrash | InTemporary | AfterReplace

  datatype Action =
    | Stage(key: Key, body: Body, crash: StageCrash)
    | Drain(entries: seq<Key>, weather: nat -> Weather, at: Option<nat>)
    | Crash
    | Restart

  ghost function Act(limit: nat, w: World, a: Action): World {
    match a
    case Stage(k, b, crash) =>
      if !w.running || w.bytes < 0 then w
      else if crash == InTemporary then w.(running := false)
      else if StageError(w.files, w.bytes, limit, k, b).Some? then w
      else
        var files := if k in w.files then w.files else w.files[k := b];
        w.(files := files, bytes := if k in w.files then w.bytes else w.bytes + b.size,
           running := crash == NoCrash, log := w.log + [Staged(k, b.sha, k in w.store)])
    case Drain(entries, weather, at) =>
      if !w.running || !Listing(w.files, entries) then w
      else
        var d := DrainFrom(Disk(w.files, w.store, w.bytes, None, false), entries, weather, at, 0);
        w.(files := d.files, store := d.store, bytes := d.bytes, running := !d.crashed)
    case Crash => w.(running := false)
    case Restart => if SizeOf(w.files) <= limit then w.(running := true, bytes := SizeOf(w.files)) else w
  }

  const EMPTY := World(map[], map[], 0, true, [])

  ghost function Perform(limit: nat, actions: seq<Action>): World {
    if actions == [] then EMPTY else Act(limit, Perform(limit, actions[..|actions| - 1]), actions[|actions| - 1])
  }

  // ----- The invariant -----

  predicate Held(files: Files, s: Staged) { s.key in files && files[s.key].sha == s.sha }

  ghost predicate Logged(log: seq<Staged>, k: Key) { exists i :: 0 <= i < |log| && log[i].key == k }

  /** Nothing staged is ever lost. */
  ghost predicate NothingLost(files: Files, store: Files, log: seq<Staged>) {
    && (forall i :: 0 <= i < |log| ==> Held(files, log[i]) || Held(store, log[i]))
    && (forall k :: k in files || k in store ==> Logged(log, k))
  }

  /** Every payload staged before entry `j` is in the store. */
  ghost predicate PayloadsBefore(store: Files, log: seq<Staged>, j: nat)
    requires j <= |log|
  {
    forall i :: 0 <= i < j && !log[i].key.manifest ==> Held(store, log[i])
  }

  /** A manifest the store did not have when it was staged enters it after every payload staged before. */
  ghost predicate ManifestsLast(store: Files, log: seq<Staged>) {
    forall j :: 0 <= j < |log| && log[j].key.manifest && !log[j].published && log[j].key in store ==> PayloadsBefore(store, log, j)
  }

  ghost predicate Inv(limit: nat, w: World) {
    && SizeOf(w.files) <= limit && (w.running ==> w.bytes == SizeOf(w.files))
    && NothingLost(w.files, w.store, w.log) && ManifestsLast(w.store, w.log)
  }

  lemma StageKeeps(limit: nat, w: World, k: Key, b: Body, crash: StageCrash)
    requires Inv(limit, w)
    ensures Inv(limit, Act(limit, w, Stage(k, b, crash)))
  {
    hide SizeOf;
    var n := Act(limit, w, Stage(k, b, crash));
    if n.log != w.log {
      var s := Staged(k, b.sha, k in w.store);
      if k !in w.files { SizeWith(w.files, k, b); }
      LoggedMore(w.log, s);
      hide Logged;
      assert forall i :: 0 <= i < |w.log| ==> n.log[i] == w.log[i];
      forall i | 0 <= i < |n.log| ensures Held(n.files, n.log[i]) || Held(n.store, n.log[i]) {
        assert i < |w.log| ==> Held(w.files, w.log[i]) || Held(w.store, w.log[i]);
      }
      StageOrder(w.store, w.log, s);
    }
  }

  lemma LoggedMore(log: seq<Staged>, s: Staged)
    ensures forall k :: Logged(log, k) || k == s.key ==> Logged(log + [s], k)
  {
    forall k | Logged(log, k) || k == s.key ensures Logged(log + [s], k) {
      if Logged(log, k) {
        var i :| 0 <= i < |log| && log[i].key == k;
        assert (log + [s])[i].key == k;
      } else {
        assert (log + [s])[|log|].key == k;
      }
    }
  }

  lemma StageOrder(store: Files, log: seq<Staged>, s: Staged)
    requires ManifestsLast(store, log) && s.published == (s.key in store)
    ensures ManifestsLast(store, log + [s])
  {
    var n := log + [s];
    assert forall i :: 0 <= i < |log| ==> n[i] == log[i];
    forall j | 0 <= j < |n| && n[j].key.manifest && !n[j].published && n[j].key in store ensures PayloadsBefore(store, n, j) {
      assert PayloadsBefore(store, log, j);
    }
  }

  /** Publishing one listed file, when everything still spooled is listed from here on. */
  ghost predicate Remaining(files: Files, entries: seq<Key>, i: nat)
    requires i <= |entries|
  {
    forall k :: k in files <==> exists j :: i <= j < |entries| && entries[j] == k
  }

  lemma PutKeeps(files: Files, store: Files, log: seq<Staged>, entries: seq<Key>, i: nat)
    requires i < |entries| && Remaining(files, entries, i) && entries[i] in files && Listing(files, entries[i..])
    requires NothingLost(files, store, log) && ManifestsLast(store, log)
    ensures var n := Put(store, entries[i], files[entries[i]]); NothingLost(files, n, log) && ManifestsLast(n, log)
  {
    var k := entries[i];
    var n := Put(store, k, files[k]);
    hide Logged;
    forall x | 0 <= x < |log| ensures Held(files, log[x]) || Held(n, log[x]) {
      assert Held(files, log[x]) || Held(store, log[x]);
    }
    if k.manifest { OnlyManifestsLeft(files, entries, i); }
    forall y | 0 <= y < |log| && log[y].key.manifest && !log[y].published && log[y].key in n ensures PayloadsBefore(n, log, y) {
      forall x | 0 <= x < y && !log[x].key.manifest ensures Held(n, log[x]) {
        assert Held(files, log[x]) || Held(store, log[x]);
        assert log[y].key in store ==> PayloadsBefore(store, log, y);
      }
    }
  }

  lemma OnlyManifestsLeft(files: Files, entries: seq<Key>, i: nat)
    requires i < |entries| && entries[i].manifest && Listing(files, entries[i..])
    ensures forall k :: k in files ==> k.manifest
  {
    var rest := entries[i..];
    forall k | k in files ensures k.manifest {
      assert k in rest;
      var j :| 0 <= j < |rest| && rest[j] == k;
      assert j > 0 ==> Earlier(rest[0], rest[j]);
    }
  }

  lemma RemovedListing(files: Files, rest: seq<Key>)
    requires rest != [] && Listing(files, rest)
    ensures Listing(files - {rest[0]}, rest[1..])
  {
    assert rest == [rest[0]] + rest[1..];
    forall j | 1 <= j < |rest| ensures rest[j] != rest[0] { assert Earlier(rest[0], rest[j]); }
    forall k ensures k in rest[1..] <==> k in files - {rest[0]} {
      if k in rest[1..] {
        var j :| 0 <= j < |rest[1..]| && rest[1..][j] == k;
        assert rest[j + 1] == k;
      }
    }
  }

  lemma ListingRemains(files: Files, entries: seq<Key>, i: nat)
    requires i <= |entries| && Listing(files, entries[i..])
    ensures Remaining(files, entries, i)
  {
    var rest := entries[i..];
    forall k ensures k in files <==> exists j :: i <= j < |entries| && entries[j] == k {
      if k in files {
        assert k in rest;
        var j :| 0 <= j < |rest| && rest[j] == k;
        assert entries[i + j] == k;
      }
      if j :| i <= j < |entries| && entries[j] == k {
        assert rest[j - i] == k;
      }
    }
  }

  ghost predicate DiskFine(limit: nat, d: Disk, log: seq<Staged>) {
    d.bytes == SizeOf(d.files) <= limit && NothingLost(d.files, d.store, log) && ManifestsLast(d.store, log)
  }

  lemma DrainOneKeeps(limit: nat, d: Disk, log: seq<Staged>, entries: seq<Key>, i: nat, w: Weather, crash: bool)
    requires i < |entries| && entries[i] in d.files && Listing(d.files, entries[i..]) && DiskFine(limit, d, log) && d.stopped.None? && !d.crashed
    ensures var n := DrainOne(d, entries[i], w, crash);
            DiskFine(limit, n, log) && (n.stopped.None? && !n.crashed ==> Listing(n.files, entries[i + 1..]))
  {
    hide SizeOf, NothingLost, ManifestsLast, Listing, Attempt;
    var k, b := entries[i], d.files[entries[i]];
    AttemptKeeps(d.files, d.store, log, entries, i, w);
    var store := Attempt(d.store, k, b, w).0;
    SizeWithout(d.files, k);
    RemovedListing(d.files, entries[i..]);
    assert entries[i..][1..] == entries[i + 1..] && entries[i..][0] == k;
    if Attempt(d.store, k, b, w).1.None? {
      PutSucceeded(d.store, k, b, w);
      RemoveKeeps(d.files, store, log, k);
    }
  }

  lemma {:induction false} DrainKeeps(limit: nat, d: Disk, log: seq<Staged>, entries: seq<Key>, weather: nat -> Weather, crash: Option<nat>, i: nat)
    requires i <= |entries| && Listing(d.files, entries[i..]) && DiskFine(limit, d, log) && d.stopped.None? && !d.crashed
    ensures DiskFine(limit, DrainFrom(d, entries, weather, crash, i), log)
    decreases |entries| - i
  {
    hide DiskFine, DrainOne, Listing;
    if i < |entries| && entries[i] in d.files {
      DrainOneKeeps(limit, d, log, entries, i, weather(i), crash == Some(i));
      var n := DrainOne(d, entries[i], weather(i), crash == Some(i));
      if n.stopped.None? && !n.crashed { DrainKeeps(limit, n, log, entries, weather, crash, i + 1); }
    }
  }

  lemma AttemptKeeps(files: Files, store: Files, log: seq<Staged>, entries: seq<Key>, i: nat, w: Weather)
    requires i < |entries| && entries[i] in files && Listing(files, entries[i..])
    requires NothingLost(files, store, log) && ManifestsLast(store, log)
    ensures var n := Attempt(store, entries[i], files[entries[i]], w).0; NothingLost(files, n, log) && ManifestsLast(n, log)
  {
    hide NothingLost, ManifestsLast, Listing, Put;
    ListingRemains(files, entries, i);
    PutKeeps(files, store, log, entries, i);
  }

  lemma PutSucceeded(store: Files, k: Key, b: Body, w: Weather)
    requires Attempt(store, k, b, w).1.None?
    ensures k in Attempt(store, k, b, w).0 && Attempt(store, k, b, w).0[k].sha == b.sha
  {}

  lemma RemoveKeeps(files: Files, store: Files, log: seq<Staged>, k: Key)
    requires NothingLost(files, store, log) && k in files && k in store && store[k].sha == files[k].sha
    ensures NothingLost(files - {k}, store, log)
  {
    hide Logged;
    forall i | 0 <= i < |log| ensures Held(files - {k}, log[i]) || Held(store, log[i]) {
      assert Held(files, log[i]) || Held(store, log[i]);
    }
  }

  lemma ActKeeps(limit: nat, w: World, a: Action)
    requires Inv(limit, w)
    ensures Inv(limit, Act(limit, w, a))
  {
    hide SizeOf, NothingLost, ManifestsLast, Listing;
    match a
    case Stage(k, b, crash) => StageKeeps(limit, w, k, b, crash);
    case Drain(entries, weather, at) =>
      if w.running && Listing(w.files, entries) {
        assert entries[0..] == entries;
        DrainKeeps(limit, Disk(w.files, w.store, w.bytes, None, false), w.log, entries, weather, at, 0);
      }
    case Crash =>
    case Restart =>
  }

  /** Whatever is staged, drained, cut off or restarted: every staged object is in the spool or the
      store, a published manifest has all its earlier payloads published, and the pending bytes are the
      spooled sizes, within the limit. A restart therefore never finds the spool too large. */
  lemma {:induction false} SpoolIsSafe(limit: nat, actions: seq<Action>)
    ensures Inv(limit, Perform(limit, actions))
  {
    hide Act;
    if actions == [] {
      assert Inv(limit, EMPTY);
    } else {
      hide Inv;
      SpoolIsSafe(limit, actions[..|actions| - 1]);
      ActKeeps(limit, Perform(limit, actions[..|actions| - 1]), actions[|actions| - 1]);
    }
  }

  // ----- Exactly when manifests are last -----

  /** The store never loses an object, and the log never changes what it has recorded. */
  ghost predicate Onward(w: World, n: World) {
    && (forall k :: k in w.store ==> k in n.store && n.store[k] == w.store[k])
    && |w.log| <= |n.log| && (forall i :: 0 <= i < |w.log| ==> n.log[i] == w.log[i])
  }

  lemma {:induction false} DrainOnward(d: Disk, entries: seq<Key>, weather: nat -> Weather, crash: Option<nat>, i: nat)
    requires i <= |entries|
    ensures var n := DrainFrom(d, entries, weather, crash, i); forall k :: k in d.store ==> k in n.store && n.store[k] == d.store[k]
    decreases |entries| - i
  {
    if i < |entries| && entries[i] in d.files {
      var n := DrainOne(d, entries[i], weather(i), crash == Some(i));
      assert forall k :: k in d.store ==> k in n.store && n.store[k] == d.store[k];
      if n.stopped.None? && !n.crashed { DrainOnward(n, entries, weather, crash, i + 1); }
    }
  }

  lemma ActOnward(limit: nat, w: World, a: Action)
    ensures Onward(w, Act(limit, w, a))
  {
    hide SizeOf, Listing, DrainFrom;
    if a.Drain? { DrainOnward(Disk(w.files, w.store, w.bytes, None, false), a.entries, a.weather, a.at, 0); }
  }

  lemma {:induction false} PerformOnward(limit: nat, actions: seq<Action>, later: seq<Action>)
    ensures Onward(Perform(limit, actions), Perform(limit, actions + later))
    decreases |later|
  {
    hide Act;
    if later == [] {
      assert actions + later == actions;
    } else {
      var front, last := later[..|later| - 1], later[|later| - 1];
      PerformOnward(limit, actions, front);
      assert (actions + later)[..|actions + later| - 1] == actions + front;
      ActOnward(limit, Perform(limit, actions + front), last);
    }
  }

  /** Manifests last, exactly. Take any moment right after a manifest was staged as entry `j`. At every
      later moment the manifest's being in the store implies that every payload staged before it is too,
      if and only if, at that staging, the store did not have the manifest or already had the payloads. */
  lemma ManifestLastExactly(limit: nat, actions: seq<Action>, stage: Action)
    requires var w := Perform(limit, actions);
             stage.Stage? && stage.key.manifest && |Act(limit, w, stage).log| == |w.log| + 1
    ensures var w, j := Perform(limit, actions), |Perform(limit, actions).log|;
            (forall later: seq<Action> ::
               var n := Perform(limit, actions + [stage] + later);
               stage.key in n.store ==> j <= |n.log| && PayloadsBefore(n.store, n.log, j))
            <==> (stage.key !in w.store || PayloadsBefore(w.store, w.log, j))
  {
    hide Act, Perform, SizeOf;
    var w := Perform(limit, actions);
    var j, m := |w.log|, Act(limit, w, stage);
    assert m == Perform(limit, actions + [stage]) by { PerformOne(limit, actions, stage); }
    StagedEntry(limit, w, stage);
    if stage.key !in w.store || PayloadsBefore(w.store, w.log, j) {
      forall later: seq<Action>
        ensures var n := Perform(limit, actions + [stage] + later);
                stage.key in n.store ==> j <= |n.log| && PayloadsBefore(n.store, n.log, j)
      {
        var n := Perform(limit, actions + [stage] + later);
        PerformOnward(limit, actions + [stage], later);
        SpoolIsSafe(limit, actions + [stage] + later);
        if stage.key in w.store { PayloadsStay(m, n, j); }
      }
    } else {
      assert actions + [stage] + [] == actions + [stage];
      var n := Perform(limit, actions + [stage] + []);
      assert n == m && stage.key in n.store && !PayloadsBefore(n.store, n.log, j);
    }
  }

  lemma PerformOne(limit: nat, actions: seq<Action>, a: Action)
    ensures Perform(limit, actions + [a]) == Act(limit, Perform(limit, actions), a)
  {
    assert (actions + [a])[..|actions|] == actions;
  }

  lemma StagedEntry(limit: nat, w: World, a: Action)
    requires a.Stage? && |Act(limit, w, a).log| == |w.log| + 1
    ensures var n := Act(limit, w, a);
            n.store == w.store && n.log == w.log + [Staged(a.key, a.body.sha, a.key in w.store)]
    ensures PayloadsBefore(w.store, w.log, |w.log|) <==> PayloadsBefore(Act(limit, w, a).store, Act(limit, w, a).log, |w.log|)
  {
    var n := Act(limit, w, a);
    assert forall i :: 0 <= i < |w.log| ==> n.log[i] == w.log[i];
  }

  lemma PayloadsStay(w: World, n: World, j: nat)
    requires Onward(w, n) && j <= |w.log| && PayloadsBefore(w.store, w.log, j)
    ensures PayloadsBefore(n.store, n.log, j)
  {}

  /** The failing side is reachable, under every limit that holds both objects: a published manifest
      staged again says nothing of a payload staged in between. */
  lemma RestagedManifestIsEarly(limit: nat, m: Key, p: Key, b: Body, c: Body)
    requires m.manifest && !p.manifest && b.size >= 1 && c.size >= 1 && b.size + c.size <= limit
    ensures var w := Perform(limit, [Stage(m, b, NoCrash), Drain([m], (_: nat) => Clear, None), Stage(p, c, NoCrash), Stage(m, b, NoCrash)]);
            && w.log == [Staged(m, b.sha, false), Staged(p, c.sha, false), Staged(m, b.sha, true)]
            && m in w.store && p !in w.store && w.running
  {
    hide DrainFrom, SizeOf, Listing;
    var a1, a2, a3 := Stage(m, b, NoCrash), Drain([m], (_: nat) => Clear, None), Stage(p, c, NoCrash);
    var w1 := World(map[m := b], map[], b.size, true, [Staged(m, b.sha, false)]);
    var w2 := World(map[], map[m := b], 0, true, [Staged(m, b.sha, false)]);
    assert Act(limit, EMPTY, a1) == w1;
    assert Act(limit, w1, a2) == w2 by { PublishOne(m, b); }
    var w3 := Act(limit, w2, a3);
    assert w3 == World(map[p := c], map[m := b], c.size, true, [Staged(m, b.sha, false), Staged(p, c.sha, false)]);
    FourActions(limit, a1, a2, a3, a1);
  }

  lemma FourActions(limit: nat, a: Action, b: Action, c: Action, d: Action)
    ensures Perform(limit, [a, b, c, d]) == Act(limit, Act(limit, Act(limit, Act(limit, EMPTY, a), b), c), d)
  {
    hide Act;
    assert [a, b, c, d][..3] == [a, b, c] && [a, b, c][..2] == [a, b] && [a, b][..1] == [a] && [a][..0] == [];
    assert Perform(limit, [a]) == Act(limit, EMPTY, a);
    assert Perform(limit, [a, b]) == Act(limit, Act(limit, EMPTY, a), b);
    assert Perform(limit, [a, b, c]) == Act(limit, Act(limit, Act(limit, EMPTY, a), b), c);
  }

  lemma PublishOne(m: Key, b: Body)
    ensures Listing(map[m := b], [m])
    ensures DrainFrom(Disk(map[m := b], map[], b.size, None, false), [m], (_: nat) => Clear, None, 0)
            == Disk(map[], map[m := b], 0, None, false)
  {
    assert [m][0] == m;
    var d := Disk(map[m := b], map[], b.size, None, false);
    var n := DrainOne(d, m, Clear, false);
    assert n == Disk(map[], map[m := b], 0, None, false);
    assert DrainFrom(n, [m], (_: nat) => Clear, None, 1) == n;
  }
}
