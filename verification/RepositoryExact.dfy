/** Each repository transaction, exactly: what a load accepts, and when and how a commit writes. */
module RepositoryExact {
  import opened Prelude
  import opened SessionLog
  import opened PaperSession
  import opened SessionSafety
  import opened PaperRepository

  // ----- Load -----

  lemma {:induction false} SelectedRows(rows: map<nat, OpRow>, n: nat)
    ensures |SelectRows(rows, n)| <= n
    ensures |SelectRows(rows, n)| == n <==> forall i :: 1 <= i <= n ==> i in rows
    ensures |SelectRows(rows, n)| == n ==> forall q :: 1 <= q <= n ==> q in rows && SelectRows(rows, n)[q - 1] == Record(q, rows[q])
  {
    if n > 0 {
      SelectedRows(rows, n - 1);
      if forall i :: 1 <= i <= n - 1 ==> i in rows {
        assert n in rows ==> forall i :: 1 <= i <= n ==> i in rows;
      }
    }
  }

  /** The rows hold these operations, numbered from one, under their own digests. */
  predicate RowsAre(k: Codes, rows: map<nat, OpRow>, ops: seq<Operation>) {
    forall q :: 1 <= q <= |ops| ==> q in rows && rows[q].sha == k.op(ops[q - 1]) && rows[q].operation == ops[q - 1]
  }

  /** A load succeeds, with the checkpoint's own session, if and only if that session is valid and of this key, its
      checksum is right, and the operation rows are its operations, one by one. */
  lemma LoadsExactly(k: Codes, key: Key, db: Db)
    ensures LoadAll(k, key, db).Ok? <==>
              && db.checkpoint.Some?
              && var s := db.checkpoint.value.session;
                 && Sound(k.h, s) && s.ledger.tradeDate == key.tradeDate && s.account.sha256 == key.accountSha
                 && k.state(s) == db.checkpoint.value.sha && RowsAre(k, db.rows, s.operations)
    ensures LoadAll(k, key, db).Ok? ==> LoadAll(k, key, db).value == db.checkpoint.value.session
    ensures db.checkpoint.None? ==> LoadAll(k, key, db) == Err(NotInitialized)
  {
    hide Sound, SelectRows;
    if db.checkpoint.Some? {
      var ops := db.checkpoint.value.session.operations;
      var records := SelectRows(db.rows, |ops|);
      SelectedRows(db.rows, |ops|);
      if RowsAre(k, db.rows, ops) {
        forall i | 0 <= i < |ops| ensures records[i] == Record(i + 1, OpRowOf(k, ops[i])) {
          assert i + 1 in db.rows && records[i + 1 - 1] == Record(i + 1, db.rows[i + 1]);
        }
      }
      if |records| == |ops| && RecordsAgree(k, records, ops) {
        forall q | 1 <= q <= |ops| ensures q in db.rows && db.rows[q].sha == k.op(ops[q - 1]) && db.rows[q].operation == ops[q - 1] {
          assert records[q - 1] == Record(q - 1 + 1, OpRowOf(k, ops[q - 1]));
        }
      }
    }
  }

  // ----- Commit -----

  /** A transition one revision on, of the same account and costs, that keeps every operation of its base. */
  predicate Follows(previous: Session, current: Session) {
    && current.revision == previous.revision + 1 && current.account == previous.account && current.costs == previous.costs
    && |previous.operations| <= |current.operations| && current.operations[..|previous.operations|] == previous.operations
  }

  /** No sequence number and no digest the new operations need is taken, by a row or by one another. */
  predicate Insertable(k: Codes, rows: map<nat, OpRow>, after: nat, ops: seq<Operation>) {
    && (forall q :: after < q <= after + |ops| ==> q !in rows)
    && (forall i, q :: 0 <= i < |ops| && q in rows ==> rows[q].sha != k.op(ops[i]))
    && (forall i, j :: 0 <= i < j < |ops| ==> k.op(ops[i]) != k.op(ops[j]))
  }

  /** The rows after inserting: the old ones, and one for each new operation. */
  ghost predicate Inserted(k: Codes, rows: map<nat, OpRow>, after: nat, ops: seq<Operation>, n: map<nat, OpRow>) {
    && (forall q :: q in n <==> q in rows || after < q <= after + |ops|)
    && (forall q :: q in rows && !(after < q <= after + |ops|) ==> n[q] == rows[q])
    && (forall q :: after < q <= after + |ops| ==> q in n && n[q] == OpRow(k.op(ops[q - after - 1]), ops[q - after - 1]))
  }

  lemma {:induction false} InsertsExactly(k: Codes, rows: map<nat, OpRow>, after: nat, ops: seq<Operation>)
    ensures InsertRows(k, rows, after, ops).Ok? <==> Insertable(k, rows, after, ops)
    ensures InsertRows(k, rows, after, ops).Ok? ==> Inserted(k, rows, after, ops, InsertRows(k, rows, after, ops).value)
    ensures InsertRows(k, rows, after, ops).Err? ==> InsertRows(k, rows, after, ops).error == UniqueViolation
  {
    if ops != [] {
      var front, last := ops[..|ops| - 1], ops[|ops| - 1];
      InsertsExactly(k, rows, after, front);
      assert forall i :: 0 <= i < |front| ==> front[i] == ops[i];
      if InsertRows(k, rows, after, front).Ok? {
        var before := InsertRows(k, rows, after, front).value;
        LastInsert(k, rows, after, ops, before);
      }
    }
  }

  lemma LastInsert(k: Codes, rows: map<nat, OpRow>, after: nat, ops: seq<Operation>, before: map<nat, OpRow>)
    requires ops != [] && Insertable(k, rows, after, ops[..|ops| - 1]) && Inserted(k, rows, after, ops[..|ops| - 1], before)
    ensures Taken(k, before, after + |ops|, ops[|ops| - 1]) <==> !Insertable(k, rows, after, ops)
    ensures !Taken(k, before, after + |ops|, ops[|ops| - 1]) ==>
              Inserted(k, rows, after, ops, before[after + |ops| := OpRowOf(k, ops[|ops| - 1])])
  {
    var front, last := ops[..|ops| - 1], ops[|ops| - 1];
    assert forall i :: 0 <= i < |front| ==> front[i] == ops[i];
    if Taken(k, before, after + |ops|, last) {
      if after + |ops| !in before {
        var q :| q in before && before[q].sha == k.op(last);
        if after < q <= after + |front| {
          assert before[q] == OpRow(k.op(front[q - after - 1]), front[q - after - 1]);
          assert k.op(ops[q - after - 1]) == k.op(ops[|ops| - 1]);
        }
      }
    } else {
      forall q | q in rows ensures rows[q].sha != k.op(last) { assert q in before; }
      forall i | 0 <= i < |front| ensures k.op(ops[i]) != k.op(last) {
        var q := after + i + 1;
        assert q in before && before[q] == OpRow(k.op(front[q - after - 1]), front[q - after - 1]);
      }
    }
  }

  /** A commit is refused at once unless both sessions are of this key, the new one is valid and follows the old;
      it misses exactly when the stored revision or checksum is not the old session's; otherwise it is refused by a
      unique key exactly when a number or digest is taken, and else stores the new checkpoint and one row for each new
      operation. */
  lemma CommitsExactly(k: Codes, key: Key, db: Db, previous: Session, current: Session)
    ensures var fine := KeyOf(previous) == key && KeyOf(current) == key && Sound(k.h, current) && Follows(previous, current);
            var base := db.checkpoint.Some? && db.checkpoint.value.revision == previous.revision && db.checkpoint.value.sha == k.state(previous);
            var outcome := TryCommit(k, key, db, previous, current);
            && (outcome.Missed? <==> fine && !base)
            && (outcome.Applied? <==> fine && base && Insertable(k, db.rows, |previous.operations|, current.operations[|previous.operations|..]))
            && (fine && outcome.Refused? ==> outcome.error == UniqueViolation)
            && (outcome.Applied? ==>
                  && outcome.db.checkpoint == Some(Row(current.revision, k.state(current), current))
                  && Inserted(k, db.rows, |previous.operations|, current.operations[|previous.operations|..], outcome.db.rows))
  {
    hide Sound, InsertRows, Insertable, Inserted;
    if |previous.operations| <= |current.operations| {
      InsertsExactly(k, db.rows, |previous.operations|, current.operations[|previous.operations|..]);
    }
  }
}
