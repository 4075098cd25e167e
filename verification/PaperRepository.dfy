/** The PostgreSQL checkpoint and its operation rows: reads, and the compare-and-swap transaction. */
module PaperRepository {
  import opened Prelude
  import opened PaperModel
  import opened SessionLog
  import opened PaperSession
  import opened SessionSafety

  /** Digests of the engine, of whole sessions and of single operations; all arbitrary. */
  datatype Codes = Codes(h: Digests, state: Session -> Digest, op: Operation -> Digest)
  {
    /** No two of these operations share a digest. */
    predicate TellsApart(ops: seq<Operation>) {
      forall i, j :: 0 <= i < j < |ops| && op(ops[i]) == op(ops[j]) ==> ops[i] == ops[j]
    }
  }

  datatype Key = Key(tradeDate: Day, accountSha: Digest)
  datatype Row = Row(revision: nat, sha: Digest, session: Session)
  datatype OpRow = OpRow(sha: Digest, operation: Operation)
  datatype Record = Record(sequence: nat, row: OpRow)

  /** The checkpoint row of one key and its operation rows by sequence number. */
  datatype Db = Db(checkpoint: Option<Row>, rows: map<nat, OpRow>)

  datatype RepoError =
    | KeyMismatch | InvalidSession | NotEmpty | NotInitialized | ChecksumMismatch | LogIncomplete
    | LogDisagrees | BrokenPrefix | PolicyConflict | CasConflict | UniqueViolation

  function KeyOf(s: Session): Key { Key(s.ledger.tradeDate, s.account.sha256) }

  function RowOf(k: Codes, s: Session): Row { Row(s.revision, k.state(s), s) }

  function OpRowOf(k: Codes, op: Operation): OpRow { OpRow(k.op(op), op) }

  // ----- Loading -----

  /** The rows with sequence at most `n`, in sequence order. */
  function SelectRows(rows: map<nat, OpRow>, n: nat): seq<Record> {
    if n == 0 then []
    else SelectRows(rows, n - 1) + if n in rows then [Record(n, rows[n])] else []
  }

  predicate RecordsAgree(k: Codes, records: seq<Record>, ops: seq<Operation>)
    requires |records| == |ops|
  {
    forall i :: 0 <= i < |ops| ==> records[i] == Record(i + 1, OpRowOf(k, ops[i]))
  }

  /** The second half of a load: the checkpoint row read earlier against the rows read now. */
  function ReadLog(k: Codes, key: Key, row: Row, rows: map<nat, OpRow>): Result<Session, RepoError> {
    var s := row.session;
    var records := SelectRows(rows, |s.operations|);
    if !Sound(k.h, s) then Err(InvalidSession)
    else if KeyOf(s) != key then Err(KeyMismatch)
    else if k.state(s) != row.sha then Err(ChecksumMismatch)
    else if |records| != |s.operations| then Err(LogIncomplete)
    else if !RecordsAgree(k, records, s.operations) then Err(LogDisagrees)
    else Ok(s)
  }

  function LoadAll(k: Codes, key: Key, db: Db): Result<Session, RepoError> {
    if db.checkpoint.None? then Err(NotInitialized) else ReadLog(k, key, db.checkpoint.value, db.rows)
  }

  // ----- Initializing -----

  function InitialError(k: Codes, key: Key, s: Session): Option<RepoError> {
    if KeyOf(s) != key then Some(KeyMismatch)
    else if !Sound(k.h, s) then Some(InvalidSession)
    else if s.revision != 0 || s.operations != [] || s.markets != [] then Some(NotEmpty)
    else None
  }

  function InsertCheckpoint(k: Codes, db: Db, s: Session): Db {
    if db.checkpoint.Some? then db else db.(checkpoint := Some(RowOf(k, s)))
  }

  // ----- Committing -----

  function CommitError(k: Codes, key: Key, previous: Session, current: Session): Option<RepoError> {
    if KeyOf(previous) != key || KeyOf(current) != key then Some(KeyMismatch)
    else if !Sound(k.h, current) then Some(InvalidSession)
    else if || current.revision != previous.revision + 1
            || current.account != previous.account
            || current.costs != previous.costs
            || |current.operations| < |previous.operations|
            || current.operations[..|previous.operations|] != previous.operations
    then Some(BrokenPrefix)
    else None
  }

  predicate Taken(k: Codes, rows: map<nat, OpRow>, sequence: nat, op: Operation) {
    sequence in rows || exists q :: q in rows && rows[q].sha == k.op(op)
  }

  /** Insert operations behind sequence number `after`; either unique key may refuse one. */
  function InsertRows(k: Codes, rows: map<nat, OpRow>, after: nat, ops: seq<Operation>): Result<map<nat, OpRow>, RepoError> {
    if ops == [] then Ok(rows)
    else
      var before :- InsertRows(k, rows, after, ops[..|ops| - 1]);
      if Taken(k, before, after + |ops|, ops[|ops| - 1]) then Err(UniqueViolation)
      else Ok(before[after + |ops| := OpRowOf(k, ops[|ops| - 1])])
  }

  datatype Outcome = Applied(db: Db) | Missed | Refused(error: RepoError)

  /** The transaction up to the decision that the compare-and-swap matched no row. */
  function TryCommit(k: Codes, key: Key, db: Db, previous: Session, current: Session): Outcome {
    var error := CommitError(k, key, previous, current);
    if error.Some? then Refused(error.value)
    else if db.checkpoint.None? || db.checkpoint.value.revision != previous.revision || db.checkpoint.value.sha != k.state(previous)
    then Missed
    else
      var rows := InsertRows(k, db.rows, |previous.operations|, current.operations[|previous.operations|..]);
      if rows.Err? then Refused(rows.error) else Applied(Db(Some(RowOf(k, current)), rows.value))
  }

  lemma {:induction false} InsertErrorSticks(k: Codes, rows: map<nat, OpRow>, after: nat, ops: seq<Operation>, n: nat)
    requires n <= |ops| && InsertRows(k, rows, after, ops[..n]).Err?
    ensures InsertRows(k, rows, after, ops) == InsertRows(k, rows, after, ops[..n])
  {
    if n < |ops| {
      assert ops[..|ops| - 1][..n] == ops[..n];
      InsertErrorSticks(k, rows, after, ops[..|ops| - 1], n);
    } else {
      assert ops[..n] == ops;
    }
  }

  /** One connection's view of the two tables. A transaction that raises rolls its writes back. */
  class Repository {
    const codes: Codes
    const key: Key
    var checkpoint: Option<Row>
    var rows: map<nat, OpRow>

    constructor (codes: Codes, key: Key, db: Db)
      ensures this.codes == codes && this.key == key && Tables() == db
    {
      this.codes, this.key := codes, key;
      checkpoint, rows := db.checkpoint, db.rows;
    }

    function Tables(): Db
      reads this
    {
      Db(checkpoint, rows)
    }

    method Initialize(session: Session) returns (r: Result<Session, RepoError>)
      modifies this
      ensures InitialError(codes, key, session).Some? ==>
                Tables() == old(Tables()) && r == Err(InitialError(codes, key, session).value)
      ensures InitialError(codes, key, session).None? ==>
                var after := InsertCheckpoint(codes, old(Tables()), session);
                var seen := LoadAll(codes, key, after);
                var agrees := seen.Ok? && seen.value.account == session.account && seen.value.costs == session.costs;
                && Tables() == (if agrees then after else old(Tables()))
                && r == (if seen.Err? || agrees then seen else Err(PolicyConflict))
    {
      var error := InitialError(codes, key, session);
      if error.Some? {
        return Err(error.value);
      }
      var before := checkpoint;
      if checkpoint.None? {
        checkpoint := Some(RowOf(codes, session));
      }
      r := Load();
      if r.Ok? && (r.value.account != session.account || r.value.costs != session.costs) {
        r := Err(PolicyConflict);
      }
      if r.Err? {
        checkpoint := before;
      }
    }

    method Load() returns (r: Result<Session, RepoError>)
      ensures r == LoadAll(codes, key, Tables())
    {
      if checkpoint.None? {
        return Err(NotInitialized);
      }
      var session := checkpoint.value.session;
      if !Sound(codes.h, session) {
        return Err(InvalidSession);
      }
      if KeyOf(session) != key {
        return Err(KeyMismatch);
      }
      if codes.state(session) != checkpoint.value.sha {
        return Err(ChecksumMismatch);
      }
      var records := SelectRows(rows, |session.operations|);
      if |records| != |session.operations| {
        return Err(LogIncomplete);
      }
      for i := 0 to |records|
        invariant forall j :: 0 <= j < i ==> records[j] == Record(j + 1, OpRowOf(codes, session.operations[j]))
      {
        var operation := session.operations[i];
        if records[i].sequence != i + 1 || records[i].row.sha != codes.op(operation) || records[i].row.operation != operation {
          return Err(LogDisagrees);
        }
      }
      r := Ok(session);
    }

    method Commit(previous: Session, current: Session) returns (r: Result<Session, RepoError>)
      modifies this
      ensures match TryCommit(codes, key, old(Tables()), previous, current)
              case Refused(e) => Tables() == old(Tables()) && r == Err(e)
              case Applied(db) => Tables() == db && r == Ok(current)
              case Missed =>
                var seen := LoadAll(codes, key, old(Tables()));
                && Tables() == old(Tables())
                && r == if seen.Err? || seen.value == current then seen else Err(CasConflict)
    {
      hide Sound;
      var error := CommitError(codes, key, previous, current);
      if error.Some? {
        return Err(error.value);
      }
      if checkpoint.None? || checkpoint.value.revision != previous.revision || checkpoint.value.sha != codes.state(previous) {
        r := Load();
        if r.Ok? && r.value != current {
          r := Err(CasConflict);
        }
        return;
      }
      var stored := rows;
      var added := current.operations[|previous.operations|..];
      var i := 0;
      while i < |added|
        invariant 0 <= i <= |added|
        invariant InsertRows(codes, rows, |previous.operations|, added[..i]) == Ok(stored)
      {
        assert added[..i + 1][..i] == added[..i];
        if Taken(codes, stored, |previous.operations| + i + 1, added[i]) {
          InsertErrorSticks(codes, rows, |previous.operations|, added, i + 1);
          return Err(UniqueViolation);
        }
        stored := stored[|previous.operations| + i + 1 := OpRowOf(codes, added[i])];
        i := i + 1;
      }
      assert added[..|added|] == added;
      checkpoint, rows := Some(RowOf(codes, current)), stored;
      r := Ok(current);
    }
  }
}
