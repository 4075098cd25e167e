/** Any number of clients, each loading, deciding and committing over the same tables, with lost
    replies, duplicated requests and crashes. */
module RepositoryProtocol {
  import opened Prelude
  import opened PaperModel
  import opened SessionLog
  import opened PaperSession
  import opened SessionSafety
  import opened SessionAccounts
  import opened SessionGuards
  import opened SessionHistory
  import opened PaperRepository

  /** One decided transition: what was loaded, what the command made of it. */
  datatype Attempt = Attempt(command: Command, previous: Session, current: Session)

  datatype Phase =
    | Idle
    | Reading(command: Command, seen: Row)
    | Loaded(command: Command, previous: Session)
    | Ready(attempt: Attempt)
    | Rechecking(attempt: Attempt)
    | Rereading(attempt: Attempt, seen: Row)
    | Done(attempt: Attempt)
    | Failed(error: RepoError)

  /** `sent` holds every commit request ever put on the wire. `history` and `commands` only record:
      the checkpoints committed so far and the commands that made them. */
  datatype World = World(db: Db, clients: map<nat, Phase>, sent: seq<Attempt>, history: seq<Session>, commands: seq<Command>)
  {
    function PhaseOf(c: nat): Phase { if c in clients then clients[c] else Idle }

    function Move(c: nat, p: Phase): World { this.(clients := clients[c := p]) }
  }

  const EMPTY := World(Db(None, map[]), map[], [], [], [])

  /** One atomic step. A step that is not enabled changes nothing. */
  datatype Action =
    | Initialize(session: Session)
    | SelectCheckpoint(client: nat, command: Command)
    | SelectOperations(client: nat)
    | Decide(client: nat)
    | Send(client: nat)
    | Execute(request: nat, reply: Option<nat>)
    | ReselectCheckpoint(client: nat)
    | ReselectOperations(client: nat)
    | Crash(client: nat)

  datatype Setting = Setting(k: Codes, key: Key, cfg: Configuration)

  function Act(g: Setting, w: World, a: Action): World
    requires g.cfg.Valid()
  {
    match a
    case Initialize(s) =>
      if InitialError(g.k, g.key, s).Some? || w.db.checkpoint.Some? then w
      else w.(db := InsertCheckpoint(g.k, w.db, s), history := [s])
    case SelectCheckpoint(c, command) =>
      if w.PhaseOf(c).Idle? && command.Valid() && w.db.checkpoint.Some?
      then w.Move(c, Reading(command, w.db.checkpoint.value)) else w
    case SelectOperations(c) =>
      var p := w.PhaseOf(c);
      if !p.Reading? then w
      else
        var r := ReadLog(g.k, g.key, p.seen, w.db.rows);
        w.Move(c, if r.Ok? then Loaded(p.command, r.value) else Failed(r.error))
    case Decide(c) =>
      var p := w.PhaseOf(c);
      if !p.Loaded? then w
      else
        var r := Apply(g.k.h, g.cfg, p.previous, p.command);
        w.Move(c, if r.Err? || r.value == p.previous then Idle else Ready(Attempt(p.command, p.previous, r.value)))
    case Send(c) =>
      var p := w.PhaseOf(c);
      if p.Ready? then w.(sent := w.sent + [p.attempt]) else w
    case Execute(n, reply) =>
      if n >= |w.sent| then w else Answer(Serve(g, w, w.sent[n]), w.sent[n], reply, TryCommit(g.k, g.key, w.db, w.sent[n].previous, w.sent[n].current))
    case ReselectCheckpoint(c) =>
      var p := w.PhaseOf(c);
      if p.Rechecking? && w.db.checkpoint.Some? then w.Move(c, Rereading(p.attempt, w.db.checkpoint.value)) else w
    case ReselectOperations(c) =>
      var p := w.PhaseOf(c);
      if !p.Rereading? then w
      else
        var r := ReadLog(g.k, g.key, p.seen, w.db.rows);
        w.Move(c, if r.Err? then Failed(r.error) else if r.value == p.attempt.current then Done(p.attempt) else Failed(CasConflict))
    case Crash(c) => w.Move(c, Idle)
  }

  /** The server runs a commit request, whenever and however often the network delivers it. */
  function Serve(g: Setting, w: World, t: Attempt): World {
    var outcome := TryCommit(g.k, g.key, w.db, t.previous, t.current);
    if outcome.Applied?
    then w.(db := outcome.db, history := w.history + [t.current], commands := w.commands + [t.command])
    else w
  }

  /** The reply reaches a client that still waits for it, or is lost. */
  function Answer(w: World, t: Attempt, reply: Option<nat>, outcome: Outcome): World {
    if reply.None? || w.PhaseOf(reply.value) != Ready(t) then w
    else w.Move(reply.value, match outcome
                             case Applied(_) => Done(t)
                             case Missed => Rechecking(t)
                             case Refused(e) => Failed(e))
  }

  function Perform(g: Setting, w: World, actions: seq<Action>): World
    requires g.cfg.Valid()
  {
    if actions == [] then w else Act(g, Perform(g, w, actions[..|actions| - 1]), actions[|actions| - 1])
  }

  // ----- The invariant -----

  /** Exactly the rows 1 to n, holding exactly these operations. */
  ghost predicate RowsHold(k: Codes, rows: map<nat, OpRow>, ops: seq<Operation>) {
    && (forall q :: q in rows <==> 1 <= q <= |ops|)
    && (forall q :: q in rows ==> rows[q] == OpRowOf(k, ops[q - 1]))
  }

  /** Each checkpoint is what a command made of the one before it. */
  ghost predicate Chained(g: Setting, history: seq<Session>, commands: seq<Command>)
    requires g.cfg.Valid()
  {
    && |history| == |commands| + 1
    && Initial(history[0]) && KeyOf(history[0]) == g.key && CommandsValid(commands)
    && (forall i :: 0 <= i < |commands| ==>
          Apply(g.k.h, g.cfg, history[i], commands[i]) == Ok(history[i + 1]) && history[i + 1] != history[i])
  }

  ghost predicate Stored(g: Setting, w: World)
    requires g.cfg.Valid()
  {
    if w.history == [] then w.db == Db(None, map[]) && w.commands == []
    else
      var last := w.history[|w.history| - 1];
      && Chained(g, w.history, w.commands)
      && w.db.checkpoint == Some(RowOf(g.k, last))
      && RowsHold(g.k, w.db.rows, last.operations)
  }

  ghost predicate Decided(g: Setting, history: seq<Session>, t: Attempt)
    requires g.cfg.Valid()
  {
    && t.previous in history && t.command.Valid()
    && Apply(g.k.h, g.cfg, t.previous, t.command) == Ok(t.current) && t.current != t.previous
  }

  ghost predicate Once(g: Setting, history: seq<Session>, row: Row) {
    row.session in history && row == RowOf(g.k, row.session)
  }

  /** Some decided transition holds two operations with the same digest. */
  ghost predicate Collision(g: Setting, history: seq<Session>)
    requires g.cfg.Valid()
  {
    exists t :: Decided(g, history, t) && !g.k.TellsApart(t.current.operations)
  }

  /** What is known of a client. The only failures are a conflict and a refused insert, and the
      latter only when two operations share a digest. */
  ghost predicate PhaseFine(g: Setting, history: seq<Session>, p: Phase)
    requires g.cfg.Valid()
  {
    match p
    case Idle => true
    case Reading(command, seen) => command.Valid() && Once(g, history, seen)
    case Loaded(command, previous) => command.Valid() && previous in history
    case Ready(t) => Decided(g, history, t)
    case Rechecking(t) => Decided(g, history, t)
    case Rereading(t, seen) => Decided(g, history, t) && Once(g, history, seen)
    case Done(t) => Decided(g, history, t) && t.current in history
    case Failed(e) => e == CasConflict || (e == UniqueViolation && Collision(g, history))
  }

  ghost predicate Inv(g: Setting, w: World)
    requires g.cfg.Valid()
  {
    && Stored(g, w)
    && (forall c :: c in w.clients ==> PhaseFine(g, w.history, w.clients[c]))
    && (forall i :: 0 <= i < |w.sent| ==> Decided(g, w.history, w.sent[i]))
  }

  // ----- Facts of a chain -----

  /** Linearizability of the chain: every checkpoint is the sequential run of the commands before it,
      from the initial session; its revision is its position. */
  lemma {:induction false} ChainIsRun(g: Setting, history: seq<Session>, commands: seq<Command>, i: nat)
    requires g.cfg.Valid() && Chained(g, history, commands) && i < |history|
    ensures history[i] == Run(g.k.h, g.cfg, history[0], commands[..i])
    ensures Healthy(g.k.h, g.cfg, history[i]) && history[i].Ground() == history[0].Ground()
    ensures history[i].revision == i
  {
    hide Apply, Initial, Healthy;
    assert CommandsValid(commands[..i]);
    RunHealthy(g.k.h, g.cfg, history[0], commands[..i]);
    if i == 0 {
      InitialRevision(history[0]);
    } else {
      ChainIsRun(g, history, commands, i - 1);
      assert commands[..i][..i - 1] == commands[..i - 1];
      assert Apply(g.k.h, g.cfg, history[i - 1], commands[i - 1]) == Ok(history[i]);
      ApplyExtends(g.k.h, g.cfg, history[i - 1], commands[i - 1]);
    }
  }

  lemma InitialRevision(s: Session)
    requires Initial(s)
    ensures s.revision == 0 && s.operations == []
  {}

  /** Committed histories form one chain of prefixes. */
  lemma {:induction false} ChainPrefixes(g: Setting, history: seq<Session>, commands: seq<Command>, i: nat, j: nat)
    requires g.cfg.Valid() && Chained(g, history, commands) && i <= j < |history|
    ensures Extends(history[i], history[j])
    decreases j
  {
    hide Apply, Initial, Extends;
    if i == j {
      SelfExtends(history[i]);
    } else {
      ChainPrefixes(g, history, commands, i, j - 1);
      assert Apply(g.k.h, g.cfg, history[j - 1], commands[j - 1]) == Ok(history[j]);
      ApplyExtends(g.k.h, g.cfg, history[j - 1], commands[j - 1]);
      ExtendsTwice(history[i], history[j - 1], history[j]);
    }
  }

  // ----- Loads -----

  lemma {:induction false} SelectFacts(k: Codes, rows: map<nat, OpRow>, ops: seq<Operation>, n: nat)
    requires RowsHold(k, rows, ops) && n <= |ops|
    ensures |SelectRows(rows, n)| == n
    ensures forall i :: 0 <= i < n ==> SelectRows(rows, n)[i] == Record(i + 1, OpRowOf(k, ops[i]))
  {
    if n > 0 { SelectFacts(k, rows, ops, n - 1); }
  }

  /** A load whose two reads straddle any number of commits still succeeds, and returns the session
      that was committed at its first read. */
  lemma {:induction false} LoadSucceeds(g: Setting, w: World, row: Row)
    requires g.cfg.Valid() && Stored(g, w) && w.history != [] && Once(g, w.history, row)
    ensures ReadLog(g.k, g.key, row, w.db.rows) == Ok(row.session)
  {
    hide Chained, Sound, RowsHold, SelectRows, Extends;
    var i :| 0 <= i < |w.history| && w.history[i] == row.session;
    var last := w.history[|w.history| - 1];
    ChainIsRun(g, w.history, w.commands, i);
    ChainKey(g, w.history, w.commands, i);
    ChainPrefixes(g, w.history, w.commands, i, |w.history| - 1);
    PrefixIndexes(row.session, last);
    SelectFacts(g.k, w.db.rows, last.operations, |row.session.operations|);
  }

  lemma PrefixIndexes(s: Session, n: Session)
    requires Extends(s, n)
    ensures |s.operations| <= |n.operations|
    ensures forall i :: 0 <= i < |s.operations| ==> s.operations[i] == n.operations[i]
  {
    assert forall i :: 0 <= i < |s.operations| ==> n.operations[..|s.operations|][i] == n.operations[i];
  }

  lemma {:induction false} ChainKey(g: Setting, history: seq<Session>, commands: seq<Command>, i: nat)
    requires g.cfg.Valid() && Chained(g, history, commands) && i < |history|
    ensures KeyOf(history[i]) == g.key
  {
    hide Apply, Initial, Healthy;
    ChainIsRun(g, history, commands, i);
    assert history[i].Ground().tradeDate == history[0].Ground().tradeDate;
    assert history[i].Ground().account == history[0].Ground().account;
  }

  // ----- Commits -----

  /** A decided transition always passes the checks that precede the compare-and-swap. */
  lemma {:induction false} AttemptFine(g: Setting, history: seq<Session>, commands: seq<Command>, t: Attempt)
    requires g.cfg.Valid() && Chained(g, history, commands) && Decided(g, history, t)
    ensures CommitError(g.k, g.key, t.previous, t.current) == None
    ensures exists i :: 0 <= i < |history| && history[i] == t.previous && i == t.previous.revision
    ensures NoRepeats(t.current.operations) && Extends(t.previous, t.current)
  {
    hide Apply, Initial, ReplayAll, NoRepeats;
    var i :| 0 <= i < |history| && history[i] == t.previous;
    var longer, more := history[..i + 1] + [t.current], commands[..i] + [t.command];
    ChainGrows(g, history[..i + 1], commands[..i], t);
    ChainIsRun(g, history, commands, i);
    ChainIsRun(g, longer, more, i + 1);
    ChainKey(g, history, commands, i);
    ChainKey(g, longer, more, i + 1);
    ApplyExtends(g.k.h, g.cfg, t.previous, t.command);
    SameParts(t.previous, t.current);
    ReplayNoRepeats(g.k.h, t.current.Ground(), t.current.operations);
  }

  lemma SameParts(a: Session, b: Session)
    requires a.Ground() == b.Ground()
    ensures a.account == b.account && a.costs == b.costs
  {}

  lemma ChainGrows(g: Setting, history: seq<Session>, commands: seq<Command>, t: Attempt)
    requires g.cfg.Valid() && |history| == |commands| + 1 && Chained(g, history, commands)
    requires t.previous == history[|history| - 1] && Decided(g, history, t)
    ensures Chained(g, history + [t.current], commands + [t.command])
  {
    hide Apply, Initial;
    var longer, more := history + [t.current], commands + [t.command];
    forall i | 0 <= i < |more| ensures Apply(g.k.h, g.cfg, longer[i], more[i]) == Ok(longer[i + 1]) && longer[i + 1] != longer[i] {
      if i < |commands| { assert longer[i] == history[i] && longer[i + 1] == history[i + 1] && more[i] == commands[i]; }
    }
  }

  lemma {:induction false} InsertFacts(k: Codes, rows: map<nat, OpRow>, base: seq<Operation>, added: seq<Operation>)
    requires RowsHold(k, rows, base) && NoRepeats(base + added)
    ensures InsertRows(k, rows, |base|, added).Ok? ==> RowsHold(k, InsertRows(k, rows, |base|, added).value, base + added)
    ensures k.TellsApart(base + added) ==> InsertRows(k, rows, |base|, added).Ok?
    ensures InsertRows(k, rows, |base|, added).Err? ==> InsertRows(k, rows, |base|, added).error == UniqueViolation
  {
    if added == [] {
      assert base + added == base;
    } else {
      var front, last := added[..|added| - 1], added[|added| - 1];
      var all := base + front;
      assert base + added == all + [last];
      assert forall i :: 0 <= i < |all| ==> all[i] == (base + added)[i];
      InsertFacts(k, rows, base, front);
      if InsertRows(k, rows, |base|, front).Ok? {
        InsertOne(k, InsertRows(k, rows, |base|, front).value, all, last);
      }
    }
  }

  lemma InsertOne(k: Codes, rows: map<nat, OpRow>, ops: seq<Operation>, op: Operation)
    requires RowsHold(k, rows, ops) && NoRepeats(ops + [op])
    ensures RowsHold(k, rows[|ops| + 1 := OpRowOf(k, op)], ops + [op])
    ensures k.TellsApart(ops + [op]) ==> !PaperRepository.Taken(k, rows, |ops| + 1, op)
  {
    var n := rows[|ops| + 1 := OpRowOf(k, op)];
    forall q | q in n ensures n[q] == OpRowOf(k, (ops + [op])[q - 1]) {
      assert q in rows || q == |ops| + 1;
    }
    if k.TellsApart(ops + [op]) {
      forall q | q in rows ensures rows[q].sha != k.op(op) {
        assert (ops + [op])[q - 1] != (ops + [op])[|ops|];
      }
    }
  }

  /** The compare-and-swap succeeds exactly when the attempt's base is still the last checkpoint. */
  lemma {:induction false} ServeOutcome(g: Setting, w: World, t: Attempt)
    requires g.cfg.Valid() && Stored(g, w) && Decided(g, w.history, t)
    ensures var outcome := TryCommit(g.k, g.key, w.db, t.previous, t.current);
            && (outcome.Refused? ==> outcome.error == UniqueViolation && !g.k.TellsApart(t.current.operations))
            && (outcome.Missed? <==> t.previous != w.history[|w.history| - 1])
            && (outcome.Applied? ==> Stored(g, Serve(g, w, t)))
  {
    hide Apply, Chained, CommitError, InsertRows, RowsHold, NoRepeats, Decided;
    assert w.history != [] by { HasHistory(g, w.history, t); }
    var last := w.history[|w.history| - 1];
    AttemptFine(g, w.history, w.commands, t);
    ChainIsRun(g, w.history, w.commands, |w.history| - 1);
    if t.previous == last {
      var added := t.current.operations[|last.operations|..];
      assert last.operations + added == t.current.operations;
      InsertFacts(g.k, w.db.rows, last.operations, added);
      ChainLength(g, w.history, w.commands);
      ChainGrows(g, w.history, w.commands, t);
    }
  }

  lemma ChainLength(g: Setting, history: seq<Session>, commands: seq<Command>)
    requires g.cfg.Valid() && Chained(g, history, commands)
    ensures |history| == |commands| + 1
  {}

  lemma HasHistory(g: Setting, history: seq<Session>, t: Attempt)
    requires g.cfg.Valid() && Decided(g, history, t)
    ensures history != []
  {}

  lemma FineGrows(g: Setting, history: seq<Session>, s: Session)
    requires g.cfg.Valid()
    ensures forall p :: PhaseFine(g, history, p) ==> PhaseFine(g, history + [s], p)
    ensures forall t :: Decided(g, history, t) ==> Decided(g, history + [s], t)
  {
    hide Apply, Command.Valid;
    forall t | Decided(g, history, t) ensures Decided(g, history + [s], t) {}
    if Collision(g, history) {
      var t :| Decided(g, history, t) && !g.k.TellsApart(t.current.operations);
      assert Decided(g, history + [s], t);
    }
    hide Decided, Collision;
  }

  lemma MoveKeeps(g: Setting, w: World, c: nat, p: Phase)
    requires g.cfg.Valid() && Inv(g, w) && PhaseFine(g, w.history, p)
    ensures Inv(g, w.Move(c, p))
  {
    hide PhaseFine, Decided, Chained, RowsHold;
  }

  lemma {:induction false} ExecuteKeeps(g: Setting, w: World, n: nat, reply: Option<nat>)
    requires g.cfg.Valid() && Inv(g, w) && n < |w.sent|
    ensures Inv(g, Act(g, w, Execute(n, reply)))
  {
    hide Apply, Decided, PhaseFine, Stored, TryCommit;
    var t := w.sent[n];
    ServeOutcome(g, w, t);
    var outcome := TryCommit(g.k, g.key, w.db, t.previous, t.current);
    var served := Serve(g, w, t);
    FineGrows(g, w.history, t.current);
    assert Inv(g, served);
    if reply.Some? && served.PhaseOf(reply.value) == Ready(t) {
      AnswerFine(g, served.history, t, outcome);
      var p := if outcome.Applied? then Done(t) else if outcome.Missed? then Rechecking(t) else Failed(outcome.error);
      MoveKeeps(g, served, reply.value, p);
    }
  }

  lemma AnswerFine(g: Setting, history: seq<Session>, t: Attempt, outcome: Outcome)
    requires g.cfg.Valid() && Decided(g, history, t)
    requires outcome.Refused? ==> outcome.error == UniqueViolation && !g.k.TellsApart(t.current.operations)
    requires outcome.Applied? ==> t.current in history
    ensures PhaseFine(g, history, if outcome.Applied? then Done(t) else if outcome.Missed? then Rechecking(t) else Failed(outcome.error))
  {
    hide Decided;
  }

  lemma {:induction false} InitializeKeeps(g: Setting, w: World, s: Session)
    requires g.cfg.Valid() && Inv(g, w)
    ensures Inv(g, Act(g, w, Action.Initialize(s)))
  {
    hide Apply, Decided, TryCommit;
    if InitialError(g.k, g.key, s).None? && w.db.checkpoint.None? {
      assert w.history == [];
      SoundMeansInitial(g.k.h, s);
      forall c | c in w.clients ensures PhaseFine(g, [s], w.clients[c]) {
        StillFine(g, s, w.clients[c]);
      }
      forall i | 0 <= i < |w.sent| ensures Decided(g, [s], w.sent[i]) {
        FineGrows(g, [], s);
        assert [] + [s] == [s];
      }
    }
  }

  lemma StillFine(g: Setting, s: Session, p: Phase)
    requires g.cfg.Valid() && PhaseFine(g, [], p)
    ensures PhaseFine(g, [s], p)
  {
    FineGrows(g, [], s);
    assert [] + [s] == [s];
  }

  lemma SoundMeansInitial(h: Digests, s: Session)
    requires Sound(h, s) && s.revision == 0 && s.operations == [] && s.markets == []
    ensures Initial(s)
  {}

  lemma {:induction false} ReadKeeps(g: Setting, w: World, a: Action)
    requires g.cfg.Valid() && Inv(g, w) && !a.Initialize? && !a.Execute? && !a.Send?
    ensures Inv(g, Act(g, w, a))
  {
    hide Apply, Decided, Inv, RowsHold, Chained, ReadLog, Command.Valid;
    var p := w.PhaseOf(a.client);
    PhaseKnown(g, w, a.client);
    match a
    case SelectCheckpoint(c, command) =>
      if p.Idle? && command.Valid() && w.db.checkpoint.Some? {
        MoveKeeps(g, w, c, Reading(command, w.db.checkpoint.value));
      }
    case SelectOperations(c) =>
      if p.Reading? {
        LoadSucceeds(g, w, p.seen);
        MoveKeeps(g, w, c, Loaded(p.command, p.seen.session));
      }
    case Decide(c) =>
      if p.Loaded? {
        DecideKeeps(g, w, c, p.command, p.previous);
      }
    case ReselectCheckpoint(c) =>
      if p.Rechecking? && w.db.checkpoint.Some? {
        MoveKeeps(g, w, c, Rereading(p.attempt, w.db.checkpoint.value));
      }
    case ReselectOperations(c) =>
      if p.Rereading? {
        LoadSucceeds(g, w, p.seen);
        MoveKeeps(g, w, c, if p.seen.session == p.attempt.current then Done(p.attempt) else Failed(CasConflict));
      }
    case Crash(c) => MoveKeeps(g, w, c, Idle);
  }

  lemma PhaseKnown(g: Setting, w: World, c: nat)
    requires g.cfg.Valid() && Inv(g, w)
    ensures Stored(g, w) && PhaseFine(g, w.history, w.PhaseOf(c))
  {
    hide Decided, Stored;
  }

  lemma {:induction false} DecideKeeps(g: Setting, w: World, c: nat, command: Command, previous: Session)
    requires g.cfg.Valid() && Inv(g, w) && previous in w.history && command.Valid()
    ensures var r := Apply(g.k.h, g.cfg, previous, command);
            Inv(g, w.Move(c, if r.Err? || r.value == previous then Idle else Ready(Attempt(command, previous, r.value))))
  {
    hide Apply, Inv;
    var r := Apply(g.k.h, g.cfg, previous, command);
    MoveKeeps(g, w, c, if r.Err? || r.value == previous then Idle else Ready(Attempt(command, previous, r.value)));
  }

  lemma {:induction false} SendKeeps(g: Setting, w: World, c: nat)
    requires g.cfg.Valid() && Inv(g, w)
    ensures Inv(g, Act(g, w, Send(c)))
  {
    hide Apply, Decided, Chained, RowsHold;
    PhaseKnown(g, w, c);
  }

  lemma {:induction false} ActKeeps(g: Setting, w: World, a: Action)
    requires g.cfg.Valid() && Inv(g, w)
    ensures Inv(g, Act(g, w, a))
  {
    hide Inv;
    match a
    case Initialize(s) => InitializeKeeps(g, w, s);
    case Execute(n, reply) => if n < |w.sent| { ExecuteKeeps(g, w, n, reply); }
    case Send(c) => SendKeeps(g, w, c);
    case _ => ReadKeeps(g, w, a);
  }

  // ----- Theorems: every interleaving -----

  /** Whatever the clients, the network and the crashes do, the invariant holds. */
  lemma {:induction false} EveryInterleaving(g: Setting, actions: seq<Action>)
    requires g.cfg.Valid()
    ensures Inv(g, Perform(g, EMPTY, actions))
  {
    hide Act, Inv;
    if actions == [] {
      EmptyInv(g);
    } else {
      EveryInterleaving(g, actions[..|actions| - 1]);
      ActKeeps(g, Perform(g, EMPTY, actions[..|actions| - 1]), actions[|actions| - 1]);
    }
  }

  lemma EmptyInv(g: Setting)
    requires g.cfg.Valid()
    ensures Inv(g, EMPTY)
  {}

  /** At every moment the operation rows are exactly the checkpoint's operations, no operation is
      stored twice, no arbitration has two entries, the checkpoint is the sequential run of the
      committed commands, and its cash and shares balance. */
  lemma {:induction false} StoredState(g: Setting, actions: seq<Action>)
    requires g.cfg.Valid() && Perform(g, EMPTY, actions).db.checkpoint.Some?
    ensures var w := Perform(g, EMPTY, actions);
            var s := w.db.checkpoint.value.session;
            && RowsHold(g.k, w.db.rows, s.operations) && NoRepeats(s.operations) && SingleEntries(s.operations)
            && w.history != [] && Initial(w.history[0]) && s == Run(g.k.h, g.cfg, w.history[0], w.commands)
            && Balanced(g.k.h, s.Ground(), s.operations, s.ledger)
  {
    hide Act, Apply, RowsHold, Initial, Perform, Run, NoRepeats, SingleEntries, Balanced, ReplayAll, Reconcile;
    EveryInterleaving(g, actions);
    var w := Perform(g, EMPTY, actions);
    var s := w.db.checkpoint.value.session;
    ChainIsRun(g, w.history, w.commands, |w.history| - 1);
    assert w.commands[..|w.commands|] == w.commands;
    SoundReplays(g.k.h, s);
    ReplayNoRepeats(g.k.h, s.Ground(), s.operations);
    ReplayEntries(g.k.h, s.Ground(), s.operations);
    AcceptedLogBalances(g.k.h, s.Ground(), s.operations);
  }

  lemma SoundReplays(h: Digests, s: Session)
    requires Sound(h, s)
    ensures s.Ground().Valid() && AllOpsValid(s.operations)
    ensures ReplayAll(h, s.Ground(), s.operations).Ok? && ReplayAll(h, s.Ground(), s.operations).value.ledger == s.ledger
  {
    hide ReplayAll;
  }

  /** The committed histories form one chain of prefixes with one session per revision. */
  lemma {:induction false} OneChain(g: Setting, actions: seq<Action>, i: nat, j: nat)
    requires g.cfg.Valid() && i <= j < |Perform(g, EMPTY, actions).history|
    ensures var history := Perform(g, EMPTY, actions).history;
            history[i].revision == i && history[j].revision == j && Extends(history[i], history[j])
  {
    hide Act, Chained, RowsHold, Perform, Extends, Run, Healthy;
    EveryInterleaving(g, actions);
    var w := Perform(g, EMPTY, actions);
    ChainIsRun(g, w.history, w.commands, i);
    ChainIsRun(g, w.history, w.commands, j);
    ChainPrefixes(g, w.history, w.commands, i, j);
  }

  predicate Grown(a: seq<Session>, b: seq<Session>) {
    |a| <= |b| && forall i :: 0 <= i < |a| ==> a[i] == b[i]
  }

  lemma {:induction false} ActGrows(g: Setting, w: World, a: Action)
    requires g.cfg.Valid() && Inv(g, w)
    ensures Grown(w.history, Act(g, w, a).history)
  {
    hide Apply, Chained, RowsHold, Decided, PhaseFine, TryCommit, ReadLog;
  }

  /** No committed checkpoint is ever lost. */
  lemma {:induction false} HistoryOnlyGrows(g: Setting, actions: seq<Action>, later: seq<Action>)
    requires g.cfg.Valid()
    ensures Grown(Perform(g, EMPTY, actions).history, Perform(g, EMPTY, actions + later).history)
    decreases |later|
  {
    hide Act, Inv;
    if later == [] {
      assert actions + later == actions;
    } else {
      var front, last := later[..|later| - 1], later[|later| - 1];
      HistoryOnlyGrows(g, actions, front);
      assert (actions + later)[..|actions + later| - 1] == actions + front;
      EveryInterleaving(g, actions + front);
      ActGrows(g, Perform(g, EMPTY, actions + front), last);
    }
  }

  /** A load that reads the checkpoint now and the operation rows after any further steps returns the
      checkpoint it read. */
  lemma {:induction false} StraddlingLoad(g: Setting, actions: seq<Action>, later: seq<Action>)
    requires g.cfg.Valid() && Perform(g, EMPTY, actions).db.checkpoint.Some?
    ensures var row := Perform(g, EMPTY, actions).db.checkpoint.value;
            ReadLog(g.k, g.key, row, Perform(g, EMPTY, actions + later).db.rows) == Ok(row.session)
  {
    hide Act, Perform, Chained, RowsHold, Decided, PhaseFine, ReadLog;
    EveryInterleaving(g, actions);
    EveryInterleaving(g, actions + later);
    HistoryOnlyGrows(g, actions, later);
    var before, after := Perform(g, EMPTY, actions), Perform(g, EMPTY, actions + later);
    assert before.history[|before.history| - 1] == after.history[|before.history| - 1];
    LoadSucceeds(g, after, before.db.checkpoint.value);
  }

  /** Retries are safe: once an attempt's result is in the history, running its request again, however
      late, changes nothing. */
  lemma {:induction false} CommittedOnce(g: Setting, w: World, t: Attempt)
    requires g.cfg.Valid() && Inv(g, w) && t in w.sent && t.current in w.history
    ensures Serve(g, w, t) == w
  {
    hide Apply, Chained, RowsHold, PhaseFine, TryCommit, Run, Healthy, Command.Valid;
    assert Decided(g, w.history, t);
    ServeOutcome(g, w, t);
    var i :| 0 <= i < |w.history| && w.history[i] == t.current;
    ApplyExtends(g.k.h, g.cfg, t.previous, t.command);
    ChainIsRun(g, w.history, w.commands, i);
    ChainIsRun(g, w.history, w.commands, |w.history| - 1);
  }

  /** A client that is told its commit succeeded is right, for ever. */
  lemma {:induction false} AcknowledgedIsDurable(g: Setting, actions: seq<Action>, later: seq<Action>, c: nat)
    requires g.cfg.Valid() && Perform(g, EMPTY, actions).PhaseOf(c).Done?
    ensures Perform(g, EMPTY, actions).PhaseOf(c).attempt.current in Perform(g, EMPTY, actions + later).history
  {
    hide Act, Perform, Stored, Decided;
    EveryInterleaving(g, actions);
    HistoryOnlyGrows(g, actions, later);
    var before := Perform(g, EMPTY, actions);
    PhaseKnown(g, before, c);
    var i :| 0 <= i < |before.history| && before.history[i] == before.PhaseOf(c).attempt.current;
  }
}
