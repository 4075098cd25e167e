/** Any number of dispatchers over one delivery store, crashing wherever they like. */
module DeliveryProtocol {
  import opened Prelude
  import opened DeliveryStore

  datatype SendResult = Delivered(message: Ident) | RateLimited(delay: int) | Rejected(code: string) | Uncertain(code: string)

  datatype Phase =
    | Resting
    | Holding(claim: Claim)
    | Cleared(claim: Claim)
    | Reporting(claim: Claim, report: Report)
  {
    predicate Holds(token: Token) { !Resting? && claim.token == token }
  }

  datatype Issue = Issue(id: Digest, attempt: nat)
  datatype Transmission = Transmission(token: Token, result: SendResult)

  /** `issued` (indexed by token), `released` and `sends` only record: the claims handed out, the claims
      given back for another try, and every message put on the wire. */
  datatype World = World(store: Store, phases: map<nat, Phase>, issued: seq<Issue>, released: set<Token>, sends: seq<Transmission>)
  {
    function PhaseOf(d: nat): Phase { if d in phases then phases[d] else Resting }

    function Move(d: nat, p: Phase): World { this.(phases := phases[d := p]) }
  }

  const EMPTY := World(Store(map[], Control(None, None)), map[], [], {}, [])

  datatype Action =
    | Put(selection: Selection, lifetime: int, now: Instant)
    | Disconnect(at: Instant)
    | Grab(dispatcher: nat, pick: Option<Digest>, lease: int, first: Instant, second: Instant, third: Instant)
    | Check(dispatcher: nat, readable: bool, timeout: int, checkedAt: Instant, elapsed: nat)
    | Transmit(dispatcher: nat, result: SendResult)
    | Complete(dispatcher: nat, first: Instant, second: Instant, acknowledged: bool)
    | Crash(dispatcher: nat)

  function Verdict(readable: bool, allowed: bool, c: Claim, maximum: nat): Phase {
    if !readable then Reporting(c, Report(Failed, Some("INVALID_PAYLOAD"), None, 0))
    else if !allowed then Reporting(c, Report(Expired, Some("INELIGIBLE_SEND_WINDOW"), None, 0))
    else if c.attempts > maximum then Reporting(c, Report(Failed, Some("ATTEMPT_LIMIT"), None, 0))
    else Cleared(c)
  }

  function ReportOf(result: SendResult, c: Claim, maximum: nat): Report {
    match result
    case Delivered(m) => Report(Sent, None, Some(m), 0)
    case RateLimited(delay) =>
      Report(if c.attempts >= maximum then Failed else Pending, Some("RATE_LIMIT"), None, Max(delay, SECOND))
    case Rejected(code) => Report(Failed, Some(code), None, 0)
    case Uncertain(code) => Report(Unknown, Some(code), None, 0)
  }

  /** One atomic step of one process. A step that is not enabled changes nothing. */
  function Act(maximum: nat, w: World, a: Action): World {
    match a
    case Put(s, lifetime, now) =>
      var n := Enqueue(w.store, s, lifetime, now);
      if n.Ok? then w.(store := n.value) else w
    case Disconnect(at) => w.(store := Invalidate(w.store, at))
    case Grab(d, pick, lease, first, second, third) =>
      var swept := Swept(w.store, first, second);
      if !w.PhaseOf(d).Resting? || lease <= 0 || !Picked(swept, pick, third) then w
      else if pick.None? then w.(store := swept)
      else
        var token := |w.issued|;
        var claim := ClaimOf(swept, pick, token).value;
        w.(store := Take(swept, pick, token, lease, third), issued := w.issued + [Issue(claim.id, claim.attempts)])
        .Move(d, Holding(claim))
    case Check(d, readable, timeout, now, elapsed) =>
      var p := w.PhaseOf(d);
      if !p.Holding? then w
      else w.Move(d, Verdict(readable, MaySend(w.store, p.claim, timeout, now, elapsed), p.claim, maximum))
    case Transmit(d, result) =>
      var p := w.PhaseOf(d);
      if !p.Cleared? then w
      else w.(sends := w.sends + [Transmission(p.claim.token, result)]).Move(d, Reporting(p.claim, ReportOf(result, p.claim, maximum)))
    case Complete(d, first, second, acknowledged) =>
      var p := w.PhaseOf(d);
      if !p.Reporting? then w
      else
        var n := Finish(w.store, p.claim, p.report, first, second);
        var settled := if n.Err? then w
                       else w.(store := n.value, released := if p.report.state.Pending? then w.released + {p.claim.token} else w.released);
        if acknowledged then settled.Move(d, Resting) else settled
    case Crash(d) => w.Move(d, Resting)
  }

  function Perform(maximum: nat, w: World, actions: seq<Action>): World {
    if actions == [] then w else Act(maximum, Perform(maximum, w, actions[..|actions| - 1]), actions[|actions| - 1])
  }

  // ----- The invariant -----

  /** The lease of a row is the claim last issued for it. */
  ghost predicate LeasesIssued(w: World) {
    forall id :: id in w.store.rows && w.store.rows[id].lease.Some? ==>
      var token := w.store.rows[id].lease.value.token;
      token < |w.issued| && w.issued[token] == Issue(id, w.store.rows[id].attempts) && token !in w.released
  }

  ghost predicate NumberFine(w: World, t: Token)
    requires t < |w.issued| && w.issued[t].id in w.store.rows
  {
    var issue, d := w.issued[t], w.store.rows[w.issued[t].id];
    1 <= issue.attempt <= d.attempts && (issue.attempt < d.attempts || d.state.Pending? ==> t in w.released)
  }

  /** Claims of one row are numbered upwards, and all but possibly the last were given back. */
  ghost predicate ClaimsNumbered(w: World) {
    && (forall t :: 0 <= t < |w.issued| ==> w.issued[t].id in w.store.rows && NumberFine(w, t))
    && (forall t, u :: 0 <= t < u < |w.issued| && w.issued[t].id == w.issued[u].id ==> w.issued[t].attempt < w.issued[u].attempt)
  }

  ghost predicate PhaseFine(maximum: nat, w: World, p: Phase) {
    p.Resting? ||
    (&& p.claim.token < |w.issued| && w.issued[p.claim.token] == Issue(p.claim.id, p.claim.attempts)
     && (p.Reporting? ==> !p.report.state.Sending?)
     && (p.Cleared? ==> p.claim.attempts <= maximum)
     && (!p.Reporting? ==> p.claim.token !in w.released && forall i :: 0 <= i < |w.sends| ==> w.sends[i].token != p.claim.token)
     && (p.Reporting? && p.report.state.Pending? ==>
           forall i :: 0 <= i < |w.sends| && w.sends[i].token == p.claim.token ==> w.sends[i].result.RateLimited?))
  }

  ghost predicate OneHolder(w: World) {
    forall d, e, t :: d in w.phases && e in w.phases && w.phases[d].Holds(t) && w.phases[e].Holds(t) ==> d == e
  }

  ghost predicate SendsFine(maximum: nat, w: World) {
    && (forall i :: 0 <= i < |w.sends| ==>
          && w.sends[i].token < |w.issued| && w.issued[w.sends[i].token].attempt <= maximum
          && (w.sends[i].token in w.released ==> w.sends[i].result.RateLimited?))
    && (forall i, j :: 0 <= i < j < |w.sends| ==> w.sends[i].token != w.sends[j].token)
  }

  ghost predicate Inv(maximum: nat, w: World) {
    && Kept(w.store) && LeasesIssued(w) && ClaimsNumbered(w) && OneHolder(w) && SendsFine(maximum, w)
    && (forall d :: d in w.phases ==> PhaseFine(maximum, w, w.phases[d]))
    && (forall t :: t in w.released ==> t < |w.issued|)
  }

  // ----- Steps -----

  /** A store whose rows keep their numbering: nothing becomes pending and no lease is granted. */
  ghost predicate Quieter(st: Store, n: Store) {
    && (forall id :: id in st.rows ==>
          && id in n.rows && n.rows[id].attempts == st.rows[id].attempts
          && (n.rows[id].state.Pending? ==> st.rows[id].state.Pending?)
          && (n.rows[id].lease.Some? ==> n.rows[id].lease == st.rows[id].lease))
    && (forall id :: id in n.rows && id !in st.rows ==> n.rows[id].lease.None?)
  }

  lemma QuietKeeps(maximum: nat, w: World, n: Store)
    requires Inv(maximum, w) && Kept(n) && Quieter(w.store, n)
    ensures Inv(maximum, w.(store := n))
  {
    hide Kept, PhaseFine, OneHolder, SendsFine;
    PhasesIgnoreStore(maximum, w, n);
  }

  lemma PhasesIgnoreStore(maximum: nat, w: World, n: Store)
    ensures forall p :: PhaseFine(maximum, w, p) ==> PhaseFine(maximum, w.(store := n), p)
    ensures OneHolder(w) ==> OneHolder(w.(store := n))
    ensures SendsFine(maximum, w) ==> SendsFine(maximum, w.(store := n))
  {}

  lemma StoreSteps(maximum: nat, w: World, a: Action)
    requires Inv(maximum, w) && (a.Put? || a.Disconnect?)
    ensures Inv(maximum, Act(maximum, w, a))
  {
    hide Kept, PhaseFine, OneHolder, SendsFine, LeasesIssued, ClaimsNumbered, Enqueue, Withdrawn;
    match a
    case Put(s, lifetime, now) =>
      if Enqueue(w.store, s, lifetime, now).Ok? {
        EnqueueKeeps(w.store, s, lifetime, now);
        EnqueueQuiet(w.store, s, lifetime, now);
        QuietKeeps(maximum, w, Enqueue(w.store, s, lifetime, now).value);
      }
    case Disconnect(at) =>
      InvalidateKeeps(w.store, at);
      InvalidateQuiet(w.store, at);
      QuietKeeps(maximum, w, Invalidate(w.store, at));
  }

  lemma EnqueueQuiet(st: Store, s: Selection, lifetime: int, now: Instant)
    requires Enqueue(st, s, lifetime, now).Ok?
    ensures Quieter(st, Enqueue(st, s, lifetime, now).value)
  {}

  lemma InvalidateQuiet(st: Store, at: Instant)
    ensures Quieter(st, Invalidate(st, at))
  {}

  lemma SweptQuiet(st: Store, first: Instant, second: Instant)
    requires Kept(st)
    ensures Quieter(st, Swept(st, first, second))
  {
    hide Swept;
    SweptRows(st, first, second);
  }

  lemma MoveKeeps(maximum: nat, w: World, d: nat, p: Phase)
    requires Inv(maximum, w) && PhaseFine(maximum, w, p)
    requires forall t :: p.Holds(t) ==> w.PhaseOf(d).Holds(t)
    ensures Inv(maximum, w.Move(d, p))
  {
    hide Kept, LeasesIssued, ClaimsNumbered, SendsFine;
    var n := w.Move(d, p);
    PhasesIgnorePhases(maximum, w, n);
    forall x | x in n.phases ensures PhaseFine(maximum, n, n.phases[x]) {
      assert x != d ==> x in w.phases && n.phases[x] == w.phases[x];
    }
  }

  lemma PhasesIgnorePhases(maximum: nat, w: World, n: World)
    requires n == w.(phases := n.phases)
    ensures forall p :: PhaseFine(maximum, w, p) ==> PhaseFine(maximum, n, p)
    ensures LeasesIssued(w) ==> LeasesIssued(n)
    ensures ClaimsNumbered(w) ==> ClaimsNumbered(n)
    ensures SendsFine(maximum, w) ==> SendsFine(maximum, n)
  {}

  /** Handing out a claim: all earlier claims of a waiting row were given back. */
  lemma GrabKeeps(maximum: nat, w: World, d: nat, pick: Digest, lease: int, now: Instant)
    requires Inv(maximum, w) && w.PhaseOf(d).Resting? && Picked(w.store, Some(pick), now)
    ensures var claim := ClaimOf(w.store, Some(pick), |w.issued|).value;
            Inv(maximum, w.(store := Take(w.store, Some(pick), |w.issued|, lease, now),
                            issued := w.issued + [Issue(claim.id, claim.attempts)]).Move(d, Holding(claim)))
  {
    hide Kept, OneSending;
    var token := |w.issued|;
    var claim := ClaimOf(w.store, Some(pick), token).value;
    var n := w.(store := Take(w.store, Some(pick), token, lease, now),
                issued := w.issued + [Issue(claim.id, claim.attempts)]).Move(d, Holding(claim));
    assert Kept(n.store) by { TakeKeeps(w.store, Some(pick), token, lease, now); }
    GrabNumbers(w, n, pick, token);
    GrabPhases(maximum, w, n, d, claim);
  }

  lemma GrabNumbers(w: World, n: World, pick: Digest, token: Token)
    requires LeasesIssued(w) && ClaimsNumbered(w) && token == |w.issued| && pick in w.store.rows && w.store.rows[pick].state.Pending?
    requires forall t :: t in w.released ==> t < |w.issued|
    requires n.store.rows.Keys == w.store.rows.Keys && n.released == w.released
    requires n.issued == w.issued + [Issue(pick, w.store.rows[pick].attempts + 1)]
    requires forall id :: id in w.store.rows && id != pick ==> n.store.rows[id] == w.store.rows[id]
    requires n.store.rows[pick].attempts == w.store.rows[pick].attempts + 1 && n.store.rows[pick].state.Sending?
    requires n.store.rows[pick].lease.Some? && n.store.rows[pick].lease.value.token == token
    ensures LeasesIssued(n) && ClaimsNumbered(n)
  {
    assert LeasesIssued(n) by { hide ClaimsNumbered; }
    assert ClaimsNumbered(n) by {
      hide LeasesIssued;
      forall t | 0 <= t < |n.issued|
        ensures n.issued[t].id in n.store.rows && NumberFine(n, t)
      {
        assert t < |w.issued| ==> n.issued[t] == w.issued[t] && NumberFine(w, t);
      }
      forall t, u | 0 <= t < u < |n.issued| && n.issued[t].id == n.issued[u].id ensures n.issued[t].attempt < n.issued[u].attempt {
        assert n.issued[t] == w.issued[t] && NumberFine(w, t);
        assert u < |w.issued| ==> n.issued[u] == w.issued[u];
      }
    }
  }

  lemma GrabPhases(maximum: nat, w: World, n: World, d: nat, claim: Claim)
    requires Inv(maximum, w) && w.PhaseOf(d).Resting? && claim.token == |w.issued|
    requires n.phases == w.phases[d := Holding(claim)] && n.sends == w.sends && n.released == w.released
    requires n.issued == w.issued + [Issue(claim.id, claim.attempts)]
    ensures OneHolder(n) && SendsFine(maximum, n)
    ensures forall x :: x in n.phases ==> PhaseFine(maximum, n, n.phases[x])
  {
    hide Kept, LeasesIssued, ClaimsNumbered;
    forall x | x in n.phases ensures PhaseFine(maximum, n, n.phases[x]) {
      assert x != d ==> PhaseFine(maximum, w, w.phases[x]);
    }
  }

  lemma ClaimStep(maximum: nat, w: World, a: Action)
    requires Inv(maximum, w) && a.Grab?
    ensures Inv(maximum, Act(maximum, w, a))
  {
    hide Kept, PhaseFine, OneHolder, SendsFine, LeasesIssued, ClaimsNumbered, Swept, Picked, Take;
    var swept := Swept(w.store, a.first, a.second);
    if w.PhaseOf(a.dispatcher).Resting? && a.lease > 0 && Picked(swept, a.pick, a.third) {
      SweepKeeps(w.store, a.first, a.second);
      SweptQuiet(w.store, a.first, a.second);
      QuietKeeps(maximum, w, swept);
      if a.pick.Some? {
        GrabKeeps(maximum, w.(store := swept), a.dispatcher, a.pick.value, a.lease, a.third);
      }
    }
  }

  lemma PhaseKnown(maximum: nat, w: World, d: nat)
    requires Inv(maximum, w)
    ensures PhaseFine(maximum, w, w.PhaseOf(d))
  {
    hide Kept, LeasesIssued, ClaimsNumbered, SendsFine, OneHolder;
  }

  lemma TransmitKeeps(maximum: nat, w: World, d: nat, result: SendResult)
    requires Inv(maximum, w) && w.PhaseOf(d).Cleared?
    ensures Inv(maximum, Act(maximum, w, Transmit(d, result)))
  {
    hide Kept, LeasesIssued, ClaimsNumbered;
    var p := w.PhaseOf(d);
    var n := Act(maximum, w, Transmit(d, result));
    assert d in w.phases && w.phases[d].Holds(p.claim.token);
    assert LeasesIssued(n) && ClaimsNumbered(n) by { IgnoreSends(w, n); }
    forall x | x in n.phases ensures PhaseFine(maximum, n, n.phases[x]) {
      assert x in w.phases && PhaseFine(maximum, w, w.phases[x]);
      assert x != d && !w.phases[x].Resting? ==> w.phases[x].Holds(w.phases[x].claim.token);
    }
  }

  lemma IgnoreSends(w: World, n: World)
    requires LeasesIssued(w) && ClaimsNumbered(w) && n == w.(phases := n.phases, sends := n.sends)
    ensures LeasesIssued(n) && ClaimsNumbered(n)
  {}

  lemma FinishEffect(st: Store, c: Claim, r: Report, first: Instant, second: Instant)
    requires !r.state.Sending? && Finish(st, c, r, first, second).Ok?
    ensures var n := Finish(st, c, r, first, second).value;
            && HoldsLease(st, c) && n.rows.Keys == st.rows.Keys
            && (forall id :: id in st.rows && id != c.id ==> n.rows[id] == st.rows[id])
            && n.rows[c.id].lease.None? && n.rows[c.id].attempts == st.rows[c.id].attempts
            && (n.rows[c.id].state.Pending? ==> r.state.Pending?)
  {}

  lemma CompleteNumbers(w: World, n: World, c: Claim, pending: bool)
    requires LeasesIssued(w) && ClaimsNumbered(w) && HoldsLease(w.store, c)
    requires n.issued == w.issued && n.released == if pending then w.released + {c.token} else w.released
    requires n.store.rows.Keys == w.store.rows.Keys
    requires forall id :: id in w.store.rows && id != c.id ==> n.store.rows[id] == w.store.rows[id]
    requires n.store.rows[c.id].lease.None? && n.store.rows[c.id].attempts == w.store.rows[c.id].attempts
    requires n.store.rows[c.id].state.Pending? ==> pending
    ensures LeasesIssued(n) && ClaimsNumbered(n)
  {
    assert LeasesIssued(n) by { hide ClaimsNumbered; }
    assert w.issued[c.token] == Issue(c.id, w.store.rows[c.id].attempts);
    forall t | 0 <= t < |n.issued| ensures n.issued[t].id in n.store.rows && NumberFine(n, t) {
      assert NumberFine(w, t);
      assert t < c.token || t > c.token || t == c.token;
    }
  }

  lemma CompletePhases(maximum: nat, w: World, n: World, d: nat)
    requires Inv(maximum, w) && w.PhaseOf(d).Reporting?
    requires var p := w.PhaseOf(d);
             n == w.(store := n.store, released := if p.report.state.Pending? then w.released + {p.claim.token} else w.released)
    ensures OneHolder(n) && SendsFine(maximum, n)
    ensures forall x :: x in n.phases ==> PhaseFine(maximum, n, n.phases[x])
    ensures forall t :: t in n.released ==> t < |n.issued|
  {
    hide Kept, LeasesIssued, ClaimsNumbered;
    var p := w.PhaseOf(d);
    assert d in w.phases && w.phases[d] == p && p.Holds(p.claim.token);
    forall x | x in n.phases ensures PhaseFine(maximum, n, n.phases[x]) {
      assert PhaseFine(maximum, w, w.phases[x]);
      assert x != d && !w.phases[x].Resting? ==> w.phases[x].Holds(w.phases[x].claim.token);
    }
  }

  lemma CompleteKeeps(maximum: nat, w: World, d: nat, first: Instant, second: Instant)
    requires Inv(maximum, w) && w.PhaseOf(d).Reporting?
    requires Finish(w.store, w.PhaseOf(d).claim, w.PhaseOf(d).report, first, second).Ok?
    ensures var p := w.PhaseOf(d);
            Inv(maximum, w.(store := Finish(w.store, p.claim, p.report, first, second).value,
                            released := if p.report.state.Pending? then w.released + {p.claim.token} else w.released))
  {
    hide Kept, Finish, LeasesIssued, ClaimsNumbered, OneHolder, SendsFine, HoldsLease;
    var p := w.PhaseOf(d);
    var n := w.(store := Finish(w.store, p.claim, p.report, first, second).value,
                released := if p.report.state.Pending? then w.released + {p.claim.token} else w.released);
    PhaseKnown(maximum, w, d);
    FinishKeeps(w.store, p.claim, p.report, first, second);
    FinishEffect(w.store, p.claim, p.report, first, second);
    CompleteNumbers(w, n, p.claim, p.report.state.Pending?);
    CompletePhases(maximum, w, n, d);
  }

  lemma ActKeeps(maximum: nat, w: World, a: Action)
    requires Inv(maximum, w)
    ensures Inv(maximum, Act(maximum, w, a))
  {
    hide Inv, Finish, MaySend;
    match a
    case Put(_, _, _) => StoreSteps(maximum, w, a);
    case Disconnect(_) => StoreSteps(maximum, w, a);
    case Grab(_, _, _, _, _, _) => ClaimStep(maximum, w, a);
    case Check(d, readable, timeout, now, elapsed) =>
      var p := w.PhaseOf(d);
      if p.Holding? {
        PhaseKnown(maximum, w, d);
        MoveKeeps(maximum, w, d, Verdict(readable, MaySend(w.store, p.claim, timeout, now, elapsed), p.claim, maximum));
      }
    case Transmit(d, result) => if w.PhaseOf(d).Cleared? { TransmitKeeps(maximum, w, d, result); }
    case Complete(d, first, second, acknowledged) => CompleteStep(maximum, w, a);
    case Crash(d) => MoveKeeps(maximum, w, d, Resting);
  }

  lemma CompleteStep(maximum: nat, w: World, a: Action)
    requires Inv(maximum, w) && a.Complete?
    ensures Inv(maximum, Act(maximum, w, a))
  {
    hide Inv, Finish, PhaseFine;
    var p := w.PhaseOf(a.dispatcher);
    if p.Reporting? {
      var n := Finish(w.store, p.claim, p.report, a.first, a.second);
      var settled := if n.Err? then w
                     else w.(store := n.value, released := if p.report.state.Pending? then w.released + {p.claim.token} else w.released);
      if n.Ok? { CompleteKeeps(maximum, w, a.dispatcher, a.first, a.second); }
      if a.acknowledged {
        assert PhaseFine(maximum, settled, Resting) by { RestingFine(maximum, settled); }
        MoveKeeps(maximum, settled, a.dispatcher, Resting);
      }
    }
  }

  lemma RestingFine(maximum: nat, w: World)
    ensures PhaseFine(maximum, w, Resting)
  {}

  lemma {:induction false} EveryInterleaving(maximum: nat, actions: seq<Action>)
    ensures Inv(maximum, Perform(maximum, EMPTY, actions))
  {
    hide Act;
    if actions != [] {
      hide Inv;
      EveryInterleaving(maximum, actions[..|actions| - 1]);
      ActKeeps(maximum, Perform(maximum, EMPTY, actions[..|actions| - 1]), actions[|actions| - 1]);
    }
  }

  // ----- Theorems: every interleaving -----

  /** How often a selection was put on the wire. */
  function SendCount(issued: seq<Issue>, sends: seq<Transmission>, id: Digest): nat {
    if sends == [] then 0
    else
      var last := sends[|sends| - 1];
      SendCount(issued, sends[..|sends| - 1], id) + if last.token < |issued| && issued[last.token].id == id then 1 else 0
  }

  /** The attempt numbers of those sends. */
  ghost function AttemptsSent(issued: seq<Issue>, sends: seq<Transmission>, id: Digest): set<nat> {
    if sends == [] then {}
    else
      var last := sends[|sends| - 1];
      AttemptsSent(issued, sends[..|sends| - 1], id)
      + if last.token < |issued| && issued[last.token].id == id then {issued[last.token].attempt} else {}
  }

  lemma {:induction false} AttemptMeans(issued: seq<Issue>, sends: seq<Transmission>, id: Digest, attempt: nat)
    requires attempt in AttemptsSent(issued, sends, id)
    ensures exists i :: 0 <= i < |sends| && sends[i].token < |issued| && issued[sends[i].token] == Issue(id, attempt)
  {
    var front, last := sends[..|sends| - 1], sends[|sends| - 1];
    if attempt in AttemptsSent(issued, front, id) {
      AttemptMeans(issued, front, id, attempt);
      var i :| 0 <= i < |front| && front[i].token < |issued| && issued[front[i].token] == Issue(id, attempt);
      assert sends[i] == front[i];
    }
  }

  lemma {:induction false} CountIsAttempts(issued: seq<Issue>, sends: seq<Transmission>, id: Digest)
    requires forall i :: 0 <= i < |sends| ==> sends[i].token < |issued|
    requires forall i, j :: 0 <= i < j < |sends| ==> sends[i].token != sends[j].token
    requires forall t, u :: 0 <= t < u < |issued| && issued[t].id == issued[u].id ==> issued[t].attempt < issued[u].attempt
    ensures SendCount(issued, sends, id) == |AttemptsSent(issued, sends, id)|
  {
    if sends != [] {
      var front, last := sends[..|sends| - 1], sends[|sends| - 1];
      CountIsAttempts(issued, front, id);
      var attempt := issued[last.token].attempt;
      if issued[last.token].id == id && attempt in AttemptsSent(issued, front, id) {
        AttemptMeans(issued, front, id, attempt);
      }
    }
  }

  lemma {:induction false} FewNumbers(s: set<nat>, n: nat)
    requires forall x :: x in s ==> 1 <= x <= n
    ensures |s| <= n
  {
    if n == 0 {
      assert s == {};
    } else {
      FewNumbers(s - {n}, n - 1);
    }
  }

  /** No selection is sent more than the allowed number of times, whatever crashes. */
  lemma SendsAreBounded(maximum: nat, actions: seq<Action>, id: Digest)
    ensures var w := Perform(maximum, EMPTY, actions); SendCount(w.issued, w.sends, id) <= maximum
  {
    hide Perform, Kept, LeasesIssued, SendCount, AttemptsSent;
    EveryInterleaving(maximum, actions);
    var w := Perform(maximum, EMPTY, actions);
    CountIsAttempts(w.issued, w.sends, id);
    forall x | x in AttemptsSent(w.issued, w.sends, id) ensures 1 <= x <= maximum {
      AttemptMeans(w.issued, w.sends, id, x);
      var i :| 0 <= i < |w.sends| && w.sends[i].token < |w.issued| && w.issued[w.sends[i].token] == Issue(id, x);
      assert NumberFine(w, w.sends[i].token);
    }
    FewNumbers(AttemptsSent(w.issued, w.sends, id), maximum);
  }

  /** Of all sends of a selection, at most one ended otherwise than in a definite rate-limit refusal. */
  lemma OneUncertainSend(maximum: nat, actions: seq<Action>, i: nat, j: nat)
    requires i < j < |Perform(maximum, EMPTY, actions).sends|
    requires var w := Perform(maximum, EMPTY, actions);
             && w.sends[i].token < |w.issued| && w.sends[j].token < |w.issued|
             && w.issued[w.sends[i].token].id == w.issued[w.sends[j].token].id
    ensures var w := Perform(maximum, EMPTY, actions); w.sends[i].result.RateLimited? || w.sends[j].result.RateLimited?
  {
    hide Perform, Kept, LeasesIssued;
    EveryInterleaving(maximum, actions);
    var w := Perform(maximum, EMPTY, actions);
    var t, u := w.sends[i].token, w.sends[j].token;
    assert NumberFine(w, t) && NumberFine(w, u);
    assert t < u || u < t;
  }

  /** At every moment at most one row is being sent, and no waiting row lies at or before the watermark. */
  lemma OneSendingAtATime(maximum: nat, actions: seq<Action>)
    ensures Kept(Perform(maximum, EMPTY, actions).store)
  {
    hide Perform, Kept;
    EveryInterleaving(maximum, actions);
  }

  lemma ActForward(maximum: nat, w: World, a: Action)
    ensures Later(w.store.control, Act(maximum, w, a).store.control)
  {
    hide Enqueue, Picked, Withdrawn, MaySend;
    if a.Put? && Enqueue(w.store, a.selection, a.lifetime, a.now).Ok? {
      EnqueueControl(w.store, a.selection, a.lifetime, a.now);
    }
  }

  lemma EnqueueControl(st: Store, s: Selection, lifetime: int, now: Instant)
    requires Enqueue(st, s, lifetime, now).Ok?
    ensures Enqueue(st, s, lifetime, now).value.control == st.control
  {}

  /** The disconnect watermark and the shared cooldown never move back. */
  lemma {:induction false} WatermarkNeverDecreases(maximum: nat, actions: seq<Action>, later: seq<Action>)
    ensures Later(Perform(maximum, EMPTY, actions).store.control, Perform(maximum, EMPTY, actions + later).store.control)
    decreases |later|
  {
    hide Act;
    if later == [] {
      assert actions + later == actions;
    } else {
      var front := later[..|later| - 1];
      WatermarkNeverDecreases(maximum, actions, front);
      assert (actions + later)[..|actions + later| - 1] == actions + front;
      ActForward(maximum, Perform(maximum, EMPTY, actions + front), later[|later| - 1]);
    }
  }

  /** Once a disconnect at `at` is recorded, no later claim hands out a selection decided at or before
      it, whatever happens in between. */
  lemma NoClaimBehindWatermark(maximum: nat, actions: seq<Action>, later: seq<Action>, grab: Action)
    requires grab.Grab? && Perform(maximum, EMPTY, actions + later).PhaseOf(grab.dispatcher).Resting?
    ensures var w := Perform(maximum, EMPTY, actions + later);
            var p := Act(maximum, w, grab).PhaseOf(grab.dispatcher);
            p.Holding? ==> p.claim.id in w.store.rows
                           && !Perform(maximum, EMPTY, actions).store.control.Invalidates(w.store.rows[p.claim.id].decisionAt)
  {
    hide Perform, Kept, Swept;
    WatermarkNeverDecreases(maximum, actions, later);
    EveryInterleaving(maximum, actions + later);
    var w := Perform(maximum, EMPTY, actions + later);
    assert OneSending(w.store) by { KeptParts(w.store); }
    SweptRows(w.store, grab.first, grab.second);
  }

  // ----- One dispatch -----

  datatype Dispatch = Disabled | InvalidBudget | NothingToDo | Finished(state: State) | Lost(error: DeliveryError)

  /** The clock readings, the fresh token and what the network and the payload turn out to be. */
  datatype Circumstances = Circumstances(token: Token, readable: Claim -> bool, result: SendResult, elapsed: nat,
                                         sweep: (Instant, Instant), take: Instant, check: Instant, finish: (Instant, Instant))

  /** The protocol steps of one dispatcher that nobody interrupts; those not enabled do nothing. */
  function Steps(d: nat, pick: Option<Digest>, lease: int, timeout: int, readable: bool, x: Circumstances): seq<Action> {
    [Grab(d, pick, lease, x.sweep.0, x.sweep.1, x.take),
     Check(d, readable, timeout, x.check, x.elapsed),
     Transmit(d, x.result),
     Complete(d, x.finish.0, x.finish.1, true)]
  }

  lemma FourSteps(maximum: nat, w: World, a: Action, b: Action, c: Action, e: Action)
    ensures Perform(maximum, w, [a, b, c, e]) == Act(maximum, Act(maximum, Act(maximum, Act(maximum, w, a), b), c), e)
  {
    hide Act;
    assert [a, b, c, e][..3] == [a, b, c] && [a, b, c][..2] == [a, b] && [a, b][..1] == [a] && [a][..0] == [];
    assert Perform(maximum, w, [a]) == Act(maximum, w, a);
    assert Perform(maximum, w, [a, b]) == Act(maximum, Act(maximum, w, a), b);
    assert Perform(maximum, w, [a, b, c]) == Act(maximum, Act(maximum, Act(maximum, w, a), b), c);
  }

  function ReportAfter(c: Claim, allowed: bool, readable: bool, maximum: nat, x: Circumstances): Report {
    var step := Verdict(readable, allowed, c, maximum);
    if step.Cleared? then ReportOf(x.result, c, maximum) else step.report
  }

  lemma StepsEffect(maximum: nat, w: World, d: nat, pick: Option<Digest>, lease: int, timeout: int, readable: bool, x: Circumstances)
    requires w.PhaseOf(d).Resting? && |w.issued| == x.token && lease > 0
    requires Picked(Swept(w.store, x.sweep.0, x.sweep.1), pick, x.take)
    ensures var swept := Swept(w.store, x.sweep.0, x.sweep.1);
            var taken := Take(swept, pick, x.token, lease, x.take);
            var n := Perform(maximum, w, Steps(d, pick, lease, timeout, readable, x));
            && n.PhaseOf(d).Resting?
            && (pick.None? ==> n.store == swept && n.sends == w.sends && n.issued == w.issued)
            && (pick.Some? ==>
                  var claim := ClaimOf(swept, pick, x.token).value;
                  var f := Finish(taken, claim, ReportAfter(claim, MaySend(taken, claim, timeout, x.check, x.elapsed), readable, maximum, x),
                                  x.finish.0, x.finish.1);
                  n.store == (if f.Ok? then f.value else taken) && n.issued == w.issued + [Issue(claim.id, claim.attempts)])
  {
    hide Swept, Take, MaySend, Finish, Perform, Sooner;
    var steps := Steps(d, pick, lease, timeout, readable, x);
    FourSteps(maximum, w, steps[0], steps[1], steps[2], steps[3]);
    assert steps == [steps[0], steps[1], steps[2], steps[3]];
  }

  lemma TakeNothing(st: Store, token: Token, lease: int, now: Instant)
    ensures Take(st, None, token, lease, now) == st
  {}

  /** One dispatch, uninterrupted, is exactly these four steps of the protocol, from any world whose
      store is the repository and where this dispatcher rests. */
  method DispatchOne(repository: Repository, enabled: bool, timeout: int, lease: int, maximum: nat, x: Circumstances)
    returns (r: Dispatch, ghost pick: Option<Digest>, ghost readable: bool)
    requires Kept(repository.Contents())
    modifies repository
    ensures Kept(repository.Contents())
    ensures !enabled ==> r == Disabled
    ensures r == Disabled || r == InvalidBudget ==> repository.Contents() == old(repository.Contents())
    ensures enabled ==> (r == InvalidBudget <==> timeout <= 0 || lease <= timeout || maximum < 1)
    ensures r != Disabled && r != InvalidBudget ==>
              forall w: World, d: nat :: w.store == old(repository.Contents()) && w.PhaseOf(d).Resting? && |w.issued| == x.token ==>
                var n := Perform(maximum, w, Steps(d, pick, lease, timeout, readable, x));
                && n.store == repository.Contents() && n.PhaseOf(d).Resting?
                && (r == NothingToDo ==> n.sends == w.sends && n.issued == w.issued)
                && (r.Finished? ==> |n.issued| == x.token + 1 && n.issued[x.token].id in n.store.rows
                                    && n.store.rows[n.issued[x.token].id].state == r.state)
  {
    hide Kept, Swept, Sooner, Take, MaySend, Perform;
    pick, readable := None, false;
    if !enabled {
      return Disabled, pick, readable;
    }
    if timeout <= 0 || lease <= timeout || maximum < 1 {
      return InvalidBudget, pick, readable;
    }
    ghost var start := repository.Contents();
    ghost var swept := Swept(start, x.sweep.0, x.sweep.1);
    var taken := repository.TakeNext(x.token, lease, x.sweep.0, x.sweep.1, x.take);
    pick :| Picked(swept, pick, x.take) && repository.Contents() == Take(swept, pick, x.token, lease, x.take)
            && taken == Ok(ClaimOf(swept, pick, x.token));
    ghost var claimed := repository.Contents();
    if taken.value.None? {
      TakeNothing(swept, x.token, lease, x.take);
      r := NothingToDo;
    } else {
      var claim := taken.value.value;
      readable := x.readable(claim);
      var step := Verdict(x.readable(claim), MaySend(repository.Contents(), claim, timeout, x.check, x.elapsed), claim, maximum);
      var report := if step.Cleared? then ReportOf(x.result, claim, maximum) else step.report;
      var done := repository.Complete(claim, report, x.finish.0, x.finish.1);
      r := if done.Ok? then Finished(done.value) else Lost(done.error);
    }
    forall w: World, d: nat | w.store == start && w.PhaseOf(d).Resting? && |w.issued| == x.token
      ensures var n := Perform(maximum, w, Steps(d, pick, lease, timeout, readable, x));
              && n.store == repository.Contents() && n.PhaseOf(d).Resting?
              && (r == NothingToDo ==> n.sends == w.sends && n.issued == w.issued)
              && (r.Finished? ==> |n.issued| == x.token + 1 && n.issued[x.token].id in n.store.rows
                                  && n.store.rows[n.issued[x.token].id].state == r.state)
    {
      StepsEffect(maximum, w, d, pick, lease, timeout, readable, x);
    }
  }
}
