/** Durable shadow deliveries: every transaction of the delivery repository. */
module DeliveryStore {
  import opened Prelude

  type Token = nat

  datatype State = Pending | Sending | Sent | Expired | Failed | Unknown
  datatype Lease = Lease(token: Token, until: Instant)

  datatype Selection = Selection(id: Digest, symbol: Ident, decisionAt: Instant, payload: Digest)

  datatype Delivery = Delivery(symbol: Ident, decisionAt: Instant, expiresAt: Instant, payload: Digest, state: State,
                               attempts: nat, availableAt: Instant, lease: Option<Lease>,
                               error: Option<string>, message: Option<Ident>)

  /** `None` stands for the null watermark and for the cooldown's minus infinity. */
  datatype Control = Control(invalidated: Option<Instant>, cooldown: Option<Instant>)
  {
    predicate Invalidates(at: Instant) { invalidated.Some? && at <= invalidated.value }

    predicate Cooled(now: Instant) { cooldown.Some? ==> cooldown.value <= now }
  }

  datatype Store = Store(rows: map<Digest, Delivery>, control: Control)

  datatype Claim = Claim(id: Digest, token: Token, expiresAt: Instant, payload: Digest, attempts: nat)

  datatype DeliveryError = InvalidDuration | ConflictingSelection | LeaseLost

  function Greatest(a: Option<Instant>, b: Instant): Option<Instant> {
    if a.Some? && a.value > b then a else Some(b)
  }

  // ----- Invalidate -----

  function Withdrawn(c: Control, d: Delivery): Delivery {
    if d.state.Pending? && c.Invalidates(d.decisionAt)
    then d.(state := Expired, error := Some("CAPTURE_DISCONNECTED")) else d
  }

  function Invalidate(st: Store, at: Instant): Store {
    var control := st.control.(invalidated := Greatest(st.control.invalidated, at));
    Store(map id | id in st.rows :: Withdrawn(control, st.rows[id]), control)
  }

  // ----- Enqueue -----

  predicate Occupied(rows: map<Digest, Delivery>, s: Selection) {
    s.id in rows || exists id :: id in rows && rows[id].symbol == s.symbol && rows[id].decisionAt == s.decisionAt
  }

  function Enqueue(st: Store, s: Selection, lifetime: int, now: Instant): Result<Store, DeliveryError> {
    var expires := s.decisionAt + lifetime;
    if lifetime <= 0 then Err(InvalidDuration)
    else if Occupied(st.rows, s) then
      if && s.id in st.rows && st.rows[s.id].symbol == s.symbol && st.rows[s.id].decisionAt == s.decisionAt
         && st.rows[s.id].payload == s.payload && st.rows[s.id].expiresAt == expires
      then Ok(st) else Err(ConflictingSelection)
    else
      var state := if expires <= now || st.control.Invalidates(s.decisionAt) then Expired
                   else if s.decisionAt > now then Failed else Pending;
      Ok(st.(rows := st.rows[s.id := Delivery(s.symbol, s.decisionAt, expires, s.payload, state, 0, now, None, None, None)]))
  }

  // ----- Claim -----

  function LeaseChecked(d: Delivery, now: Instant): Delivery {
    if d.state.Sending? && d.lease.Some? && d.lease.value.until <= now
    then d.(state := Unknown, lease := None, error := Some("LEASE_LOST")) else d
  }

  function DeadlineChecked(d: Delivery, now: Instant): Delivery {
    if d.state.Pending? && d.expiresAt <= now then d.(state := Expired) else d
  }

  /** The two housekeeping statements of a claim, each at its own instant. */
  function Swept(st: Store, first: Instant, second: Instant): Store {
    st.(rows := map id | id in st.rows :: DeadlineChecked(LeaseChecked(st.rows[id], first), second))
  }

  predicate Claimable(st: Store, id: Digest, now: Instant) {
    && id in st.rows
    && st.rows[id].state.Pending? && st.rows[id].availableAt <= now
    && st.rows[id].decisionAt <= now < st.rows[id].expiresAt
    && (forall other :: other in st.rows ==> !st.rows[other].state.Sending?)
    && st.control.Cooled(now) && !st.control.Invalidates(st.rows[id].decisionAt)
  }

  predicate Sooner(st: Store, a: Digest, b: Digest)
    requires a in st.rows && b in st.rows
  {
    || st.rows[a].decisionAt < st.rows[b].decisionAt
    || (st.rows[a].decisionAt == st.rows[b].decisionAt && a <= b)
  }

  /** The row a claim must take: the claimable one with the earliest decision, if there is any. */
  predicate Picked(st: Store, pick: Option<Digest>, now: Instant) {
    if pick.None? then forall id :: id in st.rows ==> !Claimable(st, id, now)
    else Claimable(st, pick.value, now)
         && forall id :: id in st.rows && Claimable(st, id, now) ==> Sooner(st, pick.value, id)
  }

  function Take(st: Store, pick: Option<Digest>, token: Token, lease: int, now: Instant): Store
    requires pick.Some? ==> pick.value in st.rows
  {
    if pick.None? then st
    else
      var d := st.rows[pick.value];
      st.(rows := st.rows[pick.value := d.(state := Sending, attempts := d.attempts + 1, lease := Some(Lease(token, now + lease)))])
  }

  function ClaimOf(st: Store, pick: Option<Digest>, token: Token): Option<Claim>
    requires pick.Some? ==> pick.value in st.rows
  {
    if pick.None? then None
    else Some(Claim(pick.value, token, st.rows[pick.value].expiresAt, st.rows[pick.value].payload, st.rows[pick.value].attempts + 1))
  }

  // ----- Send window and completion -----

  predicate HoldsLease(st: Store, c: Claim) {
    c.id in st.rows && st.rows[c.id].state.Sending? && st.rows[c.id].lease.Some? && st.rows[c.id].lease.value.token == c.token
  }

  /** The send must end, by the database clock less the query's own duration, inside deadline and lease. */
  predicate MaySend(st: Store, c: Claim, timeout: int, now: Instant, elapsed: nat) {
    && HoldsLease(st, c) && st.control.Cooled(now) && !st.control.Invalidates(st.rows[c.id].decisionAt)
    && Min(st.rows[c.id].expiresAt, st.rows[c.id].lease.value.until) - now - elapsed > timeout
  }

  datatype Report = Report(state: State, error: Option<string>, message: Option<Ident>, retryAfter: int)

  /** The two statements of a completion: the shared cooldown, then the row itself. */
  function Finish(st: Store, c: Claim, r: Report, first: Instant, second: Instant): Result<Store, DeliveryError> {
    if r.retryAfter < 0 then Err(InvalidDuration)
    else
      var control := if r.error == Some("RATE_LIMIT")
                     then st.control.(cooldown := Greatest(st.control.cooldown, first + r.retryAfter)) else st.control;
      if !HoldsLease(st, c) || st.rows[c.id].lease.value.until <= second then Err(LeaseLost)
      else
        var d := st.rows[c.id];
        var state := if r.state.Pending? && (d.expiresAt <= second + r.retryAfter || control.Invalidates(d.decisionAt))
                     then Expired else r.state;
        Ok(Store(st.rows[c.id := d.(state := state, availableAt := second + r.retryAfter, lease := None,
                                    error := r.error, message := r.message)], control))
  }

  // ----- What every transaction keeps -----

  /** A row is leased exactly while it is being sent, and at most one row is. */
  ghost predicate OneSending(st: Store) {
    && (forall id :: id in st.rows ==> (st.rows[id].state.Sending? <==> st.rows[id].lease.Some?))
    && (forall a, b :: a in st.rows && b in st.rows && st.rows[a].state.Sending? && st.rows[b].state.Sending? ==> a == b)
  }

  /** No delivery waits that a disconnect has already withdrawn. */
  ghost predicate NoneWithdrawnWaits(st: Store) {
    forall id :: id in st.rows && st.rows[id].state.Pending? ==> !st.control.Invalidates(st.rows[id].decisionAt)
  }

  ghost predicate UniqueDecisions(st: Store) {
    forall a, b :: (a in st.rows && b in st.rows && st.rows[a].symbol == st.rows[b].symbol
                    && st.rows[a].decisionAt == st.rows[b].decisionAt) ==> a == b
  }

  ghost predicate Kept(st: Store) {
    OneSending(st) && NoneWithdrawnWaits(st) && UniqueDecisions(st)
  }

  /** The watermark and the cooldown never move back. */
  predicate Forward(a: Option<Instant>, b: Option<Instant>) {
    a.Some? ==> b.Some? && a.value <= b.value
  }

  ghost predicate Later(a: Control, b: Control) {
    Forward(a.invalidated, b.invalidated) && Forward(a.cooldown, b.cooldown)
  }

  lemma InvalidateKeeps(st: Store, at: Instant)
    requires Kept(st)
    ensures Kept(Invalidate(st, at)) && Later(st.control, Invalidate(st, at).control)
    ensures Invalidate(st, at).control.Invalidates(at)
  {}

  lemma EnqueueKeeps(st: Store, s: Selection, lifetime: int, now: Instant)
    requires Kept(st) && Enqueue(st, s, lifetime, now).Ok?
    ensures var n := Enqueue(st, s, lifetime, now).value;
            && Kept(n) && n.control == st.control
            && s.id in n.rows && n.rows[s.id].symbol == s.symbol && n.rows[s.id].decisionAt == s.decisionAt
            && n.rows[s.id].payload == s.payload && n.rows[s.id].expiresAt == s.decisionAt + lifetime
            && (forall id :: id in st.rows ==> id in n.rows && n.rows[id] == st.rows[id])
  {}

  /** Housekeeping only ever ends rows. */
  ghost predicate Aged(d: Delivery, n: Delivery) {
    && n == d.(state := n.state, lease := n.lease, error := n.error)
    && (n == d || (n.lease.None? && (n.state.Unknown? || n.state.Expired?)))
  }

  lemma SweptRow(d: Delivery, first: Instant, second: Instant)
    requires d.state.Sending? <==> d.lease.Some?
    ensures Aged(d, DeadlineChecked(LeaseChecked(d, first), second))
  {}

  lemma SweptRows(st: Store, first: Instant, second: Instant)
    requires OneSending(st)
    ensures var n := Swept(st, first, second);
            n.rows.Keys == st.rows.Keys && n.control == st.control && forall id :: id in st.rows ==> Aged(st.rows[id], n.rows[id])
  {
    hide Aged, DeadlineChecked, LeaseChecked;
    var n := Swept(st, first, second);
    forall id | id in st.rows ensures Aged(st.rows[id], n.rows[id]) {
      SweptRow(st.rows[id], first, second);
    }
  }

  lemma SweepKeeps(st: Store, first: Instant, second: Instant)
    requires Kept(st)
    ensures Kept(Swept(st, first, second))
  {
    hide Swept, Control.Invalidates;
    SweptRows(st, first, second);
  }

  lemma TakeKeeps(st: Store, pick: Option<Digest>, token: Token, lease: int, now: Instant)
    requires Kept(st) && Picked(st, pick, now)
    ensures Kept(Take(st, pick, token, lease, now))
  {
    hide Sooner, Control.Invalidates, Control.Cooled;
  }

  /** A claim hands out a waiting row that no disconnect has withdrawn, whose time has come and has not
      run out, while nothing else is being sent and the destination has cooled down. */
  lemma ClaimKeeps(st: Store, pick: Option<Digest>, token: Token, lease: int, first: Instant, second: Instant, third: Instant)
    requires Kept(st) && Picked(Swept(st, first, second), pick, third)
    ensures var swept := Swept(st, first, second);
            var n := Take(swept, pick, token, lease, third);
            && Kept(n) && n.control == st.control
            && (pick.Some? ==>
                  && st.rows[pick.value].state.Pending?
                  && n.rows[pick.value].attempts == st.rows[pick.value].attempts + 1
                  && !n.control.Invalidates(n.rows[pick.value].decisionAt) && n.control.Cooled(third)
                  && n.rows[pick.value].decisionAt <= third < n.rows[pick.value].expiresAt)
  {
    hide Swept, Sooner, Control.Invalidates, Control.Cooled, Kept;
    assert OneSending(st) by { KeptParts(st); }
    SweepKeeps(st, first, second);
    SweptRows(st, first, second);
    TakeKeeps(Swept(st, first, second), pick, token, lease, third);
  }

  lemma KeptParts(st: Store)
    requires Kept(st)
    ensures OneSending(st) && NoneWithdrawnWaits(st) && UniqueDecisions(st)
  {}

  lemma FinishKeeps(st: Store, c: Claim, r: Report, first: Instant, second: Instant)
    requires Kept(st) && !r.state.Sending? && Finish(st, c, r, first, second).Ok?
    ensures var n := Finish(st, c, r, first, second).value;
            && Kept(n) && Later(st.control, n.control)
            && (r.error == Some("RATE_LIMIT") ==> !n.control.Cooled(first + r.retryAfter - 1))
  {}

  // ----- The repository -----

  /** Every method below is one transaction: the control row is locked first, and what raises is
      rolled back. Instants are the database's own, one for each statement. */
  class Repository {
    var rows: map<Digest, Delivery>
    var invalidatedThrough: Option<Instant>
    var cooldownUntil: Option<Instant>

    constructor ()
      ensures Contents() == Store(map[], Control(None, None)) && Kept(Contents())
    {
      rows, invalidatedThrough, cooldownUntil := map[], None, None;
    }

    function Contents(): Store
      reads this
    {
      Store(rows, Control(invalidatedThrough, cooldownUntil))
    }

    method Withdraw(at: Instant)
      requires Kept(Contents())
      modifies this
      ensures Contents() == Invalidate(old(Contents()), at) && Kept(Contents())
    {
      InvalidateKeeps(Contents(), at);
      invalidatedThrough := Greatest(invalidatedThrough, at);
      var control := Control(invalidatedThrough, cooldownUntil);
      rows := map id | id in rows :: Withdrawn(control, rows[id]);
    }

    method Add(s: Selection, lifetime: int, now: Instant) returns (r: Result<Digest, DeliveryError>)
      requires Kept(Contents())
      modifies this
      ensures Kept(Contents())
      ensures var after := Enqueue(old(Contents()), s, lifetime, now);
              if after.Ok? then Contents() == after.value && r == Ok(s.id)
              else Contents() == old(Contents()) && r == Err(after.error)
    {
      var after := Enqueue(Contents(), s, lifetime, now);
      if after.Err? {
        return Err(after.error);
      }
      EnqueueKeeps(Contents(), s, lifetime, now);
      rows := after.value.rows;
      r := Ok(s.id);
    }

    /** The row with the earliest decision among those a claim may take. */
    method FirstClaimable(now: Instant) returns (pick: Option<Digest>)
      ensures Picked(Contents(), pick, now)
    {
      pick := None;
      var left := rows.Keys;
      while left != {}
        invariant left <= rows.Keys
        invariant pick.Some? ==> pick.value in rows && Claimable(Contents(), pick.value, now)
        invariant pick.None? ==> forall id :: id in rows && id !in left ==> !Claimable(Contents(), id, now)
        invariant pick.Some? ==> forall id :: id in rows && id !in left && Claimable(Contents(), id, now) ==> Sooner(Contents(), pick.value, id)
        decreases left
      {
        var id :| id in left;
        if Claimable(Contents(), id, now) && (pick.None? || Sooner(Contents(), id, pick.value)) {
          pick := Some(id);
        }
        left := left - {id};
      }
    }

    method TakeNext(token: Token, lease: int, first: Instant, second: Instant, third: Instant) returns (r: Result<Option<Claim>, DeliveryError>)
      requires Kept(Contents())
      modifies this
      ensures Kept(Contents())
      ensures lease <= 0 ==> r == Err(InvalidDuration) && Contents() == old(Contents())
      ensures lease > 0 ==>
                var swept := Swept(old(Contents()), first, second);
                exists pick :: Picked(swept, pick, third) && Contents() == Take(swept, pick, token, lease, third)
                               && r == Ok(ClaimOf(swept, pick, token))
    {
      if lease <= 0 {
        return Err(InvalidDuration);
      }
      hide Kept, Claimable, Picked, LeaseChecked, DeadlineChecked;
      ghost var before := Contents();
      rows := map id | id in rows :: LeaseChecked(rows[id], first);
      rows := map id | id in rows :: DeadlineChecked(rows[id], second);
      ghost var swept := Contents();
      assert swept == Swept(before, first, second);
      var pick := FirstClaimable(third);
      ClaimKeeps(before, pick, token, lease, first, second, third);
      r := Ok(ClaimOf(Contents(), pick, token));
      rows := Take(Contents(), pick, token, lease, third).rows;
      assert Contents() == Take(swept, pick, token, lease, third);
    }

    method Complete(c: Claim, report: Report, first: Instant, second: Instant) returns (r: Result<State, DeliveryError>)
      requires Kept(Contents()) && !report.state.Sending?
      modifies this
      ensures Kept(Contents())
      ensures var after := Finish(old(Contents()), c, report, first, second);
              if after.Ok? then Contents() == after.value && r == Ok(after.value.rows[c.id].state)
              else Contents() == old(Contents()) && r == Err(after.error)
    {
      var after := Finish(Contents(), c, report, first, second);
      if after.Err? {
        return Err(after.error);
      }
      FinishKeeps(Contents(), c, report, first, second);
      rows, cooldownUntil := after.value.rows, after.value.control.cooldown;
      r := Ok(rows[c.id].state);
    }
  }
}
