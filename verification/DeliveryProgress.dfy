/** What each delivery transaction does to a row, and that a fresh selection really reaches the wire. */
module DeliveryProgress {
  import opened Prelude
  import opened DeliveryStore
  import opened DeliveryProtocol

  // ----- One transaction, one row -----

  /** A selection that occupies no row: stored waiting if and only if it has been decided, is in time and no
      disconnect is at or past its decision; expired exactly when overdue or withdrawn. */
  lemma EnqueuedExactly(st: Store, s: Selection, lifetime: int, now: Instant)
    requires lifetime > 0 && s.id !in st.rows
    requires forall id :: id in st.rows ==> !(st.rows[id].symbol == s.symbol && st.rows[id].decisionAt == s.decisionAt)
    ensures Enqueue(st, s, lifetime, now).Ok?
    ensures var n := Enqueue(st, s, lifetime, now).value;
            && n.rows.Keys == st.rows.Keys + {s.id} && n.control == st.control && (forall id :: id in st.rows ==> n.rows[id] == st.rows[id])
            && var d, mark := n.rows[s.id], st.control.invalidated;
               && d.symbol == s.symbol && d.decisionAt == s.decisionAt && d.expiresAt == s.decisionAt + lifetime && d.payload == s.payload
               && d.attempts == 0 && d.availableAt == now && d.lease.None?
               && (d.state.Pending? <==> s.decisionAt <= now < s.decisionAt + lifetime && (mark.Some? ==> mark.value < s.decisionAt))
               && (d.state.Expired? <==> s.decisionAt + lifetime <= now || (mark.Some? && s.decisionAt <= mark.value))
               && (d.state.Pending? || d.state.Expired? || d.state.Failed?)
  {}

  /** Durations are checked first. */
  lemma DurationsChecked(st: Store, s: Selection, lifetime: int, now: Instant, c: Claim, r: Report, first: Instant, second: Instant)
    ensures lifetime <= 0 ==> Enqueue(st, s, lifetime, now) == Err(InvalidDuration)
    ensures r.retryAfter < 0 ==> Finish(st, c, r, first, second) == Err(InvalidDuration)
  {}

  /** A selection that occupies a row: accepted, without effect, exactly when everything of it is the same. */
  lemma RepeatedExactly(st: Store, s: Selection, lifetime: int, now: Instant)
    requires lifetime > 0
    requires s.id in st.rows || exists id :: id in st.rows && st.rows[id].symbol == s.symbol && st.rows[id].decisionAt == s.decisionAt
    ensures var same := s.id in st.rows && st.rows[s.id].symbol == s.symbol && st.rows[s.id].decisionAt == s.decisionAt
                        && st.rows[s.id].payload == s.payload && st.rows[s.id].expiresAt == s.decisionAt + lifetime;
            Enqueue(st, s, lifetime, now) == if same then Ok(st) else Err(ConflictingSelection)
  {}

  /** A disconnect raises the watermark to its instant, never lowers it, and expires exactly the waiting rows
      decided at or before it. */
  lemma WithdrawnExactly(st: Store, at: Instant, id: Digest)
    requires id in st.rows
    ensures var n, mark := Invalidate(st, at), if st.control.invalidated.Some? then Max(st.control.invalidated.value, at) else at;
            && n.control.invalidated == Some(mark) && n.control.cooldown == st.control.cooldown && id in n.rows
            && (if st.rows[id].state.Pending? && st.rows[id].decisionAt <= mark
                then n.rows[id] == st.rows[id].(state := Expired, error := Some("CAPTURE_DISCONNECTED"))
                else n.rows[id] == st.rows[id])
  {}

  /** Before a claim: a lease that has run out makes its row UNKNOWN, never waiting again; a waiting row past
      its deadline expires; nothing else moves. */
  lemma SweptExactly(st: Store, first: Instant, second: Instant, id: Digest)
    requires id in st.rows && (st.rows[id].state.Sending? <==> st.rows[id].lease.Some?)
    ensures var d, n := st.rows[id], Swept(st, first, second);
            && n.control == st.control && id in n.rows
            && n.rows[id] == if d.state.Sending? && d.lease.value.until <= first then d.(state := Unknown, lease := None, error := Some("LEASE_LOST"))
                             else if d.state.Pending? && d.expiresAt <= second then d.(state := Expired)
                             else d
  {}

  /** What a completion stores, from the current, unexpired lease only. */
  lemma FinishedExactly(st: Store, c: Claim, r: Report, first: Instant, second: Instant)
    requires r.retryAfter >= 0
    ensures var held := c.id in st.rows && st.rows[c.id].state.Sending? && st.rows[c.id].lease.Some?
                        && st.rows[c.id].lease.value.token == c.token && second < st.rows[c.id].lease.value.until;
            && (Finish(st, c, r, first, second).Ok? <==> held)
            && (held ==>
                  var n, d := Finish(st, c, r, first, second).value, st.rows[c.id];
                  var waits := r.state.Pending? && second + r.retryAfter < d.expiresAt && !(n.control.invalidated.Some? && d.decisionAt <= n.control.invalidated.value);
                  && n.control.invalidated == st.control.invalidated
                  && n.rows == st.rows[c.id := d.(state := if r.state.Pending? && !waits then Expired else r.state, lease := None,
                                                  availableAt := second + r.retryAfter, error := r.error, message := r.message)]
                  && (r.error != Some("RATE_LIMIT") ==> n.control == st.control)
                  && (r.error == Some("RATE_LIMIT") ==>
                        n.control.cooldown == Some(if st.control.cooldown.Some? then Max(st.control.cooldown.value, first + r.retryAfter) else first + r.retryAfter)))
  {}

  /** A row a claim may take: waiting, due, decided, in time, not withdrawn, with nothing on the wire and the
      destination cooled down. */
  predicate Due(st: Store, id: Digest, now: Instant) {
    && id in st.rows && st.rows[id].state == Pending && st.rows[id].availableAt <= now && st.rows[id].decisionAt <= now && now < st.rows[id].expiresAt
    && (forall other :: other in st.rows ==> st.rows[other].state != Sending)
    && (st.control.cooldown.Some? ==> st.control.cooldown.value <= now)
    && (st.control.invalidated.Some? ==> st.control.invalidated.value < st.rows[id].decisionAt)
  }

  /** A claim takes the due row with the earliest decision, the smallest id among equals; none only if none is due. */
  lemma PickedExactly(st: Store, pick: Option<Digest>, now: Instant)
    ensures Picked(st, pick, now) <==>
              if pick.None? then forall id :: id in st.rows ==> !Due(st, id, now)
              else && Due(st, pick.value, now)
                   && forall id :: id in st.rows && id != pick.value && Due(st, id, now) ==>
                        || st.rows[pick.value].decisionAt < st.rows[id].decisionAt
                        || (st.rows[pick.value].decisionAt == st.rows[id].decisionAt && pick.value < id)
  {
    forall id ensures Claimable(st, id, now) <==> Due(st, id, now) {}
    if pick.Some? && Due(st, pick.value, now) { assert Claimable(st, pick.value, now); }
  }

  // ----- The send window -----

  /** A dispatcher goes on to send only while it holds the row, the destination has cooled down, no disconnect
      has withdrawn the row, it has attempts left, and a send of `timeout` ends inside deadline and lease. */
  lemma ClearedExactly(maximum: nat, w: World, d: nat, readable: bool, timeout: int, now: Instant, elapsed: nat)
    requires w.PhaseOf(d).Holding?
    ensures var c, rows, control := w.PhaseOf(d).claim, w.store.rows, w.store.control;
            var n := Act(maximum, w, Check(d, readable, timeout, now, elapsed));
            && n.store == w.store && n.sends == w.sends
            && (n.PhaseOf(d) == Cleared(c) <==>
                  && readable && c.attempts <= maximum
                  && c.id in rows && rows[c.id].state.Sending? && rows[c.id].lease.Some? && rows[c.id].lease.value.token == c.token
                  && (control.cooldown.Some? ==> control.cooldown.value <= now)
                  && (control.invalidated.Some? ==> control.invalidated.value < rows[c.id].decisionAt)
                  && now + elapsed + timeout < rows[c.id].expiresAt && now + elapsed + timeout < rows[c.id].lease.value.until)
            && (n.PhaseOf(d) != Cleared(c) ==> n.PhaseOf(d).Reporting? && n.PhaseOf(d).claim == c
                                               && (n.PhaseOf(d).report.state.Failed? || n.PhaseOf(d).report.state.Expired?))
  {}

  // ----- Progress -----

  /** The row is the one the next claim takes. */
  ghost predicate Next(st: Store, id: Digest, now: Instant) {
    && id in st.rows && st.rows[id].state.Pending? && st.rows[id].lease.None?
    && st.rows[id].availableAt <= now && st.rows[id].decisionAt <= now < st.rows[id].expiresAt
    && (st.control.cooldown.Some? ==> st.control.cooldown.value <= now)
    && (st.control.invalidated.Some? ==> st.control.invalidated.value < st.rows[id].decisionAt)
    && (forall other :: other in st.rows ==> !st.rows[other].state.Sending?)
    && (forall other :: other in st.rows && other != id && st.rows[other].state.Pending? ==>
          st.rows[id].decisionAt < st.rows[other].decisionAt || (st.rows[id].decisionAt == st.rows[other].decisionAt && id < other))
  }

  /** Enough time is left, by the instants the dispatch reads, for housekeeping, the send and the completion. */
  predicate InTime(d: Delivery, lease: int, timeout: int, x: Circumstances) {
    && x.sweep.1 < d.expiresAt && lease > 0
    && x.check + x.elapsed + timeout < d.expiresAt && x.check + x.elapsed + timeout < x.take + lease
    && x.finish.1 < x.take + lease
  }

  lemma NextIsPicked(st: Store, id: Digest, first: Instant, second: Instant, now: Instant)
    requires Kept(st) && Next(st, id, now) && second < st.rows[id].expiresAt
    ensures Picked(Swept(st, first, second), Some(id), now)
    ensures id in Swept(st, first, second).rows && Swept(st, first, second).rows[id] == st.rows[id] && Swept(st, first, second).control == st.control
  {
    var n := Swept(st, first, second);
    SweptExactly(st, first, second, id);
    forall other | other in st.rows ensures n.rows[other].state.Sending? ==> st.rows[other].state.Sending?
      ensures n.rows[other].state.Pending? ==> st.rows[other].state.Pending? && n.rows[other].decisionAt == st.rows[other].decisionAt
    {
      SweptExactly(st, first, second, other);
    }
  }

  /** What the row holds after a send, by how the network answered. */
  predicate Answered(d: Delivery, n: Delivery, maximum: nat, result: SendResult, done: Instant) {
    && n.attempts == d.attempts + 1 && n.lease.None? && n.payload == d.payload && n.expiresAt == d.expiresAt
    && match result
       case Delivered(m) => n.state == Sent && n.message == Some(m) && n.error.None?
       case Rejected(code) => n.state == Failed && n.error == Some(code)
       case Uncertain(code) => n.state == Unknown && n.error == Some(code)
       case RateLimited(delay) =>
         var pause := if delay > 1_000_000 then delay else 1_000_000;
         && n.availableAt == done + pause && n.error == Some("RATE_LIMIT")
         && n.state == (if d.attempts + 1 >= maximum then Failed else if d.expiresAt <= done + pause then Expired else Pending)
  }

  /** One uninterrupted dispatch of the next row, in time and within its attempts: the message goes out exactly
      once, and the row records the answer. */
  lemma DispatchAnswers(maximum: nat, w: World, d: nat, id: Digest, lease: int, timeout: int, x: Circumstances)
    requires Kept(w.store) && w.PhaseOf(d).Resting? && |w.issued| == x.token && Next(w.store, id, x.take)
    requires w.store.rows[id].attempts < maximum && InTime(w.store.rows[id], lease, timeout, x)
    requires w.store.control.cooldown.Some? ==> w.store.control.cooldown.value <= x.check
    ensures var n := Perform(maximum, w, Steps(d, Some(id), lease, timeout, true, x));
            && n.PhaseOf(d).Resting? && n.sends == w.sends + [Transmission(x.token, x.result)]
            && id in n.store.rows && Answered(w.store.rows[id], n.store.rows[id], maximum, x.result, x.finish.1)
  {
    hide Swept, Picked, Perform;
    NextIsPicked(w.store, id, x.sweep.0, x.sweep.1, x.take);
    var steps := Steps(d, Some(id), lease, timeout, true, x);
    FourSteps(maximum, w, steps[0], steps[1], steps[2], steps[3]);
    assert steps == [steps[0], steps[1], steps[2], steps[3]];
    var swept := Swept(w.store, x.sweep.0, x.sweep.1);
    var claim := ClaimOf(swept, Some(id), x.token).value;
    var w1 := Act(maximum, w, steps[0]);
    assert w1.PhaseOf(d) == Holding(claim) && w1.store == Take(swept, Some(id), x.token, lease, x.take) && w1.sends == w.sends;
    ClearedExactly(maximum, w1, d, true, timeout, x.check, x.elapsed);
    var w2 := Act(maximum, w1, steps[1]);
    assert w2.PhaseOf(d) == Cleared(claim);
    var w3 := Act(maximum, w2, steps[2]);
    assert w3.PhaseOf(d) == Reporting(claim, ReportOf(x.result, claim, maximum)) && w3.store == w1.store;
    FinishedExactly(w3.store, claim, ReportOf(x.result, claim, maximum), x.finish.0, x.finish.1);
  }

  /** A fresh selection put into a store where nothing else waits or is being sent is delivered by the next
      uninterrupted dispatch the network answers: its row ends SENT with that message. */
  lemma FreshSelectionIsSent(maximum: nat, w: World, s: Selection, lifetime: int, now: Instant, d: nat, lease: int, timeout: int, x: Circumstances, message: Ident)
    requires Kept(w.store) && w.PhaseOf(d).Resting? && |w.issued| == x.token && maximum >= 1 && x.result == Delivered(message)
    requires forall id :: id in w.store.rows ==> !w.store.rows[id].state.Pending? && !w.store.rows[id].state.Sending?
    requires s.id !in w.store.rows && forall id :: id in w.store.rows ==> !(w.store.rows[id].symbol == s.symbol && w.store.rows[id].decisionAt == s.decisionAt)
    requires s.decisionAt <= now <= x.take < s.decisionAt + lifetime && now < s.decisionAt + lifetime
    requires w.store.control.invalidated.Some? ==> w.store.control.invalidated.value < s.decisionAt
    requires w.store.control.cooldown.Some? ==> w.store.control.cooldown.value <= x.take && w.store.control.cooldown.value <= x.check
    requires x.sweep.1 < s.decisionAt + lifetime && lease > 0 && x.finish.1 < x.take + lease
    requires x.check + x.elapsed + timeout < s.decisionAt + lifetime && x.check + x.elapsed + timeout < x.take + lease
    ensures var n := Perform(maximum, Act(maximum, w, Put(s, lifetime, now)), Steps(d, Some(s.id), lease, timeout, true, x));
            && s.id in n.store.rows && n.store.rows[s.id].state == Sent && n.store.rows[s.id].message == Some(message)
            && n.store.rows[s.id].payload == s.payload && n.sends == w.sends + [Transmission(x.token, Delivered(message))]
  {
    hide Perform, Enqueue, Kept;
    EnqueuedExactly(w.store, s, lifetime, now);
    EnqueueKeeps(w.store, s, lifetime, now);
    var put := Act(maximum, w, Put(s, lifetime, now));
    assert put.store == Enqueue(w.store, s, lifetime, now).value && put.PhaseOf(d).Resting?;
    assert Next(put.store, s.id, x.take);
    DispatchAnswers(maximum, put, d, s.id, lease, timeout, x);
  }
}
