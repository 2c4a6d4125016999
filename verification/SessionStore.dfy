/**
The session transactions statement by statement, on tables that are updated in place.
Each method is proved to do to the rows exactly what its function in SessionTables says,
so everything proved about runs of those functions holds of runs of these methods.
*/
module SessionStore {
  import opened Prelude
  import opened SessionTables

  class Store {
    var sessions: map<string, nat>
    var leases: map<string, Lease>
    var executions: map<string, Execution>
    var events: map<(string, nat), EventRow>
    var outbox: seq<OutboxRecord>

    ghost function View(): Tables
      reads this
    {
      Tables(sessions, leases, executions, events, outbox)
    }

    constructor ()
      ensures View() == EMPTY
    {
      sessions, leases, executions, events, outbox := map[], map[], map[], map[], [];
    }

    method DeduplicatedSubmission(sub: Submission) returns (found: Option<Result<Receipt, Error>>)
      ensures found == Deduplicate(View(), sub)
    {
      if sub.message !in executions { return None; }
      var existing := executions[sub.message];
      if existing.payloadHash != sub.payloadHash { return Some(Err(PayloadConflict)); }
      return Some(Ok(Deduplicated(existing.id)));
    }

    /** `submit` after its first look-up: admission, session, execution and Outbox record. */
    method AdmitAndInsertExecution(sub: Submission, admission: Admission, id: Uuid)
      returns (outcome: Result<Receipt, Error>)
      modifies this
      ensures (View(), outcome) == AdmitAndInsert(old(View()), sub, admission, id)
    {
      if admission.Denied? {
        var duplicate := DeduplicatedSubmission(sub);
        if duplicate.Some? { return duplicate.value; }
        return Err(NotAdmitted(admission.reason));
      }
      var rollback := sessions;
      if sub.session !in sessions { sessions := sessions[sub.session := 0]; }
      if sub.message in executions {
        var duplicate := DeduplicatedSubmission(sub);
        if duplicate.value.Err? { sessions := rollback; }
        return duplicate.value;
      }
      executions := executions[sub.message :=
        Execution(id, sub.session, sub.payloadHash, sub.subject, sub.memoryPolicy, Pending)];
      outbox := outbox + [ExecutionRequested(sub.message, id, sub.session)];
      return Ok(Accepted(id));
    }

    method AcquireLease(session: string, owner: string, now: int, ttl: nat)
      returns (outcome: Result<Grant, Error>)
      modifies this
      ensures (View(), outcome) == Acquire(old(View()), session, owner, now, ttl)
    {
      if |owner| < 1 || 256 < |owner| { return Err(OwnerInvalid); }
      if session !in sessions { return Err(SessionNotFound); }
      var token := 1;
      if session in leases {
        var lease := leases[session];
        if lease.expiresAt > now && lease.owner != owner { return Err(LeaseHeld(lease.owner)); }
        token := lease.token + 1;
      }
      leases := leases[session := Lease(owner, token, now + ttl)];
      return Ok(Grant(token, sessions[session]));
    }

    method RenewLease(session: string, owner: string, token: nat, now: int)
      returns (outcome: Result<(), Error>)
      modifies this
      ensures (View(), outcome) == Renew(old(View()), session, owner, token, now)
    {
      if session !in leases { return Err(LeaseInvalid); }
      var lease := leases[session];
      if lease.owner != owner || lease.token != token || lease.expiresAt <= now { return Err(LeaseInvalid); }
      leases := leases[session := lease.(expiresAt := now + token)];
      return Ok(());
    }

    method ReleaseLease(session: string, owner: string, now: int)
      modifies this
      ensures View() == Release(old(View()), session, owner, now)
    {
      if session in leases && leases[session].owner == owner {
        leases := leases[session := leases[session].(expiresAt := now)];
      }
    }

    /** Inserts the events one row at a time; a taken sequence number rolls the commit back. */
    method InsertEvents(session: string, version: nat, execution: Uuid, batch: seq<SessionEvent>)
      returns (taken: bool)
      modifies this`events
      ensures taken == !SequenceFree(old(View()), session, version, |batch|)
      ensures events == if taken then old(events) else old(events) + BatchRows(session, version, execution, batch)
    {
      var before := events;
      for offset := 0 to |batch|
        invariant events == before + BatchRows(session, version, execution, batch[..offset])
        invariant forall n {:trigger (session, n) in before} ::
          version < n <= version + offset ==> (session, n) !in before
      {
        NextRow(before, session, version, execution, batch, offset);
        if (session, version + offset + 1) in events {
          events := before;
          return true;
        }
        events := events[(session, version + offset + 1) := EventRow(execution, batch[offset])];
      }
      assert batch[..|batch|] == batch;
      return false;
    }

    method CommitEvents(c: CommitRequest, now: int) returns (outcome: Result<Option<nat>, Error>)
      modifies this
      ensures (View(), outcome) == CommitSessionEvents(old(View()), c, now)
    {
      if c.events == [] { return Err(NoEvents); }
      if c.key !in executions { return Err(ExecutionNotFound); }
      if executions[c.key].status == Succeeded { return Ok(None); }
      if c.session !in leases { return Err(LeaseInvalid); }
      var lease := leases[c.session];
      if lease.owner != c.owner || lease.token != c.token || lease.expiresAt <= now { return Err(LeaseInvalid); }
      if c.session !in sessions { return Err(SessionNotFound); }
      if sessions[c.session] != c.expectedVersion { return Err(VersionConflict); }
      var taken := InsertEvents(c.session, c.expectedVersion, c.execution, c.events);
      if taken { return Err(SequenceTaken); }
      var newVersion := c.expectedVersion + |c.events|;
      sessions := sessions[c.session := newVersion];
      outbox := outbox + [EventsCommitted(c.key, c.execution, c.session, c.expectedVersion, newVersion)];
      return Ok(Some(newVersion));
    }

    method Finish(c: CommitRequest, now: int) returns (outcome: Result<Option<nat>, Error>)
      modifies this
      ensures (View(), outcome) == FinishExecution(old(View()), c, now)
    {
      outcome := CommitEvents(c, now);
      if outcome.Err? || outcome.value.None? { return; }
      executions := SetStatus(executions, c.execution, {Pending, Succeeded, Failed}, Succeeded);
      outbox := outbox + [ExecutionCompleted(c.key, c.execution, c.session)];
    }

    /** Only PENDING rows of this id change, only in their status; no other row or table does. */
    method MarkExecutionFailed(id: Uuid)
      modifies this`executions
      ensures View() == MarkFailed(old(View()), id)
      ensures executions.Keys == old(executions).Keys
      ensures forall m :: m in executions ==> executions[m].(status := Pending) == old(executions)[m].(status := Pending)
      ensures forall m :: m in executions ==>
        (executions[m] != old(executions)[m] <==> old(executions)[m].id == id && old(executions)[m].status == Pending)
      ensures forall m :: m in executions && executions[m] != old(executions)[m] ==> executions[m].status == Failed
    {
      executions := SetStatus(executions, id, {Pending}, Failed);
    }
  }

  /** The row after `offset` rows of a batch: its slot is taken only if it was before the batch. */
  lemma NextRow(before: map<(string, nat), EventRow>, session: string, version: nat, execution: Uuid,
                batch: seq<SessionEvent>, offset: nat)
    requires offset < |batch|
    ensures var rows := BatchRows(session, version, execution, batch[..offset]);
      var slot := (session, version + offset + 1);
      && (slot in before + rows <==> slot in before)
      && (before + rows)[slot := EventRow(execution, batch[offset])]
           == before + BatchRows(session, version, execution, batch[..offset + 1])
  {
    BatchRowsAt(session, version, execution, batch[..offset]);
    assert batch[..offset + 1][..offset] == batch[..offset];
  }

  /** A renewal keeps the promised lease time exactly when the token happens to equal the TTL. */
  lemma RenewalLength(t: Tables, session: string, owner: string, token: nat, now: int, ttl: nat)
    requires HoldsLease(t, session, owner, token, now)
    ensures Renew(t, session, owner, token, now).0.leases[session].expiresAt == now + ttl <==> token == ttl
  {}
}
