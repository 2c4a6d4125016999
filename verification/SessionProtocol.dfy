/**
The session commit protocol as a state machine: submissions, at-least-once delivery to any
number of workers, leases, crashes, failures and commits interleave freely, one database
transaction per action.
*/
module SessionProtocol {
  import opened Prelude
  import opened SessionTables

  /** The delivered request, as the Outbox record carried it. */
  datatype Envelope = Envelope(message: string, execution: Uuid, session: string)

  /** Where one worker's handling of one delivery stands. */
  datatype Phase =
    | Delivered
    | Checked
    | Leased(grant: Grant)
    | Renewed(grant: Grant)
    | Faulted
    | Ended

  datatype Handling = Handling(envelope: Envelope, owner: string, phase: Phase)

  /** History: one entry per successful event commit. */
  datatype Batch = Batch(session: string, token: nat, message: string, fromVersion: nat, toVersion: nat)

  datatype State = State(t: Tables, handlings: map<nat, Handling>, batches: seq<Batch>)

  const INITIAL := State(EMPTY, map[], [])

  datatype Action =
    | Submit(sub: Submission, admission: Admission, id: Uuid)
    | Deliver(h: nat, record: nat, owner: string)
    | CheckStatus(h: nat)
    | AcquireLease(h: nat, now: int, ttl: nat)
    | FaultBeforeCommit(h: nat)
    | MarkExecutionFailed(h: nat)
    | RenewLease(h: nat, now: int)
    | Commit(h: nat, user: Option<string>, reply: Option<string>, now: int)
    | ReleaseLease(session: string, owner: string, now: int)
    | Crash(h: nat)

  predicate FreshId(t: Tables, id: Uuid) {
    forall m :: m in t.executions ==> t.executions[m].id != id
  }

  predicate HasGrant(p: Phase) {
    p.Leased? || p.Renewed?
  }

  function Move(s: State, h: nat, phase: Phase): State
    requires h in s.handlings
  {
    s.(handlings := s.handlings[h := s.handlings[h].(phase := phase)])
  }

  function Request(x: Handling, user: Option<string>, reply: Option<string>): CommitRequest
    requires HasGrant(x.phase)
  {
    CommitRequest(x.envelope.session, x.owner, x.phase.grant.token, x.phase.grant.version,
                  x.envelope.execution, x.envelope.message,
                  [SessionEvent("USER_MESSAGE", user), SessionEvent("AGENT_REPLY", reply)])
  }

  /** An action that its actor cannot take in this state leaves the state alone. */
  function Step(s: State, a: Action): State {
    match a
    case Submit(sub, admission, id) =>
      if FreshId(s.t, id) then s.(t := AdmitAndInsert(s.t, sub, admission, id).0) else s
    case Deliver(h, record, owner) =>
      if h !in s.handlings && record < |s.t.outbox| && s.t.outbox[record].ExecutionRequested? then
        var r := s.t.outbox[record];
        s.(handlings := s.handlings[h := Handling(Envelope(r.message, r.execution, r.session), owner, Delivered)])
      else s
    case CheckStatus(h) =>
      if h in s.handlings && s.handlings[h].phase == Delivered then
        var message := s.handlings[h].envelope.message;
        if message in s.t.executions && s.t.executions[message].status in {Succeeded, Failed}
        then Move(s, h, Ended) else Move(s, h, Checked)
      else s
    case AcquireLease(h, now, ttl) =>
      if h in s.handlings && s.handlings[h].phase == Checked then
        var (t, outcome) := Acquire(s.t, s.handlings[h].envelope.session, s.handlings[h].owner, now, ttl);
        Move(s.(t := t), h, if outcome.Ok? then Leased(outcome.value) else Ended)
      else s
    case FaultBeforeCommit(h) =>
      if h in s.handlings && (s.handlings[h].phase == Delivered || s.handlings[h].phase.Leased?)
      then Move(s, h, Faulted) else s
    case MarkExecutionFailed(h) =>
      if h in s.handlings && s.handlings[h].phase == Faulted
      then Move(s.(t := MarkFailed(s.t, s.handlings[h].envelope.execution)), h, Ended) else s
    case RenewLease(h, now) =>
      if h in s.handlings && s.handlings[h].phase.Leased? then
        var x := s.handlings[h];
        var (t, outcome) := Renew(s.t, x.envelope.session, x.owner, x.phase.grant.token, now);
        Move(s.(t := t), h, if outcome.Ok? then Renewed(x.phase.grant) else Ended)
      else s
    case Commit(h, user, reply, now) =>
      if h in s.handlings && s.handlings[h].phase.Renewed?
      then FinishStep(s, h, Request(s.handlings[h], user, reply), now) else s
    case ReleaseLease(session, owner, now) => s.(t := Release(s.t, session, owner, now))
    case Crash(h) => if h in s.handlings then Move(s, h, Ended) else s
  }

  function FinishStep(s: State, h: nat, c: CommitRequest, now: int): State
    requires h in s.handlings
  {
    var (t, outcome) := FinishExecution(s.t, c, now);
    Move(s.(t := t,
            batches := if outcome.Ok? && outcome.value.Some?
                       then s.batches + [Batch(c.session, c.token, c.key, c.expectedVersion, outcome.value.value)]
                       else s.batches), h, Ended)
  }

  /** The state after a whole run. */
  function Run(actions: seq<Action>): State {
    if actions == [] then INITIAL else Step(Run(actions[..|actions| - 1]), actions[|actions| - 1])
  }

  // ----- What every state keeps: the tables -----

  /** Event sequences are exactly 1 to the session version. */
  ghost predicate GapFree(t: Tables) {
    forall session, n :: (session, n) in t.events <==>
      session in t.sessions && 1 <= n <= t.sessions[session]
  }

  predicate CommittedIn(r: OutboxRecord, session: string) {
    r.EventsCommitted? && r.session == session
  }

  predicate BothCommitted(r: OutboxRecord, q: OutboxRecord) {
    r.EventsCommitted? && q.EventsCommitted? && r.session == q.session
  }

  predicate Covers(r: OutboxRecord, session: string, n: nat) {
    CommittedIn(r, session) && r.fromVersion < n <= r.toVersion
  }

  ghost predicate RangesWithin(t: Tables) {
    forall i :: 0 <= i < |t.outbox| && t.outbox[i].EventsCommitted? ==>
      && t.outbox[i].session in t.sessions
      && t.outbox[i].fromVersion < t.outbox[i].toVersion <= t.sessions[t.outbox[i].session]
  }

  ghost predicate RangesOrdered(t: Tables) {
    forall i, j :: 0 <= i < j < |t.outbox| && BothCommitted(t.outbox[i], t.outbox[j]) ==>
      t.outbox[i].toVersion <= t.outbox[j].fromVersion
  }

  ghost predicate Covered(t: Tables, session: string, n: nat) {
    exists i :: 0 <= i < |t.outbox| && Covers(t.outbox[i], session, n)
  }

  ghost predicate RangesCover(t: Tables) {
    forall session, n :: (session, n) in t.events ==> Covered(t, session, n)
  }

  /** The committed ranges of a session tile 1 to its version, in the order of the Outbox. */
  ghost predicate Tiled(t: Tables) {
    RangesWithin(t) && RangesOrdered(t) && RangesCover(t)
  }

  /** The rows of a committed range belong to the execution the record names. */
  ghost predicate Attributed(t: Tables) {
    forall i, n: nat :: 0 <= i < |t.outbox| && t.outbox[i].EventsCommitted? && Covers(t.outbox[i], t.outbox[i].session, n) ==>
      (t.outbox[i].session, n) in t.events && t.events[(t.outbox[i].session, n)].execution == t.outbox[i].execution
  }

  /** The message id an Outbox record stands for, per kind. */
  predicate SameEffect(r: OutboxRecord, q: OutboxRecord) {
    || (r.ExecutionRequested? && q.ExecutionRequested? && r.message == q.message)
    || (r.EventsCommitted? && q.EventsCommitted? && r.cause == q.cause)
    || (r.ExecutionCompleted? && q.ExecutionCompleted? && r.cause == q.cause)
  }

  /** The record was written on behalf of this execution row. */
  predicate Matches(r: OutboxRecord, message: string, x: Execution) {
    && r.execution == x.id && r.session == x.session
    && (if r.ExecutionRequested? then r.message == message else r.cause == message)
  }

  function MessageOf(r: OutboxRecord): string {
    if r.ExecutionRequested? then r.message else r.cause
  }

  /** No effect of a message is recorded twice, and every record matches its execution row. */
  ghost predicate AtMostOnce(t: Tables) {
    && (forall i, j {:trigger SameEffect(t.outbox[i], t.outbox[j])} ::
          0 <= i < |t.outbox| && 0 <= j < |t.outbox| && SameEffect(t.outbox[i], t.outbox[j]) ==> i == j)
    && (forall i {:trigger MessageOf(t.outbox[i])} :: 0 <= i < |t.outbox| ==>
          MessageOf(t.outbox[i]) in t.executions &&
          Matches(t.outbox[i], MessageOf(t.outbox[i]), t.executions[MessageOf(t.outbox[i])]))
  }

  ghost predicate HasBatch(t: Tables, message: string) {
    exists i :: 0 <= i < |t.outbox| && t.outbox[i].EventsCommitted? && t.outbox[i].cause == message
  }

  ghost predicate HasCompletion(t: Tables, message: string) {
    exists i :: 0 <= i < |t.outbox| && t.outbox[i].ExecutionCompleted? && t.outbox[i].cause == message
  }

  ghost predicate HasRequest(t: Tables, message: string) {
    exists i :: 0 <= i < |t.outbox| && t.outbox[i].ExecutionRequested? && t.outbox[i].message == message
  }

  /** Exactly the succeeded executions have their batch and their completion record. */
  ghost predicate Settled(t: Tables) {
    forall m {:trigger HasRequest(t, m)} {:trigger HasBatch(t, m)} {:trigger HasCompletion(t, m)} ::
      m in t.executions ==>
      && HasRequest(t, m)
      && (t.executions[m].status == Succeeded <==> HasBatch(t, m))
      && (t.executions[m].status == Succeeded <==> HasCompletion(t, m))
  }

  ghost predicate DistinctIds(t: Tables) {
    forall m, m' :: m in t.executions && m' in t.executions && t.executions[m].id == t.executions[m'].id ==> m == m'
  }

  ghost predicate TablesInv(t: Tables) {
    && GapFree(t) && Tiled(t) && Attributed(t)
    && AtMostOnce(t) && Settled(t) && DistinctIds(t)
    && (forall m :: m in t.executions ==> t.executions[m].session in t.sessions)
    && (forall session :: session in t.leases ==> session in t.sessions)
  }

  // ----- What every state keeps: the workers and the history of batches -----

  ghost predicate EnvelopesTrue(s: State) {
    forall h :: h in s.handlings ==> EnvelopeTrue(s.t, s.handlings[h].envelope)
  }

  predicate EnvelopeTrue(t: Tables, e: Envelope) {
    && e.message in t.executions
    && t.executions[e.message].id == e.execution && t.executions[e.message].session == e.session
  }

  /** A grant is never newer than the lease row or the session row it was read from. */
  ghost predicate GrantsPast(s: State) {
    forall h :: h in s.handlings && HasGrant(s.handlings[h].phase) ==> GrantPast(s.t, s.handlings[h])
  }

  predicate GrantPast(t: Tables, x: Handling)
    requires HasGrant(x.phase)
  {
    && x.envelope.session in t.leases && x.phase.grant.token <= t.leases[x.envelope.session].token
    && x.envelope.session in t.sessions && x.phase.grant.version <= t.sessions[x.envelope.session]
  }

  /** A grant whose token has been committed can no longer match the session version. */
  ghost predicate SpentGrantsStale(s: State) {
    forall h, b :: h in s.handlings && b in s.batches && Spent(s.handlings[h], b) ==>
      b.session in s.t.sessions && s.handlings[h].phase.grant.version < s.t.sessions[b.session]
  }

  predicate Spent(x: Handling, b: Batch) {
    HasGrant(x.phase) && b.session == x.envelope.session && b.token == x.phase.grant.token
  }

  ghost predicate BatchesPast(s: State) {
    forall b :: b in s.batches ==>
      && b.session in s.t.leases && b.token <= s.t.leases[b.session].token
      && b.session in s.t.sessions && b.fromVersion < b.toVersion <= s.t.sessions[b.session]
  }

  /** Fencing: per session the batches are serial, with strictly increasing tokens. */
  ghost predicate Serial(batches: seq<Batch>) {
    forall i, j :: 0 <= i < j < |batches| && batches[i].session == batches[j].session ==>
      batches[i].token < batches[j].token && batches[i].toVersion <= batches[j].fromVersion
  }

  ghost predicate Inv(s: State) {
    && TablesInv(s.t) && EnvelopesTrue(s) && GrantsPast(s) && SpentGrantsStale(s)
    && BatchesPast(s) && Serial(s.batches)
  }

  // ----- What one transaction may do to the rows -----

  /** Later rows: nothing committed is ever taken back. */
  ghost predicate Extends(t: Tables, u: Tables) {
    && (forall session :: session in t.sessions ==>
          session in u.sessions && t.sessions[session] <= u.sessions[session])
    && (forall session :: session in t.leases ==>
          session in u.leases && t.leases[session].token <= u.leases[session].token)
    && (forall m :: m in t.executions ==>
          && m in u.executions
          && u.executions[m].(status := Pending) == t.executions[m].(status := Pending)
          && (t.executions[m].status == Succeeded ==> u.executions[m].status == Succeeded))
    && (forall k :: k in t.events ==> k in u.events && u.events[k] == t.events[k])
    && t.outbox <= u.outbox
  }

  lemma ExtendsTransitive(t: Tables, u: Tables, v: Tables)
    requires Extends(t, u) && Extends(u, v)
    ensures Extends(t, v)
  {}

  // ----- Submit -----

  /** One new execution row and its request record. */
  ghost predicate Inserting(t: Tables, sub: Submission, id: Uuid, u: Tables) {
    && sub.message !in t.executions && FreshId(t, id)
    && u.sessions == CreateSessionIfMissing(t.sessions, sub.session)
    && u.leases == t.leases && u.events == t.events
    && u.executions == t.executions[sub.message :=
         Execution(id, sub.session, sub.payloadHash, sub.subject, sub.memoryPolicy, Pending)]
    && u.outbox == t.outbox + [ExecutionRequested(sub.message, id, sub.session)]
  }

  lemma InsertOutcome(t: Tables, sub: Submission, admission: Admission, id: Uuid)
    requires FreshId(t, id)
    ensures var u := AdmitAndInsert(t, sub, admission, id).0;
      || u == t
      || u == t.(sessions := CreateSessionIfMissing(t.sessions, sub.session))
      || Inserting(t, sub, id, u)
  {}

  lemma InsertKeepsAtMostOnce(t: Tables, sub: Submission, id: Uuid, u: Tables)
    requires AtMostOnce(t) && Inserting(t, sub, id, u)
    ensures AtMostOnce(u)
  {
    assert forall i :: 0 <= i < |t.outbox| ==> u.outbox[i] == t.outbox[i];
    forall i, j | 0 <= i < |u.outbox| && 0 <= j < |u.outbox| && SameEffect(u.outbox[i], u.outbox[j])
      ensures i == j
    {
      assert i < |t.outbox| ==> MessageOf(t.outbox[i]) in t.executions;
      assert j < |t.outbox| ==> MessageOf(t.outbox[j]) in t.executions;
    }
  }

  lemma InsertKeepsRanges(t: Tables, sub: Submission, id: Uuid, u: Tables)
    requires GapFree(t) && Tiled(t) && Attributed(t) && Inserting(t, sub, id, u)
    ensures GapFree(u) && Tiled(u) && Attributed(u)
  {
    assert forall i :: 0 <= i < |t.outbox| ==> u.outbox[i] == t.outbox[i];
    AppendKeepsTiled(t, u, ExecutionRequested(sub.message, id, sub.session));
  }

  lemma InsertKeepsTables(t: Tables, sub: Submission, id: Uuid, u: Tables)
    requires TablesInv(t) && Inserting(t, sub, id, u)
    ensures TablesInv(u)
  {
    InsertKeepsRanges(t, sub, id, u);
    InsertKeepsAtMostOnce(t, sub, id, u);
    InsertKeepsSettled(t, u, sub.message, ExecutionRequested(sub.message, id, sub.session));
  }

  lemma NewSessionKeepsTables(t: Tables, session: string, u: Tables)
    requires TablesInv(t) && u == t.(sessions := CreateSessionIfMissing(t.sessions, session))
    ensures TablesInv(u)
  {
    SameOutboxSettled(t, u);
  }

  lemma SubmitKeepsTables(t: Tables, sub: Submission, admission: Admission, id: Uuid)
    requires TablesInv(t) && FreshId(t, id)
    ensures TablesInv(AdmitAndInsert(t, sub, admission, id).0)
  {
    var u := AdmitAndInsert(t, sub, admission, id).0;
    InsertOutcome(t, sub, admission, id);
    if u == t {
    } else if Inserting(t, sub, id, u) {
      InsertKeepsTables(t, sub, id, u);
    } else {
      NewSessionKeepsTables(t, sub.session, u);
    }
  }

  lemma SameOutboxSettled(t: Tables, u: Tables)
    requires Settled(t) && u.outbox == t.outbox && u.executions == t.executions
    ensures Settled(u)
  {
    forall m | m in u.executions
      ensures HasRequest(u, m) && (HasBatch(u, m) <==> HasBatch(t, m)) && (HasCompletion(u, m) <==> HasCompletion(t, m))
    {
      assert HasRequest(t, m);
    }
  }

  lemma StaysCovered(t: Tables, u: Tables, session: string, n: nat)
    requires Covered(t, session, n) && t.outbox <= u.outbox
    ensures Covered(u, session, n)
  {
    var i :| 0 <= i < |t.outbox| && Covers(t.outbox[i], session, n);
    assert u.outbox[i] == t.outbox[i];
  }

  lemma AppendKeepsTiled(t: Tables, u: Tables, record: OutboxRecord)
    requires Tiled(t) && !record.EventsCommitted?
    requires u.outbox == t.outbox + [record] && u.events == t.events
    requires forall session :: session in t.sessions ==> session in u.sessions && u.sessions[session] == t.sessions[session]
    ensures Tiled(u)
  {
    forall session, n | (session, n) in u.events ensures Covered(u, session, n) {
      StaysCovered(t, u, session, n);
    }
  }

  lemma InsertKeepsSettled(t: Tables, u: Tables, message: string, record: OutboxRecord)
    requires Settled(t) && AtMostOnce(t) && message !in t.executions
    requires record.ExecutionRequested? && record.message == message
    requires u.outbox == t.outbox + [record]
    requires u.executions.Keys == t.executions.Keys + {message} && u.executions[message].status == Pending
    requires forall m :: m in t.executions ==> u.executions[m] == t.executions[m]
    ensures Settled(u)
  {
    assert u.outbox[|t.outbox|] == record;
    forall m | m in u.executions
      ensures HasRequest(u, m)
      ensures m in t.executions ==> (HasBatch(u, m) <==> HasBatch(t, m)) && (HasCompletion(u, m) <==> HasCompletion(t, m))
      ensures m == message ==> !HasBatch(u, m) && !HasCompletion(u, m)
    {
      if m in t.executions {
        GrownOutbox(t, u, m);
      } else {
        forall i | 0 <= i < |u.outbox| && !u.outbox[i].ExecutionRequested?
          ensures u.outbox[i].cause != message
        {
          assert u.outbox[i] == t.outbox[i] && MessageOf(t.outbox[i]) in t.executions;
        }
      }
    }
  }

  /** Appending one request record changes nobody's batch or completion. */
  lemma GrownOutbox(t: Tables, u: Tables, m: string)
    requires |u.outbox| == |t.outbox| + 1 && t.outbox <= u.outbox && u.outbox[|t.outbox|].ExecutionRequested?
    ensures HasRequest(t, m) ==> HasRequest(u, m)
    ensures HasBatch(u, m) <==> HasBatch(t, m)
    ensures HasCompletion(u, m) <==> HasCompletion(t, m)
  {
    assert forall i :: 0 <= i < |t.outbox| ==> u.outbox[i] == t.outbox[i];
  }

  // ----- Leases and failures -----

  lemma FailureKeepsSettled(t: Tables, id: Uuid)
    requires Settled(t)
    ensures Settled(MarkFailed(t, id))
  {
    var u := MarkFailed(t, id);
    forall m | m in u.executions
      ensures HasRequest(u, m) && (HasBatch(u, m) <==> HasBatch(t, m)) && (HasCompletion(u, m) <==> HasCompletion(t, m))
    {
      assert HasRequest(t, m);
    }
  }

  lemma FailureKeepsTables(t: Tables, id: Uuid)
    requires TablesInv(t)
    ensures TablesInv(MarkFailed(t, id))
  {
    FailureKeepsSettled(t, id);
  }

  lemma LeasesOnlyKeepTables(t: Tables, u: Tables)
    requires TablesInv(t) && u == t.(leases := u.leases)
    requires forall session :: session in u.leases ==> session in t.sessions
    requires forall session :: session in t.leases ==>
      session in u.leases && t.leases[session].token <= u.leases[session].token
    ensures TablesInv(u)
  {
    SameOutboxSettled(t, u);
  }

  // ----- Commit -----

  /** The commit went through: what the request must have been, and what the rows are now. */
  lemma FinishOutcome(t: Tables, c: CommitRequest, now: int)
    requires FinishExecution(t, c, now).1.Ok? && FinishExecution(t, c, now).1.value.Some?
    ensures HoldsLease(t, c.session, c.owner, c.token, now)
    ensures c.events != [] && c.key in t.executions && t.executions[c.key].status != Succeeded
    ensures c.session in t.sessions && t.sessions[c.session] == c.expectedVersion
    ensures var version := c.expectedVersion + |c.events|; var u := FinishExecution(t, c, now).0;
      && FinishExecution(t, c, now).1.value.value == version
      && u.leases == t.leases && u.sessions == t.sessions[c.session := version]
      && u.events == t.events + BatchRows(c.session, c.expectedVersion, c.execution, c.events)
      && u.outbox == t.outbox + [EventsCommitted(c.key, c.execution, c.session, c.expectedVersion, version),
                                 ExecutionCompleted(c.key, c.execution, c.session)]
      && u.executions == SetStatus(t.executions, c.execution, {Pending, Succeeded, Failed}, Succeeded)
  {}

  ghost predicate Committing(t: Tables, c: CommitRequest, u: Tables) {
    && c.events != [] && c.key in t.executions && t.executions[c.key].status != Succeeded
    && t.executions[c.key].id == c.execution && t.executions[c.key].session == c.session
    && c.session in t.sessions && t.sessions[c.session] == c.expectedVersion
    && u.leases == t.leases && u.sessions == t.sessions[c.session := c.expectedVersion + |c.events|]
    && u.events == t.events + BatchRows(c.session, c.expectedVersion, c.execution, c.events)
    && u.outbox == t.outbox + [
         EventsCommitted(c.key, c.execution, c.session, c.expectedVersion, c.expectedVersion + |c.events|),
         ExecutionCompleted(c.key, c.execution, c.session)]
    && u.executions == SetStatus(t.executions, c.execution, {Pending, Succeeded, Failed}, Succeeded)
  }

  lemma CommitKeepsGapFree(t: Tables, c: CommitRequest, u: Tables)
    requires GapFree(t) && Committing(t, c, u)
    ensures GapFree(u)
    ensures forall k :: k in t.events ==> k in u.events && u.events[k] == t.events[k]
  {
    BatchRowsAt(c.session, c.expectedVersion, c.execution, c.events);
  }

  lemma CommitKeepsOrder(t: Tables, c: CommitRequest, u: Tables)
    requires RangesWithin(t) && RangesOrdered(t) && Committing(t, c, u)
    ensures RangesWithin(u) && RangesOrdered(u)
  {
    assert forall i :: 0 <= i < |t.outbox| ==> u.outbox[i] == t.outbox[i];
  }

  lemma CommitKeepsCover(t: Tables, c: CommitRequest, u: Tables)
    requires RangesCover(t) && Committing(t, c, u)
    ensures RangesCover(u)
  {
    BatchRowsAt(c.session, c.expectedVersion, c.execution, c.events);
    forall session, n | (session, n) in u.events ensures Covered(u, session, n) {
      if (session, n) in t.events {
        StaysCovered(t, u, session, n);
      } else {
        assert Covers(u.outbox[|t.outbox|], session, n);
      }
    }
  }

  lemma CommitKeepsAttributed(t: Tables, c: CommitRequest, u: Tables)
    requires GapFree(t) && Tiled(t) && Attributed(t) && Committing(t, c, u)
    ensures Attributed(u)
  {
    BatchRowsAt(c.session, c.expectedVersion, c.execution, c.events);
    forall i, n: nat | 0 <= i < |u.outbox| && u.outbox[i].EventsCommitted? && Covers(u.outbox[i], u.outbox[i].session, n)
      ensures (u.outbox[i].session, n) in u.events
        && u.events[(u.outbox[i].session, n)].execution == u.outbox[i].execution
    {
      if i < |t.outbox| {
        assert u.outbox[i] == t.outbox[i];
        assert (t.outbox[i].session, n) in t.events;
      }
    }
  }

  lemma CommitKeepsAtMostOnce(t: Tables, c: CommitRequest, u: Tables)
    requires AtMostOnce(t) && Settled(t) && Committing(t, c, u)
    ensures AtMostOnce(u)
  {
    assert !HasBatch(t, c.key) && !HasCompletion(t, c.key);
    assert forall i :: 0 <= i < |t.outbox| ==> u.outbox[i] == t.outbox[i];
    forall i, j | 0 <= i < |u.outbox| && 0 <= j < |u.outbox| && SameEffect(u.outbox[i], u.outbox[j])
      ensures i == j
    {
      assert i < |t.outbox| ==> !SameEffect(t.outbox[i], u.outbox[|t.outbox|]) && !SameEffect(t.outbox[i], u.outbox[|t.outbox| + 1]);
      assert j < |t.outbox| ==> !SameEffect(t.outbox[j], u.outbox[|t.outbox|]) && !SameEffect(t.outbox[j], u.outbox[|t.outbox| + 1]);
    }
  }

  lemma CommitKeepsSettled(t: Tables, c: CommitRequest, u: Tables)
    requires Settled(t) && DistinctIds(t) && Committing(t, c, u)
    ensures Settled(u)
  {
    var n := |t.outbox|;
    assert forall i :: 0 <= i < n ==> u.outbox[i] == t.outbox[i];
    forall m | m in u.executions
      ensures HasRequest(u, m)
      ensures HasBatch(u, m) <==> HasBatch(t, m) || m == c.key
      ensures HasCompletion(u, m) <==> HasCompletion(t, m) || m == c.key
    {
      assert HasRequest(t, m);
      assert u.outbox[n].EventsCommitted? && u.outbox[n + 1].ExecutionCompleted?;
    }
  }

  lemma CommitKeepsTables(t: Tables, c: CommitRequest, u: Tables)
    requires TablesInv(t) && Committing(t, c, u)
    ensures TablesInv(u)
  {
    CommitKeepsGapFree(t, c, u);
    CommitKeepsOrder(t, c, u);
    CommitKeepsCover(t, c, u);
    CommitKeepsAttributed(t, c, u);
    CommitKeepsAtMostOnce(t, c, u);
    CommitKeepsSettled(t, c, u);
  }

  // ----- One action -----

  lemma BatchIsNew(t: Tables, c: CommitRequest)
    requires GapFree(t) && c.session in t.sessions && t.sessions[c.session] == c.expectedVersion
    ensures var events := t.events + BatchRows(c.session, c.expectedVersion, c.execution, c.events);
      forall k :: k in t.events ==> k in events && events[k] == t.events[k]
  {
    BatchRowsAt(c.session, c.expectedVersion, c.execution, c.events);
  }

  lemma CommitExtends(t: Tables, c: CommitRequest, now: int)
    requires GapFree(t) && FinishExecution(t, c, now).0 != t
    ensures Extends(t, FinishExecution(t, c, now).0)
  {
    FinishOutcome(t, c, now);
    BatchIsNew(t, c);
  }

  lemma SubmitExtends(t: Tables, sub: Submission, admission: Admission, id: Uuid)
    requires FreshId(t, id)
    ensures Extends(t, AdmitAndInsert(t, sub, admission, id).0)
  {
    InsertOutcome(t, sub, admission, id);
  }

  lemma LeaseExtends(t: Tables, u: Tables)
    requires u == t.(leases := u.leases)
    requires forall session :: session in t.leases ==>
      session in u.leases && t.leases[session].token <= u.leases[session].token
    ensures Extends(t, u)
  {}

  /** Nothing committed is taken back by any action. */
  lemma StepExtends(s: State, a: Action)
    requires GapFree(s.t)
    ensures Extends(s.t, Step(s, a).t)
  {
    var u := Step(s, a).t;
    match a
    case Submit(sub, admission, id) =>
      if FreshId(s.t, id) { SubmitExtends(s.t, sub, admission, id); }
    case Commit(h, user, reply, now) =>
      if u != s.t { CommitExtends(s.t, Request(s.handlings[h], user, reply), now); }
    case MarkExecutionFailed(h) =>
    case _ => LeaseExtends(s.t, u);
  }

  lemma LeaseStepKeepsTables(s: State, a: Action)
    requires TablesInv(s.t) && (a.AcquireLease? || a.RenewLease? || a.ReleaseLease?)
    ensures TablesInv(Step(s, a).t)
  {
    LeasesOnlyKeepTables(s.t, Step(s, a).t);
  }

  lemma CommitStepKeepsTables(s: State, a: Action)
    requires TablesInv(s.t) && EnvelopesTrue(s) && a.Commit?
    ensures TablesInv(Step(s, a).t)
  {
    var u := Step(s, a).t;
    if u != s.t {
      var c := Request(s.handlings[a.h], a.user, a.reply);
      FinishOutcome(s.t, c, a.now);
      assert Committing(s.t, c, u);
      CommitKeepsTables(s.t, c, u);
    }
  }

  lemma StepKeepsTables(s: State, a: Action)
    requires TablesInv(s.t) && EnvelopesTrue(s)
    ensures TablesInv(Step(s, a).t)
  {
    match a
    case Submit(sub, admission, id) =>
      if FreshId(s.t, id) { SubmitKeepsTables(s.t, sub, admission, id); }
    case MarkExecutionFailed(h) =>
      if Step(s, a).t != s.t { FailureKeepsTables(s.t, s.handlings[h].envelope.execution); }
    case Commit(_, _, _, _) => CommitStepKeepsTables(s, a);
    case AcquireLease(_, _, _) => LeaseStepKeepsTables(s, a);
    case RenewLease(_, _) => LeaseStepKeepsTables(s, a);
    case ReleaseLease(_, _, _) => LeaseStepKeepsTables(s, a);
    case _ =>
  }

  /** A handling keeps its envelope, and a new one takes it from a request record. */
  lemma StepEnvelope(s: State, a: Action, h: nat)
    requires h in Step(s, a).handlings
    ensures h in s.handlings ==> Step(s, a).handlings[h].envelope == s.handlings[h].envelope
    ensures h !in s.handlings ==>
      && a.Deliver? && a.record < |s.t.outbox| && s.t.outbox[a.record].ExecutionRequested?
      && Step(s, a).t == s.t
      && Step(s, a).handlings[h].envelope == Envelope(
           s.t.outbox[a.record].message, s.t.outbox[a.record].execution, s.t.outbox[a.record].session)
  {}

  lemma StepKeepsEnvelopes(s: State, a: Action)
    requires AtMostOnce(s.t) && EnvelopesTrue(s) && Extends(s.t, Step(s, a).t)
    ensures EnvelopesTrue(Step(s, a))
  {
    var s' := Step(s, a);
    forall h | h in s'.handlings
      ensures EnvelopeTrue(s'.t, s'.handlings[h].envelope)
    {
      StepEnvelope(s, a, h);
      if h in s.handlings {
        assert EnvelopeTrue(s.t, s.handlings[h].envelope);
        ExtendsEnvelope(s.t, s'.t, s.handlings[h].envelope);
      } else {
        assert MessageOf(s.t.outbox[a.record]) in s.t.executions;
      }
    }
  }

  lemma ExtendsEnvelope(t: Tables, u: Tables, e: Envelope)
    requires Extends(t, u) && EnvelopeTrue(t, e)
    ensures EnvelopeTrue(u, e)
  {}

  /** The only way to a grant is an acquire that succeeds, and it reads the rows as they are. */
  lemma StepGrant(s: State, a: Action, h: nat)
    requires h in Step(s, a).handlings && HasGrant(Step(s, a).handlings[h].phase)
    ensures h in s.handlings && Step(s, a).handlings[h].envelope == s.handlings[h].envelope
    ensures var g, session := Step(s, a).handlings[h].phase.grant, s.handlings[h].envelope.session;
      if HasGrant(s.handlings[h].phase) then g == s.handlings[h].phase.grant
      else
        && session in Step(s, a).t.leases && g.token == Step(s, a).t.leases[session].token
        && session in Step(s, a).t.sessions && g.version == Step(s, a).t.sessions[session]
        && (session in s.t.leases ==> s.t.leases[session].token < g.token)
  {}

  lemma StepKeepsGrants(s: State, a: Action)
    requires GrantsPast(s) && Extends(s.t, Step(s, a).t)
    ensures GrantsPast(Step(s, a))
  {
    var s' := Step(s, a);
    forall h | h in s'.handlings && HasGrant(s'.handlings[h].phase)
      ensures GrantPast(s'.t, s'.handlings[h])
    {
      StepGrant(s, a, h);
      if HasGrant(s.handlings[h].phase) { assert GrantPast(s.t, s.handlings[h]); }
    }
  }

  /** A successful commit, seen from the history of batches. */
  lemma CommitStepOutcome(s: State, a: Action)
    requires a.Commit? && Step(s, a).batches != s.batches
    ensures a.h in s.handlings && s.handlings[a.h].phase.Renewed?
    ensures var x := s.handlings[a.h]; var session := x.envelope.session; var g := x.phase.grant;
      && session in s.t.leases && s.t.leases[session].token == g.token
      && session in s.t.sessions && s.t.sessions[session] == g.version
      && session in Step(s, a).t.sessions && Step(s, a).t.sessions[session] == g.version + 2
      && Step(s, a).t.leases == s.t.leases
      && Step(s, a).batches == s.batches + [Batch(session, g.token, x.envelope.message, g.version, g.version + 2)]
  {
    FinishOutcome(s.t, Request(s.handlings[a.h], a.user, a.reply), a.now);
  }

  lemma OtherStepsKeepBatches(s: State, a: Action)
    requires !a.Commit?
    ensures Step(s, a).batches == s.batches
  {}

  lemma StepKeepsBatches(s: State, a: Action)
    requires GrantsPast(s) && SpentGrantsStale(s) && BatchesPast(s) && Serial(s.batches)
    requires Extends(s.t, Step(s, a).t)
    ensures BatchesPast(Step(s, a)) && Serial(Step(s, a).batches)
  {
    var s' := Step(s, a);
    if s'.batches != s.batches {
      if !a.Commit? { OtherStepsKeepBatches(s, a); }
      CommitStepOutcome(s, a);
      var x := s.handlings[a.h];
      forall b | b in s.batches && b.session == x.envelope.session
        ensures b.token < x.phase.grant.token
      {
        assert !Spent(x, b);
      }
    }
  }

  lemma StepKeepsSpent(s: State, a: Action)
    requires GrantsPast(s) && SpentGrantsStale(s) && BatchesPast(s)
    requires Extends(s.t, Step(s, a).t)
    ensures SpentGrantsStale(Step(s, a))
  {
    var s' := Step(s, a);
    if a.Commit? && s'.batches != s.batches {
      CommitStepOutcome(s, a);
    } else if !a.Commit? {
      OtherStepsKeepBatches(s, a);
    }
    forall h, b | h in s'.handlings && b in s'.batches && Spent(s'.handlings[h], b)
      ensures b.session in s'.t.sessions && s'.handlings[h].phase.grant.version < s'.t.sessions[b.session]
    {
      StepGrant(s, a, h);
      if HasGrant(s.handlings[h].phase) {
        assert GrantPast(s.t, s.handlings[h]);
        assert b in s.batches ==> Spent(s.handlings[h], b);
      }
    }
  }

  lemma StepKeepsInv(s: State, a: Action)
    requires Inv(s)
    ensures Inv(Step(s, a))
  {
    StepExtends(s, a);
    StepKeepsTables(s, a);
    StepKeepsEnvelopes(s, a);
    StepKeepsGrants(s, a);
    StepKeepsBatches(s, a);
    StepKeepsSpent(s, a);
  }

  // ----- Whole runs -----

  /** Every reachable state satisfies the protocol invariant. */
  lemma {:induction false} RunKeepsInv(actions: seq<Action>)
    ensures Inv(Run(actions))
  {
    if actions != [] {
      RunKeepsInv(actions[..|actions| - 1]);
      StepKeepsInv(Run(actions[..|actions| - 1]), actions[|actions| - 1]);
    }
  }

  /** Rows only ever grow along a run. */
  lemma {:induction false} RunExtends(actions: seq<Action>, n: nat)
    requires n <= |actions|
    ensures Extends(Run(actions[..n]).t, Run(actions).t)
    decreases |actions| - n
  {
    if n == |actions| {
      assert actions[..n] == actions;
    } else {
      RunExtends(actions, n + 1);
      assert actions[..n + 1][..n] == actions[..n];
      RunKeepsInv(actions[..n]);
      StepExtends(Run(actions[..n]), actions[n]);
      ExtendsTransitive(Run(actions[..n]).t, Run(actions[..n + 1]).t, Run(actions).t);
    }
  }
}
