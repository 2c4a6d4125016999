/**
One tenant's rows of the session tables, and every transaction that writes them as a
function from the rows before to the rows after.  A raised error rolls the transaction
back, so the functions then return the rows they were given.
*/
module SessionTables {
  import opened Prelude

  type Uuid = nat

  datatype Status = Pending | Succeeded | Failed

  datatype Lease = Lease(owner: string, token: nat, expiresAt: int)

  datatype Execution = Execution(
    id: Uuid, session: string, payloadHash: string,
    subject: Option<string>, memoryPolicy: string, status: Status)

  /** The text the event carries, once the JSON payload has been looked into. */
  datatype SessionEvent = SessionEvent(kind: string, content: Option<string>)

  datatype EventRow = EventRow(execution: Uuid, event: SessionEvent)

  datatype OutboxRecord =
    | ExecutionRequested(message: string, execution: Uuid, session: string)
    | EventsCommitted(cause: string, execution: Uuid, session: string, fromVersion: nat, toVersion: nat)
    | ExecutionCompleted(cause: string, execution: Uuid, session: string)

  /** `executions` is keyed by message id, `events` by session and sequence. */
  datatype Tables = Tables(
    sessions: map<string, nat>,
    leases: map<string, Lease>,
    executions: map<string, Execution>,
    events: map<(string, nat), EventRow>,
    outbox: seq<OutboxRecord>)

  const EMPTY := Tables(map[], map[], map[], map[], [])

  datatype Submission = Submission(
    message: string, session: string, subject: Option<string>, memoryPolicy: string, payloadHash: string)

  datatype Admission = Allowed | Denied(reason: string)

  datatype Receipt = Accepted(execution: Uuid) | Deduplicated(execution: Uuid)

  datatype Error =
    | PayloadConflict
    | NotAdmitted(reason: string)
    | OwnerInvalid
    | SessionNotFound
    | LeaseHeld(holder: string)
    | LeaseInvalid
    | NoEvents
    | ExecutionNotFound
    | VersionConflict
    | SequenceTaken

  datatype Grant = Grant(token: nat, version: nat)

  /** What a worker is asked to commit, and under which claims. */
  datatype CommitRequest = CommitRequest(
    session: string, owner: string, token: nat, expectedVersion: nat,
    execution: Uuid, key: string, events: seq<SessionEvent>)

  // ----- agent_gateway.py -----

  /** The idempotency look-up: None when the message id is unknown. */
  function Deduplicate(t: Tables, sub: Submission): Option<Result<Receipt, Error>> {
    if sub.message !in t.executions then None
    else if t.executions[sub.message].payloadHash != sub.payloadHash then Some(Err(PayloadConflict))
    else Some(Ok(Deduplicated(t.executions[sub.message].id)))
  }

  function CreateSessionIfMissing(sessions: map<string, nat>, session: string): map<string, nat> {
    if session in sessions then sessions else sessions[session := 0]
  }

  /**
  The part of `submit` after the first look-up.  Other submissions may have committed since
  that look-up, so the rows are arbitrary here.
  */
  function AdmitAndInsert(t: Tables, sub: Submission, admission: Admission, id: Uuid)
    : (Tables, Result<Receipt, Error>)
  {
    var duplicate := Deduplicate(t, sub);
    match admission
    case Denied(reason) =>
      (t, if duplicate.Some? then duplicate.value else Err(NotAdmitted(reason)))
    case Allowed =>
      var sessions := CreateSessionIfMissing(t.sessions, sub.session);
      if duplicate.Some? then
        (if duplicate.value.Ok? then t.(sessions := sessions) else t, duplicate.value)
      else
        var row := Execution(id, sub.session, sub.payloadHash, sub.subject, sub.memoryPolicy, Pending);
        (t.(sessions := sessions,
            executions := t.executions[sub.message := row],
            outbox := t.outbox + [ExecutionRequested(sub.message, id, sub.session)]),
         Ok(Accepted(id)))
  }

  // ----- sessions.py -----

  function Acquire(t: Tables, session: string, owner: string, now: int, ttl: nat)
    : (Tables, Result<Grant, Error>)
  {
    if !(1 <= |owner| <= 256) then (t, Err(OwnerInvalid))
    else if session !in t.sessions then (t, Err(SessionNotFound))
    else if session in t.leases && now < t.leases[session].expiresAt && t.leases[session].owner != owner then
      (t, Err(LeaseHeld(t.leases[session].owner)))
    else
      var token := if session in t.leases then t.leases[session].token + 1 else 1;
      (t.(leases := t.leases[session := Lease(owner, token, now + ttl)]),
       Ok(Grant(token, t.sessions[session])))
  }

  /** The lease is the caller's, under this very token, and still running. */
  predicate HoldsLease(t: Tables, session: string, owner: string, token: nat, now: int) {
    && session in t.leases
    && t.leases[session].owner == owner
    && t.leases[session].token == token
    && now < t.leases[session].expiresAt
  }

  /** The interval bound to the statement is the token itself, in seconds, not the lease TTL. */
  function Renew(t: Tables, session: string, owner: string, token: nat, now: int): (Tables, Result<(), Error>) {
    if HoldsLease(t, session, owner, token, now)
    then (t.(leases := t.leases[session := t.leases[session].(expiresAt := now + token)]), Ok(()))
    else (t, Err(LeaseInvalid))
  }

  function Release(t: Tables, session: string, owner: string, now: int): Tables {
    if session in t.leases && t.leases[session].owner == owner
    then t.(leases := t.leases[session := t.leases[session].(expiresAt := now)])
    else t
  }

  /** The rows of one batch, at the sequence numbers after `version`. */
  function BatchRows(session: string, version: nat, execution: Uuid, events: seq<SessionEvent>)
    : map<(string, nat), EventRow>
  {
    if events == [] then map[]
    else
      BatchRows(session, version, execution, events[..|events| - 1])
      [(session, version + |events|) := EventRow(execution, events[|events| - 1])]
  }

  predicate SequenceFree(t: Tables, session: string, version: nat, count: nat) {
    forall n {:trigger (session, n) in t.events} :: version < n <= version + count ==> (session, n) !in t.events
  }

  /** Ok(None) means the execution already committed under this key. */
  function CommitSessionEvents(t: Tables, c: CommitRequest, now: int): (Tables, Result<Option<nat>, Error>) {
    if c.events == [] then (t, Err(NoEvents))
    else if c.key !in t.executions then (t, Err(ExecutionNotFound))
    else if t.executions[c.key].status == Succeeded then (t, Ok(None))
    else if !HoldsLease(t, c.session, c.owner, c.token, now) then (t, Err(LeaseInvalid))
    else if c.session !in t.sessions then (t, Err(SessionNotFound))
    else if t.sessions[c.session] != c.expectedVersion then (t, Err(VersionConflict))
    else if !SequenceFree(t, c.session, c.expectedVersion, |c.events|) then (t, Err(SequenceTaken))
    else
      var version := c.expectedVersion + |c.events|;
      (t.(events := t.events + BatchRows(c.session, c.expectedVersion, c.execution, c.events),
          sessions := t.sessions[c.session := version],
          outbox := t.outbox + [EventsCommitted(c.key, c.execution, c.session, c.expectedVersion, version)]),
       Ok(Some(version)))
  }

  // ----- agent_worker.py -----

  /** UPDATE ... SET status WHERE id = `id` AND status is in `from`. */
  function SetStatus(executions: map<string, Execution>, id: Uuid, from: set<Status>, status: Status)
    : map<string, Execution>
  {
    map m | m in executions ::
      if executions[m].id == id && executions[m].status in from
      then executions[m].(status := status) else executions[m]
  }

  /** The worker's last transaction: the event commit, the status and the completion record. */
  function FinishExecution(t: Tables, c: CommitRequest, now: int): (Tables, Result<Option<nat>, Error>) {
    var (committed, outcome) := CommitSessionEvents(t, c, now);
    if outcome.Ok? && outcome.value.Some? then
      (committed.(
         executions := SetStatus(committed.executions, c.execution, {Pending, Succeeded, Failed}, Succeeded),
         outbox := committed.outbox + [ExecutionCompleted(c.key, c.execution, c.session)]),
       outcome)
    else (committed, outcome)
  }

  function MarkFailed(t: Tables, id: Uuid): Tables {
    t.(executions := SetStatus(t.executions, id, {Pending}, Failed))
  }

  lemma {:induction false} BatchRowsAt(session: string, version: nat, execution: Uuid, events: seq<SessionEvent>)
    ensures forall k :: k in BatchRows(session, version, execution, events) <==>
      k.0 == session && version < k.1 <= version + |events|
    ensures forall n :: version < n <= version + |events| ==>
      BatchRows(session, version, execution, events)[(session, n)] == EventRow(execution, events[n - version - 1])
  {
    if events != [] {
      BatchRowsAt(session, version, execution, events[..|events| - 1]);
    }
  }
}
