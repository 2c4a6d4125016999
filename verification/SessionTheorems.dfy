/** What the session protocol promises over every run. */
module SessionTheorems {
  import opened Prelude
  import opened SessionTables
  import opened SessionProtocol

  datatype Effect = Requested | Committed | Completed

  predicate IsEffect(r: OutboxRecord, effect: Effect, message: string) {
    match effect
    case Requested => r.ExecutionRequested? && r.message == message
    case Committed => r.EventsCommitted? && r.cause == message
    case Completed => r.ExecutionCompleted? && r.cause == message
  }

  /** How often an effect of a message is recorded. */
  function Count(outbox: seq<OutboxRecord>, effect: Effect, message: string): nat {
    if outbox == [] then 0
    else
      Count(outbox[..|outbox| - 1], effect, message)
      + if IsEffect(outbox[|outbox| - 1], effect, message) then 1 else 0
  }

  lemma {:induction false} CountNone(outbox: seq<OutboxRecord>, effect: Effect, message: string)
    requires forall i :: 0 <= i < |outbox| ==> !IsEffect(outbox[i], effect, message)
    ensures Count(outbox, effect, message) == 0
  {
    if outbox != [] { CountNone(outbox[..|outbox| - 1], effect, message); }
  }

  lemma {:induction false} CountOne(outbox: seq<OutboxRecord>, effect: Effect, message: string, at: nat)
    requires at < |outbox|
    requires forall i :: 0 <= i < |outbox| ==> (IsEffect(outbox[i], effect, message) <==> i == at)
    ensures Count(outbox, effect, message) == 1
  {
    var front := outbox[..|outbox| - 1];
    if at == |outbox| - 1 {
      CountNone(front, effect, message);
    } else {
      CountOne(front, effect, message, at);
    }
  }

  lemma CountPresent(t: Tables, effect: Effect, message: string, at: nat)
    requires AtMostOnce(t) && at < |t.outbox| && IsEffect(t.outbox[at], effect, message)
    ensures Count(t.outbox, effect, message) == 1
  {
    forall i | 0 <= i < |t.outbox|
      ensures IsEffect(t.outbox[i], effect, message) <==> i == at
    {
      assert IsEffect(t.outbox[i], effect, message) ==> SameEffect(t.outbox[i], t.outbox[at]);
    }
    CountOne(t.outbox, effect, message, at);
  }

  /**
  Exactly-once effect.  After any run, a known message has one request record, and one
  committed batch and one completion record exactly when its execution succeeded; an
  unknown message has none of them.
  */
  lemma ExactlyOnceEffect(actions: seq<Action>, message: string)
    ensures var t := Run(actions).t;
      && (message in t.executions ==>
            var times := if t.executions[message].status == Succeeded then 1 else 0;
            && Count(t.outbox, Requested, message) == 1
            && Count(t.outbox, Committed, message) == times
            && Count(t.outbox, Completed, message) == times)
      && (message !in t.executions ==> forall effect :: Count(t.outbox, effect, message) == 0)
  {
    RunKeepsInv(actions);
    var t := Run(actions).t;
    if message in t.executions {
      assert HasRequest(t, message);
      var i :| 0 <= i < |t.outbox| && t.outbox[i].ExecutionRequested? && t.outbox[i].message == message;
      CountPresent(t, Requested, message, i);
      if t.executions[message].status == Succeeded {
        assert HasBatch(t, message) && HasCompletion(t, message);
        var j :| 0 <= j < |t.outbox| && t.outbox[j].EventsCommitted? && t.outbox[j].cause == message;
        CountPresent(t, Committed, message, j);
        var k :| 0 <= k < |t.outbox| && t.outbox[k].ExecutionCompleted? && t.outbox[k].cause == message;
        CountPresent(t, Completed, message, k);
      } else {
        assert !HasBatch(t, message) && !HasCompletion(t, message);
        CountNone(t.outbox, Committed, message);
        CountNone(t.outbox, Completed, message);
      }
    } else {
      forall effect ensures Count(t.outbox, effect, message) == 0 {
        assert forall i :: 0 <= i < |t.outbox| ==> MessageOf(t.outbox[i]) in t.executions;
        CountNone(t.outbox, effect, message);
      }
    }
  }

  /** A success is final, and a message keeps the execution it was first given. */
  lemma SuccessIsFinal(actions: seq<Action>, n: nat, message: string)
    requires n <= |actions| && message in Run(actions[..n]).t.executions
    ensures message in Run(actions).t.executions
    ensures Run(actions).t.executions[message].id == Run(actions[..n]).t.executions[message].id
    ensures Run(actions[..n]).t.executions[message].status == Succeeded ==>
      Run(actions).t.executions[message].status == Succeeded
  {
    RunExtends(actions, n);
  }

  /**
  Once a message is known, every later submission of it, admitted or not, gets the first
  execution or a payload conflict, and adds neither an execution nor an Outbox record.
  */
  lemma ResubmissionGetsFirst(actions: seq<Action>, n: nat, sub: Submission, admission: Admission, id: Uuid)
    requires n <= |actions| && sub.message in Run(actions[..n]).t.executions
    ensures var first := Run(actions[..n]).t.executions[sub.message];
      var t := Run(actions).t; var (u, outcome) := AdmitAndInsert(t, sub, admission, id);
      && outcome == (if sub.payloadHash == first.payloadHash then Ok(Deduplicated(first.id)) else Err(PayloadConflict))
      && u.executions == t.executions && u.outbox == t.outbox && u.events == t.events && u.leases == t.leases
  {
    RunExtends(actions, n);
    SameExecution(Run(actions[..n]).t, Run(actions).t, sub.message);
    DuplicateOutcome(Run(actions).t, sub, admission, id);
  }

  lemma SameExecution(t: Tables, u: Tables, message: string)
    requires Extends(t, u) && message in t.executions
    ensures message in u.executions
    ensures u.executions[message].id == t.executions[message].id && u.executions[message].payloadHash == t.executions[message].payloadHash
  {
    assert u.executions[message].(status := Pending) == t.executions[message].(status := Pending);
  }

  lemma DuplicateOutcome(t: Tables, sub: Submission, admission: Admission, id: Uuid)
    requires sub.message in t.executions
    ensures var first := t.executions[sub.message]; var (u, outcome) := AdmitAndInsert(t, sub, admission, id);
      && outcome == (if sub.payloadHash == first.payloadHash then Ok(Deduplicated(first.id)) else Err(PayloadConflict))
      && u.executions == t.executions && u.outbox == t.outbox && u.events == t.events && u.leases == t.leases
  {}

  /** What the commit asks for, exactly: a FAILED execution is not among the refusals. */
  lemma CommitsExactlyWhen(actions: seq<Action>, c: CommitRequest, now: int)
    ensures var t := Run(actions).t; var outcome := FinishExecution(t, c, now).1;
      outcome.Ok? && outcome.value.Some? <==>
      && c.events != [] && c.key in t.executions && t.executions[c.key].status != Succeeded
      && HoldsLease(t, c.session, c.owner, c.token, now) && c.session in t.sessions && t.sessions[c.session] == c.expectedVersion
  {
    RunKeepsInv(actions);
  }

  /**
  So a failure is not final: whenever worker k has faulted on a message that worker h is
  about to commit, marking it FAILED first does not stop the commit.
  */
  lemma FailureIsNotFinal(actions: seq<Action>, s: State, h: nat, k: nat, user: Option<string>, reply: Option<string>, now: int)
    requires s == Run(actions) && h in s.handlings && k in s.handlings
    requires s.handlings[h].phase.Renewed? && s.handlings[k].phase == Faulted
    requires s.handlings[k].envelope == s.handlings[h].envelope
    requires var x := s.handlings[h]; var session, g := x.envelope.session, x.phase.grant;
      && HoldsLease(s.t, session, x.owner, g.token, now)
      && session in s.t.sessions && s.t.sessions[session] == g.version
      && x.envelope.message in s.t.executions && s.t.executions[x.envelope.message].status == Pending
    ensures var message := s.handlings[h].envelope.message;
      var failed := Step(s, MarkExecutionFailed(k));
      var finished := Step(failed, Commit(h, user, reply, now));
      && message in failed.t.executions && failed.t.executions[message].status == Failed
      && message in finished.t.executions && finished.t.executions[message].status == Succeeded
  {
    RunKeepsInv(actions);
    var failed := Step(s, MarkExecutionFailed(k));
    var x := s.handlings[h];
    assert EnvelopeTrue(s.t, x.envelope);
    assert failed.handlings[h] == x;
    FailureMarks(s.t, x.envelope.execution, x.envelope.message);
    CommitGoesThrough(failed.t, Request(x, user, reply), now);
  }

  /**
  After any run, marking an execution as failed changes that one row, and only if it is
  PENDING: a success is never overwritten, and no other message is touched.
  */
  lemma FailureTouchesOne(actions: seq<Action>, message: string)
    requires message in Run(actions).t.executions
    ensures var t := Run(actions).t; var x := t.executions[message]; var u := MarkFailed(t, x.id);
      && u == t.(executions := u.executions) && u.executions.Keys == t.executions.Keys
      && u.executions[message] == (if x.status == Pending then x.(status := Failed) else x)
      && forall m :: m in t.executions && m != message ==> u.executions[m] == t.executions[m]
  {
    RunKeepsInv(actions);
    OnlyRowOf(Run(actions).t, message);
  }

  lemma OnlyRowOf(t: Tables, message: string)
    requires DistinctIds(t) && message in t.executions
    ensures var x := t.executions[message]; var u := MarkFailed(t, x.id);
      && u == t.(executions := u.executions) && u.executions.Keys == t.executions.Keys
      && u.executions[message] == (if x.status == Pending then x.(status := Failed) else x)
      && forall m :: m in t.executions && m != message ==> u.executions[m] == t.executions[m]
  {}

  lemma FailureMarks(t: Tables, id: Uuid, message: string)
    requires GapFree(t) && message in t.executions && t.executions[message].id == id && t.executions[message].status == Pending
    ensures var u := MarkFailed(t, id);
      && GapFree(u) && message in u.executions && u.executions[message] == t.executions[message].(status := Failed)
      && u.leases == t.leases && u.sessions == t.sessions
  {}

  lemma CommitGoesThrough(t: Tables, c: CommitRequest, now: int)
    requires GapFree(t) && c.events != [] && c.key in t.executions && t.executions[c.key].status == Failed
    requires t.executions[c.key].id == c.execution && HoldsLease(t, c.session, c.owner, c.token, now)
    requires c.session in t.sessions && t.sessions[c.session] == c.expectedVersion
    ensures var u := FinishExecution(t, c, now).0; c.key in u.executions && u.executions[c.key].status == Succeeded
  {}

  // ----- Two workers on one message -----

  /** One submitted message and two deliveries of it, in the given phases. */
  function Racing(sub: Submission, id: Uuid, a: string, b: string, leases: map<string, Lease>, p: Phase, q: Phase): State {
    var envelope := Envelope(sub.message, id, sub.session);
    State(Tables(map[sub.session := 0], leases,
                 map[sub.message := Execution(id, sub.session, sub.payloadHash, sub.subject, sub.memoryPolicy, Pending)],
                 map[], [ExecutionRequested(sub.message, id, sub.session)]),
          map[0 := Handling(envelope, a, p), 1 := Handling(envelope, b, q)], [])
  }

  lemma {:induction false} RunMore(actions: seq<Action>, a: Action)
    ensures Run(actions + [a]) == Step(Run(actions), a)
  {
    assert (actions + [a])[..|actions|] == actions;
  }

  /** The first worker holds a renewed lease while the second, delivered the same message, has faulted. */
  function RaceRun(sub: Submission, id: Uuid, a: string, b: string): seq<Action> {
    [] + [Submit(sub, Allowed, id)] + [Deliver(0, 0, a)] + [Deliver(1, 0, b)] + [FaultBeforeCommit(1)]
    + [CheckStatus(0)] + [AcquireLease(0, 0, 10)] + [RenewLease(0, 0)]
  }

  lemma RaceDelivers(sub: Submission, id: Uuid, a: string, b: string)
    ensures Run([] + [Submit(sub, Allowed, id)] + [Deliver(0, 0, a)] + [Deliver(1, 0, b)])
         == Racing(sub, id, a, b, map[], Delivered, Delivered)
  {
    RunMore([], Submit(sub, Allowed, id));
    RunMore([] + [Submit(sub, Allowed, id)], Deliver(0, 0, a));
    RunMore([] + [Submit(sub, Allowed, id)] + [Deliver(0, 0, a)], Deliver(1, 0, b));
  }

  lemma RaceFaults(sub: Submission, id: Uuid, a: string, b: string)
    ensures Step(Racing(sub, id, a, b, map[], Delivered, Delivered), FaultBeforeCommit(1)) == Racing(sub, id, a, b, map[], Delivered, Faulted)
    ensures Step(Racing(sub, id, a, b, map[], Delivered, Faulted), CheckStatus(0)) == Racing(sub, id, a, b, map[], Checked, Faulted)
  {}

  lemma RaceAcquires(sub: Submission, id: Uuid, a: string, b: string)
    requires 1 <= |a| <= 256
    ensures Step(Racing(sub, id, a, b, map[], Checked, Faulted), AcquireLease(0, 0, 10))
         == Racing(sub, id, a, b, map[sub.session := Lease(a, 1, 10)], Leased(Grant(1, 0)), Faulted)
  {}

  lemma RaceRenews(sub: Submission, id: Uuid, a: string, b: string)
    ensures Step(Racing(sub, id, a, b, map[sub.session := Lease(a, 1, 10)], Leased(Grant(1, 0)), Faulted), RenewLease(0, 0))
         == Racing(sub, id, a, b, map[sub.session := Lease(a, 1, 1)], Renewed(Grant(1, 0)), Faulted)
  {}

  lemma RaceReaches(sub: Submission, id: Uuid, a: string, b: string)
    requires 1 <= |a| <= 256
    ensures Run(RaceRun(sub, id, a, b)) == Racing(sub, id, a, b, map[sub.session := Lease(a, 1, 1)], Renewed(Grant(1, 0)), Faulted)
  {
    RaceDelivers(sub, id, a, b);
    RaceFaults(sub, id, a, b);
    RaceAcquires(sub, id, a, b);
    RaceRenews(sub, id, a, b);
    var run := [] + [Submit(sub, Allowed, id)] + [Deliver(0, 0, a)] + [Deliver(1, 0, b)];
    RunMore(run, FaultBeforeCommit(1));
    RunMore(run + [FaultBeforeCommit(1)], CheckStatus(0));
    RunMore(run + [FaultBeforeCommit(1)] + [CheckStatus(0)], AcquireLease(0, 0, 10));
    RunMore(run + [FaultBeforeCommit(1)] + [CheckStatus(0)] + [AcquireLease(0, 0, 10)], RenewLease(0, 0));
  }

  /** The run in which the message is FAILED after the second worker's mark and SUCCEEDED after the first one's commit. */
  lemma FailedThenSucceeded(sub: Submission, id: Uuid, a: string, b: string, user: Option<string>, reply: Option<string>)
    requires 1 <= |a| <= 256
    ensures var failed := Run(RaceRun(sub, id, a, b) + [MarkExecutionFailed(1)]);
      var finished := Run(RaceRun(sub, id, a, b) + [MarkExecutionFailed(1)] + [Commit(0, user, reply, 0)]);
      && sub.message in failed.t.executions && failed.t.executions[sub.message].status == Failed
      && sub.message in finished.t.executions && finished.t.executions[sub.message].status == Succeeded
  {
    var run := RaceRun(sub, id, a, b);
    RaceReaches(sub, id, a, b);
    FailureIsNotFinal(run, Run(run), 0, 1, user, reply, 0);
    RunMore(run, MarkExecutionFailed(1));
    RunMore(run + [MarkExecutionFailed(1)], Commit(0, user, reply, 0));
  }

  // ----- Fencing -----

  /** Batches written after a moment extend the session and the lease as they stood at it. */
  lemma {:induction false} LaterBatches(actions: seq<Action>, n: nat)
    requires n <= |actions|
    ensures Run(actions[..n]).batches <= Run(actions).batches
    ensures var s := Run(actions[..n]); var b := Run(actions).batches;
      forall i :: |s.batches| <= i < |b| ==>
        && (b[i].session in s.t.sessions ==> s.t.sessions[b[i].session] <= b[i].fromVersion)
        && (b[i].session in s.t.leases ==> s.t.leases[b[i].session].token <= b[i].token)
    decreases |actions| - n
  {
    if n == |actions| {
      assert actions[..n] == actions;
    } else {
      var front, last := actions[..|actions| - 1], actions[|actions| - 1];
      LaterBatchesFront(actions, n);
      RunExtends(front, n);
      assert front[..n] == actions[..n];
      if last.Commit? && Run(actions).batches != Run(front).batches {
        CommitStepOutcome(Run(front), last);
      } else if !last.Commit? {
        OtherStepsKeepBatches(Run(front), last);
      }
    }
  }

  lemma {:induction false} LaterBatchesFront(actions: seq<Action>, n: nat)
    requires n < |actions|
    ensures var front := actions[..|actions| - 1]; var s := Run(actions[..n]); var b := Run(front).batches;
      && s.batches <= b
      && forall i :: |s.batches| <= i < |b| ==>
        && (b[i].session in s.t.sessions ==> s.t.sessions[b[i].session] <= b[i].fromVersion)
        && (b[i].session in s.t.leases ==> s.t.leases[b[i].session].token <= b[i].token)
    decreases |actions| - n, 0
  {
    var front := actions[..|actions| - 1];
    LaterBatches(front, n);
    assert front[..n] == actions[..n];
  }

  /** Per session, batch tokens strictly increase, so one grant commits at most once. */
  lemma TokensStrictlyIncrease(actions: seq<Action>, i: nat, j: nat)
    requires i < j < |Run(actions).batches|
    requires Run(actions).batches[i].session == Run(actions).batches[j].session
    ensures Run(actions).batches[i].token < Run(actions).batches[j].token
  {
    RunKeepsInv(actions);
  }

  /** An acquire that succeeds outdates every grant and every batch of the session so far. */
  lemma AcquireOutdates(actions: seq<Action>, h: nat, now: int, ttl: nat)
    requires var s := Run(actions);
      h in s.handlings && s.handlings[h].phase == Checked && Step(s, AcquireLease(h, now, ttl)).handlings[h].phase.Leased?
    ensures var s := Run(actions); var s' := Run(actions + [AcquireLease(h, now, ttl)]);
      var session := s.handlings[h].envelope.session;
      && h in s'.handlings && s'.handlings[h].phase.Leased? && session in s'.t.leases
      && s'.t.leases[session].token == s'.handlings[h].phase.grant.token
      && (forall k :: k in s.handlings && HasGrant(s.handlings[k].phase) && s.handlings[k].envelope.session == session ==>
            s.handlings[k].phase.grant.token < s'.t.leases[session].token)
      && (forall b :: b in s.batches && b.session == session ==> b.token < s'.t.leases[session].token)
  {
    RunKeepsInv(actions);
    var longer := actions + [AcquireLease(h, now, ttl)];
    assert longer[..|longer| - 1] == actions;
  }

  /** Once the lease has moved past a token, nothing commits under that token any more. */
  lemma OutdatedGrantsNeverCommit(actions: seq<Action>, n: nat, session: string, token: nat)
    requires n <= |actions|
    requires session in Run(actions[..n]).t.leases && token < Run(actions[..n]).t.leases[session].token
    ensures var later := Run(actions).batches;
      forall i :: |Run(actions[..n]).batches| <= i < |later| && later[i].session == session ==> later[i].token != token
  {
    LaterBatches(actions, n);
  }

  function Rank(p: Phase): nat {
    match p
    case Delivered => 0
    case Checked => 1
    case Leased(_) => 2
    case Renewed(_) => 3
    case Faulted => 4
    case Ended => 5
  }

  /** A handling only moves forward, and keeps its envelope and its grant. */
  ghost predicate Onward(x: Handling, y: Handling) {
    && x.envelope == y.envelope && x.owner == y.owner && Rank(x.phase) <= Rank(y.phase)
    && (HasGrant(x.phase) && HasGrant(y.phase) ==> x.phase.grant == y.phase.grant)
  }

  lemma StepOnward(s: State, a: Action, h: nat)
    requires h in s.handlings
    ensures h in Step(s, a).handlings && Onward(s.handlings[h], Step(s, a).handlings[h])
  {}

  lemma {:induction false} RunOnward(actions: seq<Action>, n: nat, h: nat)
    requires n <= |actions| && h in Run(actions[..n]).handlings
    ensures h in Run(actions).handlings && Onward(Run(actions[..n]).handlings[h], Run(actions).handlings[h])
    decreases |actions| - n
  {
    if n == |actions| {
      assert actions[..n] == actions;
    } else {
      assert actions[..n + 1][..n] == actions[..n];
      StepOnward(Run(actions[..n]), actions[n], h);
      RunOnward(actions, n + 1, h);
    }
  }

  /**
  From the moment a worker holds a grant to its own commit under it, no other batch is
  written to the session: the commit extends exactly the history the grant was read on.
  */
  lemma NoBatchBetweenGrantAndCommit(actions: seq<Action>, n: nat, h: nat, user: Option<string>, reply: Option<string>, now: int)
    requires n <= |actions| && h in Run(actions[..n]).handlings && HasGrant(Run(actions[..n]).handlings[h].phase)
    requires Step(Run(actions), Commit(h, user, reply, now)).batches != Run(actions).batches
    ensures var x := Run(actions[..n]).handlings[h]; var session := x.envelope.session;
      && session in Run(actions[..n]).t.sessions && session in Run(actions).t.sessions
      && Run(actions[..n]).t.sessions[session] == x.phase.grant.version == Run(actions).t.sessions[session]
      && forall i :: |Run(actions[..n]).batches| <= i < |Run(actions).batches| ==> Run(actions).batches[i].session != session
  {
    var a := Commit(h, user, reply, now);
    CommitStepOutcome(Run(actions), a);
    RunOnward(actions, n, h);
    RunKeepsInv(actions);
    RunKeepsInv(actions[..n]);
    RunExtends(actions, n);
    LaterBatches(actions, n);
  }

  // ----- The log -----

  /** The log of a session has no gap, and each event lies in exactly one committed range. */
  lemma LogTiled(actions: seq<Action>, session: string, n: nat)
    ensures var t := Run(actions).t;
      && ((session, n) in t.events <==> session in t.sessions && 1 <= n <= t.sessions[session])
      && ((session, n) in t.events <==> exists i :: 0 <= i < |t.outbox| && Covers(t.outbox[i], session, n))
      && (forall i, j :: 0 <= i < |t.outbox| && 0 <= j < |t.outbox| ==>
            Covers(t.outbox[i], session, n) && Covers(t.outbox[j], session, n) ==> i == j)
  {
    RunKeepsInv(actions);
    var t := Run(actions).t;
    forall i, j | 0 <= i < j < |t.outbox| && Covers(t.outbox[i], session, n)
      ensures !Covers(t.outbox[j], session, n)
    {
      assert Covers(t.outbox[j], session, n) ==> BothCommitted(t.outbox[i], t.outbox[j]);
    }
  }

  /** The unique-key error on an event row cannot occur, whatever the request. */
  lemma SequenceNeverTaken(actions: seq<Action>, c: CommitRequest, now: int)
    ensures CommitSessionEvents(Run(actions).t, c, now).1 != Err(SequenceTaken)
  {
    RunKeepsInv(actions);
  }
}
