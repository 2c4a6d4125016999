/**
The admin endpoints, the worker's run and the profile resolver as transactions on one
tenant's profile and migration tables.
*/
module MigrationStore {
  import opened Prelude
  import opened MigrationControl

  /** Rebuilds the state machine from a row and advances it. */
  method Ask(row: Migration, operation: Operation, valid: bool) returns (moved: Result<Phase, Error>)
    requires row.source != row.target
    ensures moved == Advance(row.phase, operation, valid)
  {
    var machine := new StateMachine(row.source, row.target, row.phase);
    moved := machine.AdvanceBy(operation, valid);
  }

  /** In a sound control plane a worker's phase is never refused, and keeps it sound. */
  lemma WorkSucceeds(p: Plane, m: Id, report: Report)
    requires Inv(p) && m in p.migrations && Working(p.migrations[m].phase)
    ensures Inv(OnMigration(p, m, Work(report)).0) && OnMigration(p, m, Work(report)).1.Ok?
  {
    var row := p.migrations[m];
    OnMigrationKeepsInv(p, m, Work(report));
    WorkKeeps(row, report);
    if EndsRollback(row, Work(report)) { MoveKeepsInv(p, m, WorkRow(row, report).value, row.target, row.source); }
  }

  class Tables {
    var profiles: map<Id, bool>
    var migrations: map<Id, Migration>
    ghost var latest: Option<Id>

    constructor ()
      ensures View() == INITIAL
    {
      profiles, migrations, latest := map[], map[], None;
    }

    ghost function View(): Plane
      reads this
    {
      Plane(profiles, migrations, latest)
    }

    /** The unique index on active profiles. */
    ghost predicate Indexed()
      reads this
    {
      AtMostOneActive(View())
    }

    /** The table's check that a migration joins two different profiles. */
    ghost predicate Distinct()
      reads this
    {
      forall m :: m in migrations ==> migrations[m].source != migrations[m].target
    }

    method FindActive() returns (active: Option<Id>)
      requires Indexed()
      ensures active == ActiveProfile(View())
    {
      if id :| id in profiles && profiles[id] {
        assert IsActive(View(), id);
        ActiveIs(View(), id);
        return Some(id);
      }
      assert forall id :: !IsActive(View(), id);
      return None;
    }

    method Create(id: Id, activate: bool) returns (outcome: Result<(), Error>)
      requires Indexed()
      modifies this
      ensures (View(), outcome) == CreateProfile(old(View()), id, activate)
    {
      if id in profiles { return Err(ProfileExists); }
      var active := FindActive();
      if activate && active.Some? { return Err(SecondActiveProfile); }
      profiles := profiles[id := activate];
      return Ok(());
    }

    method RequestMigration(m: Id, target: Id, subject: string, seconds: int) returns (outcome: Result<(), Error>)
      requires Indexed()
      modifies this
      ensures (View(), outcome) == Request(old(View()), m, target, subject, seconds)
    {
      if !(60 <= seconds <= 86400) { return Err(ObservationOutOfRange); }
      var source := FindActive();
      if source.None? || target !in profiles { return Err(ProfileNotFound); }
      if source.value == target || profiles[target] { return Err(InvalidProfiles); }
      if m in migrations || exists o | o in migrations :: Open(migrations[o].phase) { return Err(MigrationOpen); }
      migrations := migrations[m := NewRow(source.value, target, subject, seconds)];
      latest := Some(m);
      return Ok(());
    }

    method DecideApproval(m: Id, subject: string, approve: bool) returns (outcome: Result<(), Error>)
      modifies this
      ensures (View(), outcome) == OnMigration(old(View()), m, Decide(subject, approve))
    {
      if m !in migrations { return Err(NotFound); }
      var row := migrations[m];
      if !row.approval.Undecided? { return Err(AlreadyDecided); }
      if subject == row.requestedBy { return Err(SelfApproval); }
      var approval := if approve then Approved else Denied;
      var phase := if approve then Prepared else Failed;
      migrations := migrations[m := row.(phase := phase, approval := approval, approvedBy := Some(subject))];
      return Ok(());
    }

    method StartMigration(m: Id) returns (outcome: Result<(), Error>)
      requires Distinct()
      modifies this
      ensures (View(), outcome) == OnMigration(old(View()), m, Start)
    {
      if m !in migrations { return Err(NotFound); }
      var row := migrations[m];
      if !row.approval.Approved? { return Err(ApprovalRequired); }
      var moved := Ask(row, StartBackfill, false);
      if moved.Err? { return Err(moved.error); }
      migrations := migrations[m := row.(phase := moved.value)];
      return Ok(());
    }

    method CompleteMigration(m: Id, now: int) returns (outcome: Result<(), Error>)
      requires Distinct()
      modifies this
      ensures (View(), outcome) == OnMigration(old(View()), m, CompleteAt(now))
    {
      if m !in migrations { return Err(NotFound); }
      var row := migrations[m];
      if !row.approval.Approved? { return Err(ApprovalRequired); }
      if row.observationEndsAt.None? || row.observationEndsAt.value > now { return Err(ObservationRequired); }
      var moved := Ask(row, Complete, false);
      if moved.Err? { return Err(moved.error); }
      migrations := migrations[m := row.(phase := moved.value, completedAt := Some(now))];
      return Ok(());
    }

    /** The two updates that hand the active flag over; the unique index may refuse the second. */
    method HandOver(from: Id, to: Id) returns (outcome: Result<(), Error>)
      modifies this
      ensures migrations == old(migrations) && latest == old(latest)
      ensures match MoveActive(old(profiles), from, to)
              case Ok(moved) => outcome == Ok(()) && profiles == moved
              case Err(e) => outcome == Err(e)
    {
      if from in profiles { profiles := profiles[from := false]; }
      if to !in profiles { return Ok(()); }
      if exists other | other in profiles :: other != to && profiles[other] { return Err(SecondActiveProfile); }
      profiles := profiles[to := true];
      return Ok(());
    }

    method SwitchProfiles(m: Id, now: int) returns (outcome: Result<(), Error>)
      requires Distinct()
      modifies this
      ensures (View(), outcome) == SwitchMigration(old(View()), m, now)
    {
      if m !in migrations { return Err(NotFound); }
      var row := migrations[m];
      if !row.approval.Approved? { return Err(ApprovalRequired); }
      var moved := Ask(row, Switch, false);
      if moved.Err? { return Err(moved.error); }
      var before := profiles;
      var handed := HandOver(row.source, row.target);
      if handed.Err? {
        profiles := before;
        return handed;
      }
      migrations := migrations[m := row.(phase := moved.value, observationEndsAt := Some(now + row.observationSeconds),
                                         switchedAt := Some(now))];
      return Ok(());
    }

    method RequestRollbackApproval(m: Id, subject: string) returns (outcome: Result<(), Error>)
      modifies this
      ensures (View(), outcome) == OnMigration(old(View()), m, RequestRollback(subject))
    {
      if m !in migrations { return Err(NotFound); }
      var row := migrations[m];
      if !row.phase.Observing? { return Err(RollbackUnavailable); }
      if !row.rollbackApproval.NotRequested? { return Err(RollbackAlreadyRequested); }
      migrations := migrations[m := row.(rollbackApproval := RollbackPending,
                                         rollbackRequestedBy := Some(subject), rollbackApprovedBy := None)];
      return Ok(());
    }

    method DecideRollbackApproval(m: Id, subject: string, approve: bool) returns (outcome: Result<(), Error>)
      modifies this
      ensures (View(), outcome) == OnMigration(old(View()), m, DecideRollback(subject, approve))
    {
      if m !in migrations { return Err(NotFound); }
      var row := migrations[m];
      if !row.phase.Observing? { return Err(RollbackUnavailable); }
      if !row.rollbackApproval.RollbackPending? || row.rollbackRequestedBy == Some(subject) {
        return Err(RollbackApprovalDenied);
      }
      var decided := if approve then RollbackApproved else RollbackDenied;
      migrations := migrations[m := row.(rollbackApproval := decided, rollbackApprovedBy := Some(subject))];
      return Ok(());
    }

    method StartRollbackOf(m: Id) returns (outcome: Result<(), Error>)
      requires Distinct()
      modifies this
      ensures (View(), outcome) == OnMigration(old(View()), m, Rollback)
    {
      if m !in migrations { return Err(NotFound); }
      var row := migrations[m];
      if !row.rollbackApproval.RollbackApproved? { return Err(RollbackApprovalRequired); }
      var moved := Ask(row, StartRollback, false);
      if moved.Err? { return Err(moved.error); }
      migrations := migrations[m := row.(phase := moved.value)];
      return Ok(());
    }

    method StoreFailure(m: Id)
      requires m in migrations
      modifies this
      ensures profiles == old(profiles) && latest == old(latest)
      ensures migrations == old(migrations)[m := RecordFailure(old(migrations[m]))]
    {
      if !Fenced(migrations[m].phase) { migrations := migrations[m := migrations[m].(phase := Failed)]; }
    }

    /** One phase of the worker on the row it picked, given the executor's report. */
    method ExecutePhase(m: Id, report: Report) returns (outcome: Result<(), Error>)
      requires Distinct() && m in migrations && Working(migrations[m].phase)
      modifies this
      ensures (View(), outcome) == OnMigration(old(View()), m, Work(report))
    {
      var row := migrations[m];
      if report.Rejected? || (!row.phase.Backfilling? && !row.checkpoint) {
        StoreFailure(m);
        return Ok(());
      }
      var moved := Ask(row, WorkOperation(row.phase), true);
      if row.phase.RollbackValidating? {
        var before := profiles;
        var handed := HandOver(row.target, row.source);
        if handed.Err? {
          profiles := before;
          return handed;
        }
      }
      migrations := migrations[m := row.(phase := moved.value, checkpoint := true, validated := row.validated || row.phase.Validating?)];
      return Ok(());
    }

    /** One poll: no work exactly when no migration waits for the data plane. */
    method RunOnce(report: Report) returns (worked: bool, outcome: Result<(), Error>, ghost picked: Option<Id>)
      requires Distinct()
      modifies this
      ensures worked <==> exists m :: m in old(migrations) && Working(old(migrations)[m].phase)
      ensures worked <==> picked.Some?
      ensures View() == if worked then Step(old(View()), OnRow(picked.value, Work(report))) else old(View())
      ensures old(Inv(View())) ==> Inv(View()) && outcome.Ok?
    {
      if m :| m in migrations && Working(migrations[m].phase) {
        if Inv(View()) { WorkSucceeds(View(), m, report); }
        outcome := ExecutePhase(m, report);
        return true, outcome, Some(m);
      }
      return false, Ok(()), None;
    }

    /** The routing query. */
    method ResolveProfile() returns (profile: Option<Id>)
      requires Indexed()
      ensures profile == Resolve(View())
    {
      var active := FindActive();
      if active.None? { return None; }
      if m :| m in migrations && migrations[m].target == active.value
              && !(migrations[m].phase.Observing? || migrations[m].phase.Completed?) {
        assert Blocks(View(), m, active.value);
        return None;
      }
      assert forall m :: !Blocks(View(), m, active.value);
      return active;
    }
  }
}
