/**
The control plane of storage migrations for one tenant: profiles, migration rows, the admin
endpoints and the worker's phases, one transaction per action.
*/
module MigrationControl {
  import opened Prelude

  type Id = nat

  datatype Phase =
    | Prepared | Backfilling | CatchingUp | Validating | ReadyToSwitch | Observing
    | RollingBack | RollbackCatchingUp | RollbackValidating
    | Completed | RolledBack | Failed

  datatype Operation =
    | StartBackfill | BackfillComplete | CatchUpComplete | Validate | Switch | Complete
    | StartRollback | RollbackBackfillComplete | RollbackCatchUpComplete | RollbackValidate | Fail

  datatype Error =
    | IdenticalProfiles | InvalidTransition | ValidationFailed
    | ProfileNotFound | InvalidProfiles | ObservationOutOfRange | MigrationOpen | NotFound
    | AlreadyDecided | SelfApproval | ApprovalRequired | ObservationRequired
    | RollbackUnavailable | RollbackAlreadyRequested | RollbackApprovalDenied | RollbackApprovalRequired
    | SecondActiveProfile | ProfileExists

  // ----- storage_migration.py: the state machine -----

  function Transition(phase: Phase, operation: Operation): Option<Phase> {
    match (phase, operation)
    case (Prepared, StartBackfill) => Some(Backfilling)
    case (Backfilling, BackfillComplete) => Some(CatchingUp)
    case (CatchingUp, CatchUpComplete) => Some(Validating)
    case (Validating, Validate) => Some(ReadyToSwitch)
    case (ReadyToSwitch, Switch) => Some(Observing)
    case (Observing, Complete) => Some(Completed)
    case (Observing, StartRollback) => Some(RollingBack)
    case (RollingBack, RollbackBackfillComplete) => Some(RollbackCatchingUp)
    case (RollbackCatchingUp, RollbackCatchUpComplete) => Some(RollbackValidating)
    case (RollbackValidating, RollbackValidate) => Some(RolledBack)
    case _ => None
  }

  predicate BeforeSwitch(phase: Phase) {
    phase.Prepared? || phase.Backfilling? || phase.CatchingUp? || phase.Validating? || phase.ReadyToSwitch?
  }

  /** Neither side may be written. */
  predicate Fenced(phase: Phase) {
    phase.RollingBack? || phase.RollbackCatchingUp? || phase.RollbackValidating?
  }

  /** `valid` tells whether evidence was given and accepted. */
  function Advance(phase: Phase, operation: Operation, valid: bool): Result<Phase, Error> {
    if operation.Fail? && BeforeSwitch(phase) then Ok(Failed)
    else if Transition(phase, operation).None? then Err(InvalidTransition)
    else if operation.Validate? && !valid then Err(ValidationFailed)
    else Ok(Transition(phase, operation).value)
  }

  /** The sole profile that application code may write, given the phase. */
  function BusinessWriteProfile(source: Id, target: Id, phase: Phase): Option<Id> {
    if Fenced(phase) then None
    else if phase.Observing? || phase.Completed? then Some(target)
    else Some(source)
  }

  class StateMachine {
    const source: Id
    const target: Id
    var phase: Phase

    constructor (source: Id, target: Id, phase: Phase)
      requires source != target
      ensures this.source == source && this.target == target && this.phase == phase
    {
      this.source, this.target, this.phase := source, target, phase;
    }

    method AdvanceBy(operation: Operation, valid: bool) returns (outcome: Result<Phase, Error>)
      modifies this
      ensures outcome == Advance(old(phase), operation, valid)
      ensures phase == if outcome.Ok? then outcome.value else old(phase)
    {
      if operation.Fail? && BeforeSwitch(phase) {
        phase := Failed;
        return Ok(phase);
      }
      var next := Transition(phase, operation);
      if next.None? { return Err(InvalidTransition); }
      if operation.Validate? && !valid { return Err(ValidationFailed); }
      phase := next.value;
      return Ok(phase);
    }
  }

  // ----- The rows -----

  datatype Approval = Undecided | Approved | Denied

  datatype RollbackApproval = NotRequested | RollbackPending | RollbackApproved | RollbackDenied

  /**
  `checkpoint` is whether the worker has stored watermarks.  `switchedAt`, `completedAt`
  and `validated` are history: when the profile switch and the completion happened, and
  whether accepted evidence led to the phase.
  */
  datatype Migration = Migration(
    source: Id, target: Id, phase: Phase,
    approval: Approval, requestedBy: string, approvedBy: Option<string>,
    rollbackApproval: RollbackApproval, rollbackRequestedBy: Option<string>, rollbackApprovedBy: Option<string>,
    observationSeconds: int, observationEndsAt: Option<int>, checkpoint: bool,
    switchedAt: Option<int>, completedAt: Option<int>, validated: bool)

  /** `latest` is history: the migration requested last. */
  datatype Plane = Plane(profiles: map<Id, bool>, migrations: map<Id, Migration>, latest: Option<Id>)

  const INITIAL := Plane(map[], map[], None)

  predicate Open(phase: Phase) {
    !(phase.Completed? || phase.RolledBack? || phase.Failed?)
  }

  predicate IsActive(p: Plane, id: Id) {
    id in p.profiles && p.profiles[id]
  }

  ghost function ActiveProfile(p: Plane): Option<Id> {
    if exists id :: IsActive(p, id) then (var id :| IsActive(p, id); Some(id)) else None
  }

  /** The query workers route by. */
  ghost function Resolve(p: Plane): Option<Id> {
    var active := ActiveProfile(p);
    if active.Some? && !exists m :: Blocks(p, m, active.value) then active else None
  }

  /** A migration row that targets the profile and has neither switched to it nor completed. */
  predicate Blocks(p: Plane, m: Id, profile: Id) {
    && m in p.migrations && p.migrations[m].target == profile
    && !(p.migrations[m].phase.Observing? || p.migrations[m].phase.Completed?)
  }

  function SetRow(p: Plane, m: Id, row: Migration): Plane {
    p.(migrations := p.migrations[m := row])
  }

  // ----- The transactions -----

  /** A profile may be created active only while the tenant has no active one. */
  ghost function CreateProfile(p: Plane, id: Id, activate: bool): (Plane, Result<(), Error>) {
    if id in p.profiles then (p, Err(ProfileExists))
    else if activate && ActiveProfile(p).Some? then (p, Err(SecondActiveProfile))
    else (p.(profiles := p.profiles[id := activate]), Ok(()))
  }

  /** The row a request inserts. */
  function NewRow(source: Id, target: Id, subject: string, seconds: int): Migration {
    Migration(source, target, Prepared, Undecided, subject, None, NotRequested, None, None, seconds, None, false, None, None, false)
  }

  ghost function Request(p: Plane, m: Id, target: Id, subject: string, seconds: int): (Plane, Result<(), Error>) {
    var source := ActiveProfile(p);
    if !(60 <= seconds <= 86400) then (p, Err(ObservationOutOfRange))
    else if source.None? || target !in p.profiles then (p, Err(ProfileNotFound))
    else if source.value == target || p.profiles[target] then (p, Err(InvalidProfiles))
    else if m in p.migrations || exists o :: o in p.migrations && Open(p.migrations[o].phase) then (p, Err(MigrationOpen))
    else
      (SetRow(p, m, NewRow(source.value, target, subject, seconds)).(latest := Some(m)), Ok(()))
  }

  /** The endpoints and worker phases that touch nothing but the row itself. */
  datatype RowAction =
    | Decide(subject: string, approve: bool)
    | Start
    | CompleteAt(now: int)
    | RequestRollback(subject: string)
    | DecideRollback(subject: string, approve: bool)
    | Rollback
    | Work(report: Report)

  /** What the executor reported for the phase: copied, replayed or evidence accepted, or an error. */
  datatype Report = Done | Rejected

  function DecideRow(row: Migration, subject: string, approve: bool): Result<Migration, Error> {
    if !row.approval.Undecided? then Err(AlreadyDecided)
    else if subject == row.requestedBy then Err(SelfApproval)
    else Ok(row.(phase := if approve then Prepared else Failed,
                 approval := if approve then Approved else Denied, approvedBy := Some(subject)))
  }

  function StartRow(row: Migration): Result<Migration, Error> {
    if !row.approval.Approved? then Err(ApprovalRequired)
    else
      match Advance(row.phase, StartBackfill, false)
      case Ok(next) => Ok(row.(phase := next))
      case Err(e) => Err(e)
  }

  function CompleteRow(row: Migration, now: int): Result<Migration, Error> {
    if !row.approval.Approved? then Err(ApprovalRequired)
    else if row.observationEndsAt.None? || row.observationEndsAt.value > now then Err(ObservationRequired)
    else
      match Advance(row.phase, Complete, false)
      case Ok(next) => Ok(row.(phase := next, completedAt := Some(now)))
      case Err(e) => Err(e)
  }

  function RequestRollbackRow(row: Migration, subject: string): Result<Migration, Error> {
    if !row.phase.Observing? then Err(RollbackUnavailable)
    else if !row.rollbackApproval.NotRequested? then Err(RollbackAlreadyRequested)
    else Ok(row.(rollbackApproval := RollbackPending, rollbackRequestedBy := Some(subject), rollbackApprovedBy := None))
  }

  function DecideRollbackRow(row: Migration, subject: string, approve: bool): Result<Migration, Error> {
    if !row.phase.Observing? then Err(RollbackUnavailable)
    else if !row.rollbackApproval.RollbackPending? || row.rollbackRequestedBy == Some(subject) then
      Err(RollbackApprovalDenied)
    else Ok(row.(rollbackApproval := if approve then RollbackApproved else RollbackDenied,
                 rollbackApprovedBy := Some(subject)))
  }

  function RollbackRow(row: Migration): Result<Migration, Error> {
    if !row.rollbackApproval.RollbackApproved? then Err(RollbackApprovalRequired)
    else
      match Advance(row.phase, StartRollback, false)
      case Ok(next) => Ok(row.(phase := next))
      case Err(e) => Err(e)
  }

  predicate Working(phase: Phase) {
    phase.Backfilling? || phase.CatchingUp? || phase.Validating? || Fenced(phase)
  }

  /** The operation that a finished data-plane phase stands for. */
  function WorkOperation(phase: Phase): Operation {
    if phase.Backfilling? then BackfillComplete
    else if phase.CatchingUp? then CatchUpComplete
    else if phase.Validating? then Validate
    else if phase.RollingBack? then RollbackBackfillComplete
    else if phase.RollbackCatchingUp? then RollbackCatchUpComplete
    else RollbackValidate
  }

  /** A failed phase fails the migration, except during a rollback, which can be retried. */
  function RecordFailure(row: Migration): Migration {
    if Fenced(row.phase) then row else row.(phase := Failed)
  }

  /** One call of the worker: an error is recorded on the row, it is not the worker's outcome. */
  function WorkRow(row: Migration, report: Report): Result<Migration, Error> {
    if !Working(row.phase) then Err(NotFound)
    else if report.Rejected? || (!row.phase.Backfilling? && !row.checkpoint) then Ok(RecordFailure(row))
    else
      match Advance(row.phase, WorkOperation(row.phase), true)
      case Ok(next) => Ok(row.(phase := next, checkpoint := true, validated := row.validated || row.phase.Validating?))
      case Err(_) => Ok(RecordFailure(row))
  }

  function ActOnRow(row: Migration, a: RowAction): Result<Migration, Error> {
    match a
    case Decide(subject, approve) => DecideRow(row, subject, approve)
    case Start => StartRow(row)
    case CompleteAt(now) => CompleteRow(row, now)
    case RequestRollback(subject) => RequestRollbackRow(row, subject)
    case DecideRollback(subject, approve) => DecideRollbackRow(row, subject, approve)
    case Rollback => RollbackRow(row)
    case Work(report) => WorkRow(row, report)
  }

  function SwitchRow(row: Migration, now: int): Result<Migration, Error> {
    if !row.approval.Approved? then Err(ApprovalRequired)
    else
      match Advance(row.phase, Switch, false)
      case Ok(next) =>
        Ok(row.(phase := next, observationEndsAt := Some(now + row.observationSeconds), switchedAt := Some(now)))
      case Err(e) => Err(e)
  }

  /** UPDATE active=false on one profile, then active=true on another, under the one-active index. */
  ghost function MoveActive(profiles: map<Id, bool>, from: Id, to: Id): Result<map<Id, bool>, Error> {
    var cleared := if from in profiles then profiles[from := false] else profiles;
    if to !in cleared then Ok(cleared)
    else if exists other :: other != to && other in cleared && cleared[other] then Err(SecondActiveProfile)
    else Ok(cleared[to := true])
  }

  /** A row change together with a move of the active flag; either error rolls both back. */
  ghost function MoveWithRow(p: Plane, m: Id, row: Result<Migration, Error>, from: Id, to: Id): (Plane, Result<(), Error>) {
    var moved := MoveActive(p.profiles, from, to);
    if row.Err? then (p, Err(row.error))
    else if moved.Err? then (p, Err(moved.error))
    else (SetRow(p, m, row.value).(profiles := moved.value), Ok(()))
  }

  /** The worker switches the profiles back in the transaction that ends the rollback. */
  predicate EndsRollback(row: Migration, a: RowAction) {
    a.Work? && row.phase.RollbackValidating? && a.report.Done? && row.checkpoint
  }

  ghost function OnMigration(p: Plane, m: Id, a: RowAction): (Plane, Result<(), Error>) {
    if m !in p.migrations then (p, Err(NotFound))
    else
      var row := p.migrations[m];
      if EndsRollback(row, a) then MoveWithRow(p, m, ActOnRow(row, a), row.target, row.source)
      else
        match ActOnRow(row, a)
        case Ok(changed) => (SetRow(p, m, changed), Ok(()))
        case Err(e) => (p, Err(e))
  }

  ghost function SwitchMigration(p: Plane, m: Id, now: int): (Plane, Result<(), Error>) {
    if m !in p.migrations then (p, Err(NotFound))
    else
      var row := p.migrations[m];
      MoveWithRow(p, m, SwitchRow(row, now), row.source, row.target)
  }

  // ----- Runs -----

  datatype Action =
    | NewProfile(id: Id, activate: bool)
    | NewMigration(m: Id, target: Id, subject: string, seconds: int)
    | SwitchAt(m: Id, now: int)
    | OnRow(m: Id, action: RowAction)

  ghost function Step(p: Plane, a: Action): Plane {
    match a
    case NewProfile(id, activate) => CreateProfile(p, id, activate).0
    case NewMigration(m, target, subject, seconds) => Request(p, m, target, subject, seconds).0
    case SwitchAt(m, now) => SwitchMigration(p, m, now).0
    case OnRow(m, action) => OnMigration(p, m, action).0
  }

  ghost function Run(actions: seq<Action>): Plane {
    if actions == [] then INITIAL else Step(Run(actions[..|actions| - 1]), actions[|actions| - 1])
  }

  // ----- What every row keeps -----

  predicate Switched(phase: Phase) {
    phase.Observing? || Fenced(phase) || phase.Completed? || phase.RolledBack?
  }

  predicate InRollback(phase: Phase) {
    Fenced(phase) || phase.RolledBack?
  }

  /** Work starts only after an approval by someone other than the requester. */
  predicate FourEyes(m: Migration) {
    && (!(m.phase.Prepared? || m.phase.Failed?) ==> m.approval == Approved)
    && (m.approval == Undecided ==> m.phase == Prepared)
    && (m.approval == Denied ==> m.phase == Failed)
    && (m.approval == Approved ==> m.approvedBy.Some? && m.approvedBy.value != m.requestedBy)
    && (InRollback(m.phase) ==> m.rollbackApproval == RollbackApproved)
    && (m.rollbackApproval == RollbackPending ==> m.rollbackRequestedBy.Some?)
    && (m.rollbackApproval == RollbackApproved ==>
          m.rollbackRequestedBy.Some? && m.rollbackApprovedBy.Some? && m.rollbackApprovedBy != m.rollbackRequestedBy)
  }

  /** Completion waits out the observation window that the switch opened. */
  predicate Observed(m: Migration) {
    && 60 <= m.observationSeconds <= 86400
    && (Switched(m.phase) <==> m.switchedAt.Some?)
    && (m.switchedAt.Some? ==> m.observationEndsAt == Some(m.switchedAt.value + m.observationSeconds))
    && (m.switchedAt.None? ==> m.observationEndsAt.None?)
    && (m.phase == Completed <==> m.completedAt.Some?)
    && (m.completedAt.Some? ==> m.switchedAt.Some? && m.completedAt.value >= m.switchedAt.value + m.observationSeconds)
  }

  /** Data-plane phases come with stored watermarks, and the switch with accepted evidence. */
  predicate Evidenced(m: Migration) {
    && (m.phase.CatchingUp? || m.phase.Validating? || m.phase.ReadyToSwitch? || Switched(m.phase) ==> m.checkpoint)
    && (m.phase == ReadyToSwitch || Switched(m.phase) ==> m.validated)
  }

  predicate RowInv(m: Migration) {
    m.source != m.target && FourEyes(m) && Observed(m) && Evidenced(m)
  }

  /** The profile that holds the data while the migration is in a phase. */
  function Holder(m: Migration): Id {
    if m.phase.Observing? || Fenced(m.phase) || m.phase.Completed? then m.target else m.source
  }

  ghost predicate AtMostOneActive(p: Plane) {
    forall a, b :: IsActive(p, a) && IsActive(p, b) ==> a == b
  }

  /** The latest migration says which profile is active, and only it can still be open. */
  ghost predicate LatestRules(p: Plane) {
    if p.latest.None? then p.migrations == map[]
    else
      && p.latest.value in p.migrations
      && IsActive(p, Holder(p.migrations[p.latest.value]))
      && (forall m :: m in p.migrations && m != p.latest.value ==> !Open(p.migrations[m].phase))
  }

  ghost predicate Inv(p: Plane) {
    && AtMostOneActive(p) && LatestRules(p)
    && RowsSound(p)
  }

  function Rank(phase: Phase): nat {
    match phase
    case Prepared => 0
    case Backfilling => 1
    case CatchingUp => 2
    case Validating => 3
    case ReadyToSwitch => 4
    case Observing => 5
    case RollingBack => 6
    case RollbackCatchingUp => 7
    case RollbackValidating => 8
    case Completed => 9
    case RolledBack => 9
    case Failed => 9
  }

  /** What an action may do to a row: keep its parties, and never move its phase back or sideways. */
  predicate Forward(m: Migration, n: Migration) {
    && n.source == m.source && n.target == m.target && n.requestedBy == m.requestedBy
    && n.observationSeconds == m.observationSeconds
    && (n.phase == m.phase || Rank(m.phase) < Rank(n.phase))
    && (m.switchedAt.Some? ==> n.switchedAt == m.switchedAt)
  }

  // ----- One action -----

  lemma ActiveIs(p: Plane, id: Id)
    requires AtMostOneActive(p) && IsActive(p, id)
    ensures ActiveProfile(p) == Some(id)
  {}

  /** What a row action may do: keep the row's invariant, and move its phase forward only. */
  predicate Keeps(row: Migration, outcome: Result<Migration, Error>) {
    outcome.Ok? ==> RowInv(outcome.value) && Forward(row, outcome.value)
  }

  predicate KeepsHolder(row: Migration, outcome: Result<Migration, Error>) {
    outcome.Ok? ==> Holder(outcome.value) == Holder(row)
  }

  lemma DecideKeeps(row: Migration, subject: string, approve: bool)
    requires RowInv(row)
    ensures Keeps(row, DecideRow(row, subject, approve)) && KeepsHolder(row, DecideRow(row, subject, approve))
  {}

  lemma StartKeeps(row: Migration)
    requires RowInv(row)
    ensures Keeps(row, StartRow(row)) && KeepsHolder(row, StartRow(row))
  {}

  lemma CompleteKeeps(row: Migration, now: int)
    requires RowInv(row)
    ensures Keeps(row, CompleteRow(row, now)) && KeepsHolder(row, CompleteRow(row, now))
  {}

  lemma RequestRollbackKeeps(row: Migration, subject: string)
    requires RowInv(row)
    ensures Keeps(row, RequestRollbackRow(row, subject)) && KeepsHolder(row, RequestRollbackRow(row, subject))
  {}

  lemma DecideRollbackKeeps(row: Migration, subject: string, approve: bool)
    requires RowInv(row)
    ensures Keeps(row, DecideRollbackRow(row, subject, approve)) && KeepsHolder(row, DecideRollbackRow(row, subject, approve))
  {}

  lemma RollbackKeeps(row: Migration)
    requires RowInv(row)
    ensures Keeps(row, RollbackRow(row)) && KeepsHolder(row, RollbackRow(row))
  {}

  lemma WorkMovesForward(row: Migration, report: Report)
    requires RowInv(row)
    ensures WorkRow(row, report).Ok? ==> Forward(row, WorkRow(row, report).value)
  {}

  lemma WorkKeepsRow(row: Migration, report: Report)
    requires RowInv(row)
    ensures Keeps(row, WorkRow(row, report))
  {
    WorkMovesForward(row, report);
  }

  lemma WorkMovesHolder(row: Migration, report: Report)
    requires RowInv(row)
    ensures EndsRollback(row, Work(report)) ==> Holder(row) == row.target && WorkRow(row, report).Ok? && Holder(WorkRow(row, report).value) == row.source
    ensures !EndsRollback(row, Work(report)) ==> KeepsHolder(row, WorkRow(row, report))
  {}

  lemma WorkKeeps(row: Migration, report: Report)
    requires RowInv(row)
    ensures Keeps(row, WorkRow(row, report))
    ensures EndsRollback(row, Work(report)) ==> Holder(row) == row.target && WorkRow(row, report).Ok? && Holder(WorkRow(row, report).value) == row.source
    ensures !EndsRollback(row, Work(report)) ==> KeepsHolder(row, WorkRow(row, report))
  {
    WorkKeepsRow(row, report);
    WorkMovesHolder(row, report);
  }

  lemma RowActionKeeps(row: Migration, a: RowAction)
    requires RowInv(row)
    ensures Keeps(row, ActOnRow(row, a))
    ensures EndsRollback(row, a) ==> Holder(row) == row.target && ActOnRow(row, a).Ok? && Holder(ActOnRow(row, a).value) == row.source
    ensures !EndsRollback(row, a) ==> KeepsHolder(row, ActOnRow(row, a))
  {
    match a
    case Decide(subject, approve) => DecideKeeps(row, subject, approve);
    case Start => StartKeeps(row);
    case CompleteAt(now) => CompleteKeeps(row, now);
    case RequestRollback(subject) => RequestRollbackKeeps(row, subject);
    case DecideRollback(subject, approve) => DecideRollbackKeeps(row, subject, approve);
    case Rollback => RollbackKeeps(row);
    case Work(report) => WorkKeeps(row, report);
  }

  lemma SwitchRowKeeps(row: Migration, now: int)
    requires RowInv(row) && SwitchRow(row, now).Ok?
    ensures row.phase.ReadyToSwitch? && RowInv(SwitchRow(row, now).value) && Forward(row, SwitchRow(row, now).value)
    ensures Holder(row) == row.source && Holder(SwitchRow(row, now).value) == row.target
  {}

  /** Moving the active flag between the two profiles of the open migration always works. */
  lemma MoveActiveWorks(p: Plane, from: Id, to: Id)
    requires AtMostOneActive(p) && IsActive(p, from) && to in p.profiles && to != from
    ensures MoveActive(p.profiles, from, to) == Ok(p.profiles[from := false][to := true])
  {
    assert forall other :: other != from && other in p.profiles ==> !p.profiles[other] by {
      forall other | other != from && other in p.profiles ensures !p.profiles[other] {
        assert IsActive(p, other) ==> other == from;
      }
    }
  }

  lemma MovedIsOne(p: Plane, from: Id, to: Id, q: Plane)
    requires AtMostOneActive(p) && IsActive(p, from) && to in p.profiles && to != from
    requires q.profiles == p.profiles[from := false][to := true]
    ensures AtMostOneActive(q) && IsActive(q, to)
  {
    forall a | IsActive(q, a) ensures a == to {
      assert a != from;
      assert a != to ==> IsActive(p, a);
    }
  }

  ghost predicate RowsSound(p: Plane) {
    forall m :: m in p.migrations ==>
      RowInv(p.migrations[m]) && p.migrations[m].source in p.profiles && p.migrations[m].target in p.profiles
  }

  lemma ClosedStaysClosed(m: Migration, n: Migration)
    requires Forward(m, n) && !Open(m.phase)
    ensures n.phase == m.phase
  {}

  /** A row change that leaves the active flags alone. */
  lemma RowStepKeepsInv(p: Plane, m: Id, changed: Migration)
    requires Inv(p) && m in p.migrations
    requires RowInv(changed) && Forward(p.migrations[m], changed) && Holder(changed) == Holder(p.migrations[m])
    ensures Inv(SetRow(p, m, changed))
  {
    var q := SetRow(p, m, changed);
    assert forall id :: IsActive(q, id) == IsActive(p, id);
    if m != p.latest.value { ClosedStaysClosed(p.migrations[m], changed); }
  }

  /** A row change that moves the active flag with the data. */
  lemma MoveKeepsInv(p: Plane, m: Id, changed: Migration, from: Id, to: Id)
    requires Inv(p) && m in p.migrations && Open(p.migrations[m].phase)
    requires RowInv(changed) && Forward(p.migrations[m], changed)
    requires Holder(p.migrations[m]) == from && Holder(changed) == to && to != from && to in p.profiles
    ensures MoveWithRow(p, m, Ok(changed), from, to).1.Ok? && Inv(MoveWithRow(p, m, Ok(changed), from, to).0)
  {
    assert m == p.latest.value;
    MoveActiveWorks(p, from, to);
    var q := MoveWithRow(p, m, Ok(changed), from, to).0;
    MovedIsOne(p, from, to, q);
    assert LatestRules(q);
  }

  lemma OnMigrationKeepsInv(p: Plane, m: Id, a: RowAction)
    requires Inv(p)
    ensures Inv(OnMigration(p, m, a).0)
    ensures m in p.migrations ==> Forward(p.migrations[m], OnMigration(p, m, a).0.migrations[m])
  {
    if m in p.migrations && ActOnRow(p.migrations[m], a).Ok? {
      var row := p.migrations[m];
      RowActionKeeps(row, a);
      if EndsRollback(row, a) {
        MoveKeepsInv(p, m, ActOnRow(row, a).value, row.target, row.source);
      } else {
        RowStepKeepsInv(p, m, ActOnRow(row, a).value);
      }
    }
  }

  lemma SwitchKeepsInv(p: Plane, m: Id, now: int)
    requires Inv(p)
    ensures Inv(SwitchMigration(p, m, now).0)
    ensures m in p.migrations ==> Forward(p.migrations[m], SwitchMigration(p, m, now).0.migrations[m])
  {
    if m in p.migrations && SwitchRow(p.migrations[m], now).Ok? {
      var row := p.migrations[m];
      SwitchRowKeeps(row, now);
      MoveKeepsInv(p, m, SwitchRow(row, now).value, row.source, row.target);
    }
  }

  lemma RequestAdmits(p: Plane, m: Id, target: Id, subject: string, seconds: int, source: Id)
    requires AtMostOneActive(p) && Request(p, m, target, subject, seconds).1.Ok? && ActiveProfile(p) == Some(source)
    ensures Request(p, m, target, subject, seconds).0 == SetRow(p, m, NewRow(source, target, subject, seconds)).(latest := Some(m))
    ensures m !in p.migrations && (forall o :: o in p.migrations ==> !Open(p.migrations[o].phase))
    ensures RowInv(NewRow(source, target, subject, seconds)) && IsActive(p, source) && target in p.profiles
  {}

  lemma RequestKeepsInv(p: Plane, m: Id, target: Id, subject: string, seconds: int)
    requires Inv(p)
    ensures Inv(Request(p, m, target, subject, seconds).0)
    ensures var q := Request(p, m, target, subject, seconds).0;
      forall o :: o in p.migrations ==> o in q.migrations && q.migrations[o] == p.migrations[o]
  {
    if Request(p, m, target, subject, seconds).1.Ok? {
      var source := ActiveProfile(p).value;
      RequestAdmits(p, m, target, subject, seconds, source);
      AdmittedKeepsInv(p, m, NewRow(source, target, subject, seconds));
    } else {
      assert Request(p, m, target, subject, seconds).0 == p;
    }
  }

  lemma AdmittedKeepsInv(p: Plane, m: Id, row: Migration)
    requires Inv(p) && m !in p.migrations && (forall o :: o in p.migrations ==> !Open(p.migrations[o].phase))
    requires RowInv(row) && row.phase.Prepared? && IsActive(p, row.source) && row.target in p.profiles
    ensures Inv(SetRow(p, m, row).(latest := Some(m)))
  {
    var q := SetRow(p, m, row).(latest := Some(m));
    assert forall id :: IsActive(q, id) == IsActive(p, id);
    assert Holder(row) == row.source;
  }

  lemma CreateKeepsInv(p: Plane, id: Id, activate: bool)
    requires Inv(p)
    ensures Inv(CreateProfile(p, id, activate).0)
  {
    var q := CreateProfile(p, id, activate).0;
    if q != p {
      forall a | IsActive(q, a) ensures (a == id && activate) || IsActive(p, a) {}
      if activate { assert forall a :: !IsActive(p, a); }
      if p.latest.Some? { ActiveIs(p, Holder(p.migrations[p.latest.value])); }
    }
  }

  lemma StepKeepsInv(p: Plane, a: Action)
    requires Inv(p)
    ensures Inv(Step(p, a))
  {
    match a
    case NewProfile(id, activate) => CreateKeepsInv(p, id, activate);
    case NewMigration(m, target, subject, seconds) => RequestKeepsInv(p, m, target, subject, seconds);
    case SwitchAt(m, now) => SwitchKeepsInv(p, m, now);
    case OnRow(m, action) => OnMigrationKeepsInv(p, m, action);
  }

  lemma OtherRowsKept(p: Plane, m: Id, a: RowAction, now: int, o: Id)
    requires o in p.migrations && o != m
    ensures var q := OnMigration(p, m, a).0; o in q.migrations && q.migrations[o] == p.migrations[o]
    ensures var q := SwitchMigration(p, m, now).0; o in q.migrations && q.migrations[o] == p.migrations[o]
  {}

  lemma ForwardSame(m: Migration)
    ensures Forward(m, m)
  {}

  /** An action leaves every other row alone and moves its own row forward. */
  lemma StepMovesForward(p: Plane, a: Action, m: Id)
    requires Inv(p) && m in p.migrations
    ensures m in Step(p, a).migrations && Forward(p.migrations[m], Step(p, a).migrations[m])
  {
    ForwardSame(p.migrations[m]);
    match a
    case NewProfile(_, _) =>
    case NewMigration(o, target, subject, seconds) => RequestKeepsInv(p, o, target, subject, seconds);
    case SwitchAt(o, now) => if o == m { SwitchKeepsInv(p, m, now); } else { OtherRowsKept(p, o, Start, now, m); }
    case OnRow(o, action) => if o == m { OnMigrationKeepsInv(p, m, action); } else { OtherRowsKept(p, o, action, 0, m); }
  }

  // ----- Whole runs -----

  /** Every reachable control plane satisfies the invariant. */
  lemma {:induction false} RunKeepsInv(actions: seq<Action>)
    ensures Inv(Run(actions))
  {
    if actions != [] {
      RunKeepsInv(actions[..|actions| - 1]);
      StepKeepsInv(Run(actions[..|actions| - 1]), actions[|actions| - 1]);
    }
  }

  /** Along a run the phase rank of a migration strictly increases with every change of phase. */
  lemma {:induction false} PhasesMoveForward(actions: seq<Action>, n: nat, m: Id)
    requires n <= |actions| && m in Run(actions[..n]).migrations
    ensures m in Run(actions).migrations && Forward(Run(actions[..n]).migrations[m], Run(actions).migrations[m])
    decreases |actions| - n
  {
    if n == |actions| {
      assert actions[..n] == actions;
    } else {
      assert actions[..n + 1][..n] == actions[..n];
      RunKeepsInv(actions[..n]);
      StepMovesForward(Run(actions[..n]), actions[n], m);
      PhasesMoveForward(actions, n + 1, m);
    }
  }

  /** Once a migration has been requested, exactly one profile is active, and the phase says which. */
  lemma ExactlyOneActive(actions: seq<Action>)
    requires Run(actions).latest.Some?
    ensures var p := Run(actions);
      && p.latest.value in p.migrations
      && forall id :: IsActive(p, id) <==> id == Holder(p.migrations[p.latest.value])
  {
    RunKeepsInv(actions);
  }

  /** Forward and rollback work had the approval of someone other than the requester. */
  lemma WorkWasApproved(actions: seq<Action>, m: Id)
    requires m in Run(actions).migrations
    ensures var row := Run(actions).migrations[m];
      && (!(row.phase.Prepared? || row.phase.Failed?) ==>
            row.approval == Approved && row.approvedBy.Some? && row.approvedBy.value != row.requestedBy)
      && (InRollback(row.phase) ==>
            row.rollbackApproval == RollbackApproved && row.rollbackApprovedBy.Some? && row.rollbackRequestedBy.Some?
            && row.rollbackApprovedBy.value != row.rollbackRequestedBy.value)
  {
    RunKeepsInv(actions);
  }

  /** Completion came no sooner than the observation window, at least a minute, after the switch. */
  lemma CompletionWasObserved(actions: seq<Action>, m: Id)
    requires m in Run(actions).migrations && Run(actions).migrations[m].phase == Completed
    ensures var row := Run(actions).migrations[m];
      && row.validated && row.switchedAt.Some? && row.completedAt.Some?
      && row.completedAt.value >= row.switchedAt.value + row.observationSeconds
      && row.observationSeconds >= 60
  {
    RunKeepsInv(actions);
  }

  /** A failed or rolled back attempt at moving to the profile is on record. */
  ghost predicate DeadAttempt(p: Plane, m: Id, profile: Id) {
    m in p.migrations && p.migrations[m].target == profile && (p.migrations[m].phase.Failed? || p.migrations[m].phase.RolledBack?)
  }

  /** What the state machine says of the latest migration. */
  function Writer(m: Migration): Option<Id> {
    BusinessWriteProfile(m.source, m.target, m.phase)
  }

  lemma BlockedBy(p: Plane, m: Id, o: Id)
    requires LatestRules(p) && p.latest == Some(m) && p.migrations[m].source != p.migrations[m].target
    ensures var row := p.migrations[m];
      Blocks(p, o, Holder(row)) <==> if o == m then Fenced(row.phase) else DeadAttempt(p, o, Holder(row))
  {}

  lemma ResolverOutcome(p: Plane, m: Id)
    requires Inv(p) && p.latest == Some(m)
    ensures var row := p.migrations[m];
      Resolve(p) == Writer(row) <==> Writer(row).None? || !exists o :: o != m && DeadAttempt(p, o, Holder(row))
  {
    var row := p.migrations[m];
    ActiveIs(p, Holder(row));
    if Fenced(row.phase) {
      BlockedBy(p, m, m);
    } else if o :| o != m && DeadAttempt(p, o, Holder(row)) {
      BlockedBy(p, m, o);
    } else {
      forall o ensures !Blocks(p, o, Holder(row)) { BlockedBy(p, m, o); }
    }
  }

  /**
  The routing query returns exactly the profile the state machine names, none during a
  rollback, if and only if no earlier attempt at the active profile failed or was rolled back.
  */
  lemma ResolverAgreesExactlyWhen(actions: seq<Action>, m: Id)
    requires Run(actions).latest == Some(m)
    ensures var p := Run(actions);
      && m in p.migrations
      && (Resolve(p) == Writer(p.migrations[m]) <==>
          Writer(p.migrations[m]).None? || !exists o :: o != m && DeadAttempt(p, o, Holder(p.migrations[m])))
  {
    RunKeepsInv(actions);
    ResolverOutcome(Run(actions), m);
  }

  /** In particular in every run with a single migration. */
  lemma ResolverAgreesForOneMigration(actions: seq<Action>, m: Id)
    requires Run(actions).migrations.Keys == {m}
    ensures Resolve(Run(actions)) == Writer(Run(actions).migrations[m])
  {
    RunKeepsInv(actions);
    var p := Run(actions);
    assert p.latest == Some(m) by { assert p.latest.value in p.migrations.Keys; }
    ResolverAgreesExactlyWhen(actions, m);
    forall o | o != m ensures !DeadAttempt(p, o, Holder(p.migrations[m])) { assert o !in p.migrations.Keys; }
  }

  // ----- A target that is tried again -----

  lemma {:induction false} RunMore(actions: seq<Action>, more: seq<Action>, a: Action)
    ensures Run(actions + (more + [a])) == Step(Run(actions + more), a)
  {
    var all := actions + (more + [a]);
    assert all[..|all| - 1] == actions + more;
  }

  /** The actions of an approved migration up to its switch, with every worker phase succeeding. */
  function Attempt(m: Id, target: Id, requester: string, approver: string, seconds: int, now: int): seq<Action> {
    [NewMigration(m, target, requester, seconds)] + [OnRow(m, Decide(approver, true))] + [OnRow(m, Start)]
    + [OnRow(m, Work(Done))] + [OnRow(m, Work(Done))] + [OnRow(m, Work(Done))] + [SwitchAt(m, now)]
  }

  /** The row such an attempt leaves in the observation phase. */
  function Prospect(source: Id, target: Id, phase: Phase, requester: string, approver: string, seconds: int): Migration {
    Migration(source, target, phase, Approved, requester, Some(approver), NotRequested, None, None, seconds, None,
              !phase.Prepared? && !phase.Backfilling?, None, None, phase.ReadyToSwitch?)
  }

  lemma SetRowTwice(p: Plane, m: Id, first: Migration, second: Migration)
    ensures SetRow(SetRow(p, m, first), m, second) == SetRow(p, m, second)
  {
    assert p.migrations[m := first][m := second] == p.migrations[m := second];
  }

  lemma StepOnRow(p: Plane, m: Id, row: Migration, a: RowAction, changed: Migration)
    requires ActOnRow(row, a) == Ok(changed) && !EndsRollback(row, a)
    ensures Step(SetRow(p, m, row), OnRow(m, a)) == SetRow(p, m, changed)
  {
    SetRowTwice(p, m, row, changed);
  }

  /** The plane right after a successful request. */
  ghost predicate Requestable(p: Plane, m: Id, source: Id, target: Id, seconds: int) {
    && IsActive(p, source) && target in p.profiles && !p.profiles[target] && m !in p.migrations
    && 60 <= seconds <= 86400 && (forall o :: o in p.migrations ==> !Open(p.migrations[o].phase))
  }

  lemma AttemptPrepares(actions: seq<Action>, m: Id, source: Id, target: Id, requester: string, approver: string, seconds: int)
    requires Requestable(Run(actions), m, source, target, seconds) && requester != approver
    ensures var p := Run(actions).(latest := Some(m));
      Run(actions + ([NewMigration(m, target, requester, seconds)] + [OnRow(m, Decide(approver, true))]))
      == SetRow(p, m, Prospect(source, target, Prepared, requester, approver, seconds))
  {
    RunKeepsInv(actions);
    var p := Run(actions).(latest := Some(m));
    ActiveIs(Run(actions), source);
    RunMore(actions, [], NewMigration(m, target, requester, seconds));
    assert actions + [] == actions;
    assert [] + [NewMigration(m, target, requester, seconds)] == [NewMigration(m, target, requester, seconds)];
    var row := Prospect(source, target, Prepared, requester, approver, seconds).(approval := Undecided, approvedBy := None);
    assert Run(actions + [NewMigration(m, target, requester, seconds)]) == SetRow(p, m, row);
    RunMore(actions, [NewMigration(m, target, requester, seconds)], OnRow(m, Decide(approver, true)));
    StepOnRow(p, m, row, Decide(approver, true), Prospect(source, target, Prepared, requester, approver, seconds));
  }

  lemma RunOnRow(actions: seq<Action>, done: seq<Action>, p: Plane, m: Id, row: Migration, a: RowAction, changed: Migration)
    requires Run(actions + done) == SetRow(p, m, row)
    requires ActOnRow(row, a) == Ok(changed) && !EndsRollback(row, a)
    ensures Run(actions + (done + [OnRow(m, a)])) == SetRow(p, m, changed)
  {
    RunMore(actions, done, OnRow(m, a));
    StepOnRow(p, m, row, a, changed);
  }

  lemma ProspectAdvances(source: Id, target: Id, requester: string, approver: string, seconds: int)
    ensures var row := (phase: Phase) => Prospect(source, target, phase, requester, approver, seconds);
      && ActOnRow(row(Prepared), Start) == Ok(row(Backfilling))
      && ActOnRow(row(Backfilling), Work(Done)) == Ok(row(CatchingUp))
      && ActOnRow(row(CatchingUp), Work(Done)) == Ok(row(Validating))
      && ActOnRow(row(Validating), Work(Done)) == Ok(row(ReadyToSwitch))
  {}

  lemma AttemptBackfills(actions: seq<Action>, done: seq<Action>, p: Plane, m: Id, source: Id, target: Id, requester: string, approver: string, seconds: int)
    requires Run(actions + done) == SetRow(p, m, Prospect(source, target, Prepared, requester, approver, seconds))
    ensures Run(actions + (done + [OnRow(m, Start)] + [OnRow(m, Work(Done))]))
         == SetRow(p, m, Prospect(source, target, CatchingUp, requester, approver, seconds))
  {
    ProspectAdvances(source, target, requester, approver, seconds);
    var middle := Prospect(source, target, Backfilling, requester, approver, seconds);
    RunOnRow(actions, done, p, m, Prospect(source, target, Prepared, requester, approver, seconds), Start, middle);
    RunOnRow(actions, done + [OnRow(m, Start)], p, m, middle, Work(Done), Prospect(source, target, CatchingUp, requester, approver, seconds));
  }

  lemma AttemptValidates(actions: seq<Action>, done: seq<Action>, p: Plane, m: Id, source: Id, target: Id, requester: string, approver: string, seconds: int)
    requires Run(actions + done) == SetRow(p, m, Prospect(source, target, CatchingUp, requester, approver, seconds))
    ensures Run(actions + (done + [OnRow(m, Work(Done))] + [OnRow(m, Work(Done))]))
         == SetRow(p, m, Prospect(source, target, ReadyToSwitch, requester, approver, seconds))
  {
    ProspectAdvances(source, target, requester, approver, seconds);
    var middle := Prospect(source, target, Validating, requester, approver, seconds);
    RunOnRow(actions, done, p, m, Prospect(source, target, CatchingUp, requester, approver, seconds), Work(Done), middle);
    RunOnRow(actions, done + [OnRow(m, Work(Done))], p, m, middle, Work(Done), Prospect(source, target, ReadyToSwitch, requester, approver, seconds));
  }

  lemma AttemptReady(actions: seq<Action>, m: Id, source: Id, target: Id, requester: string, approver: string, seconds: int)
    requires Requestable(Run(actions), m, source, target, seconds) && requester != approver
    ensures var p := Run(actions).(latest := Some(m));
      Run(actions + ([NewMigration(m, target, requester, seconds)] + [OnRow(m, Decide(approver, true))] + [OnRow(m, Start)]
                     + [OnRow(m, Work(Done))] + [OnRow(m, Work(Done))] + [OnRow(m, Work(Done))]))
      == SetRow(p, m, Prospect(source, target, ReadyToSwitch, requester, approver, seconds))
  {
    var p := Run(actions).(latest := Some(m));
    AttemptPrepares(actions, m, source, target, requester, approver, seconds);
    var done := [NewMigration(m, target, requester, seconds)] + [OnRow(m, Decide(approver, true))];
    AttemptBackfills(actions, done, p, m, source, target, requester, approver, seconds);
    AttemptValidates(actions, done + [OnRow(m, Start)] + [OnRow(m, Work(Done))], p, m, source, target, requester, approver, seconds);
  }

  /**
  Whenever an earlier attempt at a profile failed or was rolled back, trying again succeeds
  up to the switch and then leaves the tenant without a routable profile, although the
  state machine names the target as the writer.
  */
  lemma RetriedTargetIsUnroutable(
    actions: seq<Action>, dead: Id, m: Id, source: Id, target: Id, requester: string, approver: string, seconds: int, now: int)
    requires Requestable(Run(actions), m, source, target, seconds) && requester != approver
    requires DeadAttempt(Run(actions), dead, target)
    ensures var q := Run(actions + Attempt(m, target, requester, approver, seconds, now));
      && m in q.migrations && q.migrations[m].phase == Observing && Writer(q.migrations[m]) == Some(target)
      && ActiveProfile(q) == Some(target) && Resolve(q) == None
  {
    AttemptReady(actions, m, source, target, requester, approver, seconds);
    var all := Attempt(m, target, requester, approver, seconds, now);
    RunMore(actions, all[..6], SwitchAt(m, now));
    assert all[..6] == [NewMigration(m, target, requester, seconds)] + [OnRow(m, Decide(approver, true))] + [OnRow(m, Start)]
                     + [OnRow(m, Work(Done))] + [OnRow(m, Work(Done))] + [OnRow(m, Work(Done))];
    var q := Run(actions + all[..6]);
    RunKeepsInv(actions + all[..6]);
    RunKeepsInv(actions + all);
    var row := q.migrations[m];
    SwitchRowKeeps(row, now);
    MoveKeepsInv(q, m, SwitchRow(row, now).value, source, target);
    var after := Run(actions + all);
    assert after == MoveWithRow(q, m, SwitchRow(row, now), source, target).0;
    ActiveIs(after, target);
    assert Blocks(after, dead, target);
  }

  function Founding(): seq<Action> {
    [NewProfile(0, true), NewProfile(1, false)]
  }

  lemma FoundingRun()
    ensures Run(Founding()) == Plane(map[0 := true, 1 := false], map[], None)
  {
    var first, second := NewProfile(0, true), NewProfile(1, false);
    assert forall id :: !IsActive(INITIAL, id);
    RunMore([], [], first);
    RunMore([], [first], second);
    assert [] + ([] + [first]) == [first] && [] + ([first] + [second]) == Founding() && [] + [first] == [first];
  }

  /** A denied request is enough to leave such a dead attempt. */
  lemma DeniedRequestLeavesDeadAttempt(requester: string, approver: string)
    requires requester != approver
    ensures var p := Run(Founding() + ([NewMigration(0, 1, requester, 60)] + [OnRow(0, Decide(approver, false))]));
      Requestable(p, 1, 0, 1, 60) && DeadAttempt(p, 0, 1)
  {
    FoundingRun();
    RunKeepsInv(Founding());
    var p := Run(Founding());
    ActiveIs(p, 0);
    RunMore(Founding(), [], NewMigration(0, 1, requester, 60));
    assert Founding() + [] == Founding() && [] + [NewMigration(0, 1, requester, 60)] == [NewMigration(0, 1, requester, 60)];
    var row := Migration(0, 1, Prepared, Undecided, requester, None, NotRequested, None, None, 60, None, false, None, None, false);
    RunOnRow(Founding(), [NewMigration(0, 1, requester, 60)], p.(latest := Some(0)), 0, row, Decide(approver, false),
             row.(phase := Failed, approval := Denied, approvedBy := Some(approver)));
  }
}
