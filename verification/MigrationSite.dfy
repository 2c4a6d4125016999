/**
The control plane and the data plane together: a worker's report is what the executor did to
the stores of the two profiles, and a validation is accepted when its evidence is.
*/
module MigrationSite {
  import opened Prelude
  import opened StorageAdapter
  import opened Fingerprint
  import opened MigrationEvidence
  import C = MigrationControl
  import D = MigrationData

  /**
  `stores` are the adapters of every profile, kind by kind; `marks` are the checkpoint's
  watermarks by migration, those of the rollback apart.
  */
  datatype Site = Site(plane: C.Plane, stores: map<C.Id, seq<Store>>, marks: map<(C.Id, bool), seq<nat>>)

  /** A poll may meet an executor error, which leaves the stores alone. */
  datatype Action =
    | Control(action: C.Action)
    | Poll(m: C.Id, fails: bool)
    | PutAt(profile: C.Id, i: nat, owner: string, key: Bytes, value: Bytes)
    | EraseAt(profile: C.Id, i: nat, owner: string, keys: seq<Bytes>)

  // ----- The executor over all adapters of two profiles -----

  function CopyAll(from: seq<Store>, to: seq<Store>, tenant: string): seq<Store>
    requires |from| == |to|
  {
    seq(|to|, i requires 0 <= i < |to| =>
      to[i].(objects := D.Overwrite(to[i].objects, tenant, ContentOf(from[i].objects, tenant))))
  }

  function ReplayAll(from: seq<Store>, to: seq<Store>, tenant: string, marks: seq<nat>): seq<Store>
    requires |from| == |to| == |marks|
  {
    seq(|to|, i requires 0 <= i < |to| =>
      to[i].(objects := Apply(to[i].objects, tenant, ChangesSince(from[i].changes, tenant, marks[i]))))
  }

  function Watermarks(stores: seq<Store>): seq<nat> {
    seq(|stores|, i requires 0 <= i < |stores| => stores[i].watermark)
  }

  function Snapshots(stores: seq<Store>, tenant: string): seq<Snapshot> {
    seq(|stores|, i requires 0 <= i < |stores| => Snapshot(stores[i].watermark, ContentOf(stores[i].objects, tenant)))
  }

  /** The evidence of these stores is accepted. */
  ghost predicate Accepts(h: Hash, from: seq<Store>, to: seq<Store>, tenant: string) {
    exists e :: IsEvidence(h, Snapshots(from, tenant), Snapshots(to, tenant), e) && e.IsValid()
  }

  // ----- One poll -----

  function From(row: C.Migration): C.Id {
    if C.Fenced(row.phase) then row.target else row.source
  }

  function To(row: C.Migration): C.Id {
    if C.Fenced(row.phase) then row.source else row.target
  }

  predicate Copying(phase: C.Phase) {
    phase.Backfilling? || phase.RollingBack?
  }

  predicate Replaying(phase: C.Phase) {
    phase.CatchingUp? || phase.RollbackCatchingUp?
  }

  predicate Paired(s: Site, row: C.Migration) {
    row.source in s.stores && row.target in s.stores && |s.stores[row.source]| == |s.stores[row.target]| > 0
  }

  predicate HasMarks(s: Site, m: C.Id, row: C.Migration) {
    (m, C.Fenced(row.phase)) in s.marks && row.source in s.stores && |s.marks[(m, C.Fenced(row.phase))]| == |s.stores[row.source]|
  }

  /** What the executor reports for the phase of the row. */
  ghost function ReportOf(h: Hash, tenant: string, s: Site, m: C.Id, row: C.Migration): C.Report {
    if !Paired(s, row) then C.Rejected
    else if Copying(row.phase) then C.Done
    else if Replaying(row.phase) then if HasMarks(s, m, row) then C.Done else C.Rejected
    else if Accepts(h, s.stores[From(row)], s.stores[To(row)], tenant) then C.Done
    else C.Rejected
  }

  /** What a successful phase does to the stores and the checkpoint. */
  ghost function Worked(tenant: string, s: Site, m: C.Id, row: C.Migration): Site
    requires Paired(s, row) && (Replaying(row.phase) ==> HasMarks(s, m, row))
  {
    var from, to, key := s.stores[From(row)], s.stores[To(row)], (m, C.Fenced(row.phase));
    if Copying(row.phase) then
      s.(stores := s.stores[To(row) := CopyAll(from, to, tenant)], marks := s.marks[key := Watermarks(from)])
    else if Replaying(row.phase) then
      s.(stores := s.stores[To(row) := ReplayAll(from, to, tenant, s.marks[key])], marks := s.marks[key := Watermarks(from)])
    else s
  }

  ghost function PollStep(h: Hash, tenant: string, s: Site, m: C.Id, fails: bool): Site {
    if m !in s.plane.migrations || !C.Working(s.plane.migrations[m].phase) then s
    else
      var row := s.plane.migrations[m];
      if fails || (!row.phase.Backfilling? && !row.checkpoint) || ReportOf(h, tenant, s, m, row).Rejected? then
        s.(plane := C.Step(s.plane, C.OnRow(m, C.Work(C.Rejected))))
      else Worked(tenant, s, m, row).(plane := C.Step(s.plane, C.OnRow(m, C.Work(C.Done))))
  }

  function SetStore(s: Site, profile: C.Id, i: nat, store: Store): Site
    requires profile in s.stores && i < |s.stores[profile]|
  {
    s.(stores := s.stores[profile := s.stores[profile][i := store]])
  }

  ghost function Step(h: Hash, tenant: string, s: Site, a: Action): Site {
    match a
    case Control(action) =>
      if action.OnRow? && action.action.Work? then s else s.(plane := C.Step(s.plane, action))
    case Poll(m, fails) => PollStep(h, tenant, s, m, fails)
    case PutAt(profile, i, owner, key, value) =>
      if profile in s.stores && i < |s.stores[profile]| then SetStore(s, profile, i, Put(s.stores[profile][i], owner, key, value)) else s
    case EraseAt(profile, i, owner, keys) =>
      if profile in s.stores && i < |s.stores[profile]| && Enumerates(keys, s.stores[profile][i].objects, owner)
      then SetStore(s, profile, i, Erase(s.stores[profile][i], owner, keys)) else s
  }

  ghost function RunFrom(h: Hash, tenant: string, s: Site, actions: seq<Action>): Site {
    if actions == [] then s else Step(h, tenant, RunFrom(h, tenant, s, actions[..|actions| - 1]), actions[|actions| - 1])
  }

  /** A platform without profiles or migrations, whose adapters may already hold anything. */
  ghost predicate Start(s: Site) {
    s.plane == C.INITIAL && s.marks == map[] && FeedsBounded(s)
  }

  ghost predicate FeedsBounded(s: Site) {
    forall p, i :: p in s.stores && 0 <= i < |s.stores[p]| ==> D.FeedBounded(s.stores[p][i])
  }

  ghost predicate Inv(s: Site) {
    C.Inv(s.plane) && FeedsBounded(s)
  }

  /** Nothing writes to any store but the migration worker. */
  predicate Quiet(actions: seq<Action>) {
    forall i :: 0 <= i < |actions| ==> !Writes(actions[i])
  }

  predicate Writes(a: Action) {
    a.PutAt? || a.EraseAt?
  }

  /** Every write goes to the profile that the resolver names at the time. */
  ghost predicate Routed(h: Hash, tenant: string, s: Site, actions: seq<Action>) {
    actions == [] ||
    (var before, last := actions[..|actions| - 1], actions[|actions| - 1];
     Routed(h, tenant, s, before) && (Writes(last) ==> C.Resolve(RunFrom(h, tenant, s, before).plane) == Some(last.profile)))
  }

  lemma {:induction false} QuietIsRouted(h: Hash, tenant: string, s: Site, actions: seq<Action>)
    requires Quiet(actions)
    ensures Routed(h, tenant, s, actions)
  {
    if actions != [] { QuietIsRouted(h, tenant, s, actions[..|actions| - 1]); }
  }

  // ----- Every step is a step of the control plane -----

  lemma PlaneSteps(h: Hash, tenant: string, s: Site, a: Action) returns (c: C.Action)
    ensures Step(h, tenant, s, a).plane == C.Step(s.plane, c) || Step(h, tenant, s, a).plane == s.plane
  {
    match a
    case Control(action) => c := action;
    case Poll(m, fails) =>
      c := C.OnRow(m, C.Work(C.Done));
      if m in s.plane.migrations && C.Working(s.plane.migrations[m].phase) {
        var row := s.plane.migrations[m];
        if fails || (!row.phase.Backfilling? && !row.checkpoint) || ReportOf(h, tenant, s, m, row).Rejected? {
          c := C.OnRow(m, C.Work(C.Rejected));
        }
      }
    case PutAt(_, _, _, _, _) => c := C.NewProfile(0, false);
    case EraseAt(_, _, _, _) => c := C.NewProfile(0, false);
  }

  lemma PlaneKeepsInv(h: Hash, tenant: string, s: Site, a: Action)
    requires C.Inv(s.plane)
    ensures C.Inv(Step(h, tenant, s, a).plane)
  {
    var c := PlaneSteps(h, tenant, s, a);
    C.StepKeepsInv(s.plane, c);
  }

  lemma PutBounded(s: Store, owner: string, key: Bytes, value: Bytes)
    requires D.FeedBounded(s)
    ensures D.FeedBounded(Put(s, owner, key, value))
  {}

  lemma EraseBounded(s: Store, owner: string, keys: seq<Bytes>)
    requires D.FeedBounded(s)
    ensures D.FeedBounded(Erase(s, owner, keys))
  {
    var added := Deletions(s.watermark + 1, owner, keys);
    forall i | 0 <= i < |added| ensures added[i].sequence == s.watermark + 1 {
      D.DeletionsBounded(s.watermark + 1, owner, keys, i);
    }
  }

  /** The worker writes past the change feeds. */
  lemma WorkedKeepsFeeds(tenant: string, s: Site, m: C.Id, row: C.Migration)
    requires FeedsBounded(s) && Paired(s, row) && (Replaying(row.phase) ==> HasMarks(s, m, row))
    ensures FeedsBounded(Worked(tenant, s, m, row))
  {
    var t := Worked(tenant, s, m, row);
    forall p, i | p in t.stores && 0 <= i < |t.stores[p]| ensures D.FeedBounded(t.stores[p][i]) {
      assert D.FeedBounded(s.stores[p][i]);
    }
  }

  lemma StepKeepsFeeds(h: Hash, tenant: string, s: Site, a: Action)
    requires FeedsBounded(s)
    ensures FeedsBounded(Step(h, tenant, s, a))
  {
    match a
    case Control(_) =>
    case Poll(m, fails) =>
      if m in s.plane.migrations && Paired(s, s.plane.migrations[m])
         && (Replaying(s.plane.migrations[m].phase) ==> HasMarks(s, m, s.plane.migrations[m])) {
        WorkedKeepsFeeds(tenant, s, m, s.plane.migrations[m]);
      }
    case PutAt(profile, i, owner, key, value) =>
      if profile in s.stores && i < |s.stores[profile]| { PutBounded(s.stores[profile][i], owner, key, value); }
    case EraseAt(profile, i, owner, keys) =>
      if profile in s.stores && i < |s.stores[profile]| { EraseBounded(s.stores[profile][i], owner, keys); }
  }

  lemma {:induction false} RunKeepsInv(h: Hash, tenant: string, s: Site, actions: seq<Action>)
    requires Inv(s)
    ensures Inv(RunFrom(h, tenant, s, actions))
  {
    if actions != [] {
      var before, last := actions[..|actions| - 1], actions[|actions| - 1];
      RunKeepsInv(h, tenant, s, before);
      PlaneKeepsInv(h, tenant, RunFrom(h, tenant, s, before), last);
      StepKeepsFeeds(h, tenant, RunFrom(h, tenant, s, before), last);
    }
  }

  lemma StartIsSound(s: Site)
    requires Start(s)
    ensures Inv(s)
  {
    C.RunKeepsInv([]);
  }

  // ----- Rows move forward -----

  ghost predicate HasRow(s: Site, m: C.Id) {
    m in s.plane.migrations
  }

  lemma StepMovesForward(h: Hash, tenant: string, s: Site, a: Action, m: C.Id)
    requires C.Inv(s.plane) && HasRow(s, m)
    ensures var t := Step(h, tenant, s, a); HasRow(t, m) && C.Forward(s.plane.migrations[m], t.plane.migrations[m])
  {
    var c := PlaneSteps(h, tenant, s, a);
    C.StepMovesForward(s.plane, c, m);
    C.ForwardSame(s.plane.migrations[m]);
  }

  lemma {:induction false} RunMovesForward(h: Hash, tenant: string, s: Site, actions: seq<Action>, m: C.Id)
    requires Inv(s) && HasRow(s, m)
    ensures var t := RunFrom(h, tenant, s, actions); HasRow(t, m) && C.Forward(s.plane.migrations[m], t.plane.migrations[m])
  {
    C.ForwardSame(s.plane.migrations[m]);
    if actions != [] {
      var before, last := actions[..|actions| - 1], actions[|actions| - 1];
      RunMovesForward(h, tenant, s, before, m);
      RunKeepsInv(h, tenant, s, before);
      StepMovesForward(h, tenant, RunFrom(h, tenant, s, before), last, m);
    }
  }

  /** While one migration is open, only it can give the worker something to do. */
  lemma OnlyOpenWorks(s: Site, m: C.Id, other: C.Id)
    requires C.Inv(s.plane) && HasRow(s, m) && C.Open(s.plane.migrations[m].phase)
    requires HasRow(s, other) && C.Working(s.plane.migrations[other].phase)
    ensures other == m
  {}

  // ----- What a poll does -----

  function NextPhase(phase: C.Phase): C.Phase {
    match phase
    case Backfilling => C.CatchingUp
    case CatchingUp => C.Validating
    case Validating => C.ReadyToSwitch
    case RollingBack => C.RollbackCatchingUp
    case RollbackCatchingUp => C.RollbackValidating
    case RollbackValidating => C.RolledBack
    case other => other
  }

  /** A row the worker may work on: its phase has its checkpoint. */
  lemma WorkableRow(row: C.Migration)
    requires C.RowInv(row) && C.Working(row.phase)
    ensures row.phase.Backfilling? || row.checkpoint
  {}

  lemma RowWorks(row: C.Migration)
    requires C.RowInv(row) && C.Working(row.phase)
    ensures C.WorkRow(row, C.Done).Ok? && C.WorkRow(row, C.Done).value.phase == NextPhase(row.phase)
  {
    WorkableRow(row);
  }

  lemma RowFails(row: C.Migration)
    requires C.Working(row.phase)
    ensures C.WorkRow(row, C.Rejected).Ok?
    ensures C.WorkRow(row, C.Rejected).value.phase == if C.Fenced(row.phase) then row.phase else C.Failed
  {}

  lemma DoneMoves(p: C.Plane, m: C.Id)
    requires C.Inv(p) && m in p.migrations && C.Working(p.migrations[m].phase)
    ensures var q := C.Step(p, C.OnRow(m, C.Work(C.Done))); m in q.migrations && q.migrations[m].phase == NextPhase(p.migrations[m].phase)
  {
    var row := p.migrations[m];
    assert C.RowInv(row);
    RowWorks(row);
    C.WorkKeeps(row, C.Done);
    if C.EndsRollback(row, C.Work(C.Done)) { C.MoveKeepsInv(p, m, C.WorkRow(row, C.Done).value, row.target, row.source); }
  }

  lemma RejectedMoves(p: C.Plane, m: C.Id)
    requires m in p.migrations && C.Working(p.migrations[m].phase)
    ensures var q := C.Step(p, C.OnRow(m, C.Work(C.Rejected)));
      m in q.migrations && q.migrations[m].phase == if C.Fenced(p.migrations[m].phase) then p.migrations[m].phase else C.Failed
  {
    RowFails(p.migrations[m]);
  }

  /** The executor got through the row's phase. */
  ghost predicate Succeeds(h: Hash, tenant: string, s: Site, m: C.Id, fails: bool) {
    m in s.plane.migrations && !fails && ReportOf(h, tenant, s, m, s.plane.migrations[m]).Done?
  }

  /** A poll either does the phase's work and advances, or changes no store and fails or stays fenced. */
  lemma PollOutcome(h: Hash, tenant: string, s: Site, m: C.Id, fails: bool, row: C.Migration, t: Site)
    requires C.Inv(s.plane) && HasRow(s, m) && row == s.plane.migrations[m] && C.Working(row.phase)
    requires t == Step(h, tenant, s, Poll(m, fails))
    ensures HasRow(t, m)
    ensures Succeeds(h, tenant, s, m, fails) ==>
      && Paired(s, row) && (Replaying(row.phase) ==> HasMarks(s, m, row)) && t.plane.migrations[m].phase == NextPhase(row.phase)
      && t.stores == Worked(tenant, s, m, row).stores && t.marks == Worked(tenant, s, m, row).marks
    ensures !Succeeds(h, tenant, s, m, fails) ==>
      && t.plane.migrations[m].phase == (if C.Fenced(row.phase) then row.phase else C.Failed)
      && t.stores == s.stores && t.marks == s.marks
  {
    assert C.RowInv(row);
    WorkableRow(row);
    if Succeeds(h, tenant, s, m, fails) { DoneMoves(s.plane, m); } else { RejectedMoves(s.plane, m); }
  }

  /** The three rollback phases of a paired migration, spelled out. */
  lemma CopyBack(h: Hash, tenant: string, s: Site, m: C.Id, fails: bool, row: C.Migration, t: Site)
    requires C.Inv(s.plane) && HasRow(s, m) && row == s.plane.migrations[m] && row.phase.RollingBack? && Paired(s, row)
    requires t == Step(h, tenant, s, Poll(m, fails))
    ensures HasRow(t, m) && t.plane.migrations[m].phase == if fails then C.RollingBack else C.RollbackCatchingUp
    ensures t.stores == if fails then s.stores
      else s.stores[row.source := CopyAll(s.stores[row.target], s.stores[row.source], tenant)]
    ensures !fails ==> t.marks == s.marks[(m, true) := Watermarks(s.stores[row.target])]
  {
    PollOutcome(h, tenant, s, m, fails, row, t);
  }

  lemma ReplayBack(h: Hash, tenant: string, s: Site, m: C.Id, fails: bool, row: C.Migration, t: Site)
    requires C.Inv(s.plane) && HasRow(s, m) && row == s.plane.migrations[m] && row.phase.RollbackCatchingUp? && Paired(s, row)
    requires (m, true) in s.marks && |s.marks[(m, true)]| == |s.stores[row.source]|
    requires t == Step(h, tenant, s, Poll(m, fails))
    ensures HasRow(t, m) && t.plane.migrations[m].phase == if fails then C.RollbackCatchingUp else C.RollbackValidating
    ensures t.stores == if fails then s.stores
      else s.stores[row.source := ReplayAll(s.stores[row.target], s.stores[row.source], tenant, s.marks[(m, true)])]
    ensures fails ==> t.marks == s.marks
  {
    PollOutcome(h, tenant, s, m, fails, row, t);
  }

  lemma ProvingReport(h: Hash, tenant: string, s: Site, m: C.Id, row: C.Migration)
    requires row.phase.RollbackValidating? && Paired(s, row)
    ensures ReportOf(h, tenant, s, m, row).Done? <==> Accepts(h, s.stores[row.target], s.stores[row.source], tenant)
  {}

  lemma ProvingPoll(h: Hash, tenant: string, s: Site, m: C.Id, fails: bool, row: C.Migration, t: Site)
    requires C.Inv(s.plane) && HasRow(s, m) && row == s.plane.migrations[m] && row.phase.RollbackValidating? && Paired(s, row)
    requires t == Step(h, tenant, s, Poll(m, fails))
    ensures HasRow(t, m) && t.stores == s.stores
    ensures t.plane.migrations[m].phase == if Succeeds(h, tenant, s, m, fails) then C.RolledBack else C.RollbackValidating
  {
    PollOutcome(h, tenant, s, m, fails, row, t);
  }

  lemma ProveBack(h: Hash, tenant: string, s: Site, m: C.Id, fails: bool, row: C.Migration, t: Site)
    requires C.Inv(s.plane) && HasRow(s, m) && row == s.plane.migrations[m] && row.phase.RollbackValidating? && Paired(s, row)
    requires t == Step(h, tenant, s, Poll(m, fails))
    ensures HasRow(t, m) && t.stores == s.stores
    ensures t.plane.migrations[m].phase ==
      if !fails && Accepts(h, s.stores[row.target], s.stores[row.source], tenant) then C.RolledBack else C.RollbackValidating
  {
    ProvingPoll(h, tenant, s, m, fails, row, t);
    ProvingReport(h, tenant, s, m, row);
  }
}
