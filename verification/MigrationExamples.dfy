/** One whole migration, step by step: to the switch, and into a rollback that cannot end. */
module MigrationExamples {
  import opened Prelude
  import opened StorageAdapter
  import opened Fingerprint
  import opened MigrationSite
  import opened MigrationEndToEnd
  import C = MigrationControl
  import D = MigrationData

  // ----- Up to the start of the worker -----

  function Controls(actions: seq<C.Action>): seq<Action> {
    if actions == [] then [] else Controls(actions[..|actions| - 1]) + [Control(actions[|actions| - 1])]
  }

  predicate Endpoints(actions: seq<C.Action>) {
    forall i :: 0 <= i < |actions| ==> !(actions[i].OnRow? && actions[i].action.Work?)
  }

  /** Without the worker a run of the site is a run of its control plane. */
  lemma {:induction false} ControlRun(h: Hash, tenant: string, start: Site, actions: seq<C.Action>)
    requires start.plane == C.INITIAL && Endpoints(actions)
    ensures RunFrom(h, tenant, start, Controls(actions)) == start.(plane := C.Run(actions))
  {
    if actions != [] {
      var before, last := actions[..|actions| - 1], actions[|actions| - 1];
      ControlRun(h, tenant, start, before);
      RunMore(h, tenant, start, Controls(before), Control(last));
    }
  }

  function Asked(): seq<C.Action> {
    [C.NewMigration(0, 1, "a", 60)] + [C.OnRow(0, C.Decide("b", true))]
  }

  /** Profile 0 is active, and the migration to profile 1 was requested, approved and started. */
  function Opening(): seq<C.Action> {
    C.Founding() + (Asked() + [C.OnRow(0, C.Start)])
  }

  const FOUNDED := C.Plane(map[0 := true, 1 := false], map[], Some(0))

  function RowIn(phase: C.Phase): C.Migration {
    C.Prospect(0, 1, phase, "a", "b", 60)
  }

  function PlaneIn(phase: C.Phase): C.Plane {
    C.SetRow(FOUNDED, 0, RowIn(phase))
  }

  lemma OpeningRun()
    ensures C.Run(Opening()) == PlaneIn(C.Backfilling) && Endpoints(Opening())
  {
    C.FoundingRun();
    C.AttemptPrepares(C.Founding(), 0, 0, 1, "a", "b", 60);
    C.ProspectAdvances(0, 1, "a", "b", 60);
    C.RunOnRow(C.Founding(), Asked(), FOUNDED, 0, RowIn(C.Prepared), C.Start, RowIn(C.Backfilling));
  }

  // ----- The three polls -----

  lemma PollAdvances(h: Hash, tenant: string, s: Site, phase: C.Phase)
    requires s.plane == PlaneIn(phase) && (phase.Backfilling? || phase.CatchingUp? || phase.Validating?)
    requires ReportOf(h, tenant, s, 0, RowIn(phase)).Done?
    ensures Step(h, tenant, s, Poll(0, false)) == Worked(tenant, s, 0, RowIn(phase)).(plane := PlaneIn(NextPhase(phase)))
  {
    C.ProspectAdvances(0, 1, "a", "b", 60);
    C.StepOnRow(FOUNDED, 0, RowIn(phase), C.Work(C.Done), RowIn(NextPhase(phase)));
  }

  /** Two profiles with an adapter for every kind, the new one without keys that the old one lacks. */
  ghost predicate Twins(stores: map<C.Id, seq<Store>>, a: seq<Store>, b: seq<Store>, tenant: string) {
    0 in stores && 1 in stores && stores[0] == a && stores[1] == b && |a| == |b| > 0 && NoStale(b, a, tenant)
  }

  lemma FirstPoll(h: Hash, tenant: string, s: Site, a: seq<Store>, b: seq<Store>)
    requires Twins(s.stores, a, b, tenant) && s.plane == PlaneIn(C.Backfilling) && s.marks == map[]
    ensures Step(h, tenant, s, Poll(0, false)) ==
      Site(PlaneIn(C.CatchingUp), s.stores[1 := CopyAll(a, b, tenant)], map[(0, false) := Watermarks(a)])
  {
    PollAdvances(h, tenant, s, C.Backfilling);
  }

  lemma SecondPoll(h: Hash, tenant: string, s: Site, a: seq<Store>, copied: seq<Store>)
    requires 0 in s.stores && 1 in s.stores && s.stores[0] == a && s.stores[1] == copied && |a| == |copied| > 0
    requires s.plane == PlaneIn(C.CatchingUp) && s.marks == map[(0, false) := Watermarks(a)]
    requires forall i :: 0 <= i < |a| ==> D.FeedBounded(a[i])
    ensures Step(h, tenant, s, Poll(0, false)) == s.(plane := PlaneIn(C.Validating))
  {
    PollAdvances(h, tenant, s, C.CatchingUp);
    ReplayNothing(a, copied, tenant);
    assert s.stores[1 := copied] == s.stores && s.marks[(0, false) := Watermarks(a)] == s.marks;
  }

  lemma ProofAccepted(h: Hash, tenant: string, s: Site, row: C.Migration)
    requires row.phase.Validating? && Paired(s, row) && Accepts(h, s.stores[row.source], s.stores[row.target], tenant)
    ensures ReportOf(h, tenant, s, 0, row).Done? && Worked(tenant, s, 0, row) == s
  {}

  lemma ThirdPoll(h: Hash, tenant: string, s: Site, a: seq<Store>, copied: seq<Store>)
    requires 0 in s.stores && 1 in s.stores && s.stores[0] == a && s.stores[1] == copied && |a| > 0 && SameData(a, copied, tenant)
    requires s.plane == PlaneIn(C.Validating)
    ensures Step(h, tenant, s, Poll(0, false)) == s.(plane := PlaneIn(C.ReadyToSwitch))
  {
    SameAccepted(h, a, copied, tenant);
    ProofAccepted(h, tenant, s, RowIn(C.Validating));
    PollAdvances(h, tenant, s, C.Validating);
  }

  function ToProof(): seq<Action> {
    Controls(Opening()) + [Poll(0, false)] + [Poll(0, false)]
  }

  /** The site when the copy has been made and awaits its proof. */
  ghost predicate Copied(s: Site, start: Site, a: seq<Store>, b: seq<Store>, tenant: string) {
    && s.plane == PlaneIn(C.Validating) && |a| == |b| > 0 && s.stores == start.stores[1 := CopyAll(a, b, tenant)]
    && 0 in start.stores && 1 in start.stores && start.stores[0] == a && start.stores[1] == b
  }

  lemma ToProofRun(h: Hash, tenant: string, start: Site, a: seq<Store>, b: seq<Store>)
    requires Start(start) && Twins(start.stores, a, b, tenant)
    ensures Copied(RunFrom(h, tenant, start, ToProof()), start, a, b, tenant)
  {
    OpeningRun();
    ControlRun(h, tenant, start, Opening());
    var running := start.(plane := PlaneIn(C.Backfilling));
    FirstPoll(h, tenant, running, a, b);
    RunMore(h, tenant, start, Controls(Opening()), Poll(0, false));
    SecondPoll(h, tenant, Step(h, tenant, running, Poll(0, false)), a, CopyAll(a, b, tenant));
    RunMore(h, tenant, start, Controls(Opening()) + [Poll(0, false)], Poll(0, false));
  }

  /**
  Whatever the profiles hold, as long as the new one has no key of its own, the run comes to a
  validation that is accepted, and so to a switch.
  */
  lemma SwitchIsReached(h: Hash, tenant: string, start: Site, a: seq<Store>, b: seq<Store>, v: Site)
    requires Start(start) && Twins(start.stores, a, b, tenant) && v == RunFrom(h, tenant, start, ToProof())
    ensures HasRow(v, 0) && PhaseOf(v, 0).Validating?
    ensures Step(h, tenant, v, Poll(0, false)) == v.(plane := PlaneIn(C.ReadyToSwitch))
    ensures v.stores == start.stores[1 := CopyAll(a, b, tenant)]
  {
    ToProofRun(h, tenant, start, a, b);
    CopySame(a, b, tenant);
    ThirdPoll(h, tenant, v, a, CopyAll(a, b, tenant));
  }

  lemma SameNulFree(a: seq<Store>, b: seq<Store>, tenant: string)
    requires SameData(a, b, tenant) && AllNulFree(a, tenant)
    ensures AllNulFree(b, tenant)
  {
    forall i | 0 <= i < |b| ensures ContentNulFree(ContentOf(b[i].objects, tenant)) {
      assert ContentNulFree(ContentOf(a[i].objects, tenant));
    }
  }

  /** With contents free of NUL bytes its third poll meets every hypothesis of switch soundness but the hash's. */
  lemma SwitchMeetsSoundness(h: Hash, tenant: string, start: Site, a: seq<Store>, b: seq<Store>, v: Site, w: Site)
    requires Start(start) && Twins(start.stores, a, b, tenant) && AllNulFree(a, tenant)
    requires v == RunFrom(h, tenant, start, ToProof()) && w == Step(h, tenant, v, Poll(0, false))
    ensures HasRow(v, 0) && PhaseOf(v, 0).Validating? && HasRow(w, 0) && PhaseOf(w, 0).ReadyToSwitch?
    ensures 0 in w.stores && 1 in w.stores && AllNulFree(w.stores[0], tenant) && AllNulFree(w.stores[1], tenant)
  {
    SwitchIsReached(h, tenant, start, a, b, v);
    CopySame(a, b, tenant);
    SameNulFree(a, CopyAll(a, b, tenant), tenant);
  }

  // ----- The switch, and an approved rollback -----

  function Observed(now: int): C.Migration {
    RowIn(C.ReadyToSwitch).(phase := C.Observing, observationEndsAt := Some(now + 60), switchedAt := Some(now))
  }

  const SWITCHED := C.Plane(map[0 := false, 1 := true], map[], Some(0))

  lemma SwitchPlane(now: int)
    ensures C.Step(PlaneIn(C.ReadyToSwitch), C.SwitchAt(0, now)) == C.SetRow(SWITCHED, 0, Observed(now))
  {
    var p := PlaneIn(C.ReadyToSwitch);
    C.MoveActiveWorks(p, 0, 1);
    assert map[0 := true, 1 := false][0 := false][1 := true] == SWITCHED.profiles;
    C.SetRowTwice(FOUNDED, 0, RowIn(C.ReadyToSwitch), Observed(now));
  }

  function Approved(now: int): C.Migration {
    Observed(now).(rollbackApproval := C.RollbackApproved, rollbackRequestedBy := Some("a"), rollbackApprovedBy := Some("b"))
  }

  lemma RollbackApprovedPlane(now: int, p: C.Plane, q: C.Plane)
    requires p == C.SetRow(SWITCHED, 0, Observed(now)) && q == C.Step(p, C.OnRow(0, C.RequestRollback("a")))
    ensures C.Step(q, C.OnRow(0, C.DecideRollback("b", true))) == C.SetRow(SWITCHED, 0, Approved(now))
  {
    var asked := Observed(now).(rollbackApproval := C.RollbackPending, rollbackRequestedBy := Some("a"));
    C.StepOnRow(SWITCHED, 0, Observed(now), C.RequestRollback("a"), asked);
    C.StepOnRow(SWITCHED, 0, asked, C.DecideRollback("b", true), Approved(now));
  }

  function ToSwitch(now: int): seq<Action> {
    ToProof() + [Poll(0, false)] + [Control(C.SwitchAt(0, now))]
  }

  function ToRetreat(now: int): seq<Action> {
    ToSwitch(now) + [Control(C.OnRow(0, C.RequestRollback("a")))] + [Control(C.OnRow(0, C.DecideRollback("b", true)))]
  }

  lemma ToSwitchRun(h: Hash, tenant: string, start: Site, a: seq<Store>, b: seq<Store>, now: int)
    requires Start(start) && Twins(start.stores, a, b, tenant)
    ensures var s := RunFrom(h, tenant, start, ToSwitch(now));
      s.plane == C.SetRow(SWITCHED, 0, Observed(now)) && s.stores == start.stores[1 := CopyAll(a, b, tenant)]
  {
    var v := RunFrom(h, tenant, start, ToProof());
    SwitchIsReached(h, tenant, start, a, b, v);
    RunMore(h, tenant, start, ToProof(), Poll(0, false));
    RunMore(h, tenant, start, ToProof() + [Poll(0, false)], Control(C.SwitchAt(0, now)));
    SwitchPlane(now);
  }

  /** The run goes on to an approved rollback, with the resolver routing the tenant to the new profile. */
  lemma ToRetreatRun(h: Hash, tenant: string, start: Site, a: seq<Store>, b: seq<Store>, now: int)
    requires Start(start) && Twins(start.stores, a, b, tenant)
    ensures var s := RunFrom(h, tenant, start, ToRetreat(now));
      && s.plane == C.SetRow(SWITCHED, 0, Approved(now)) && C.Resolve(s.plane) == Some(1)
      && s.stores == start.stores[1 := CopyAll(a, b, tenant)]
  {
    ToSwitchRun(h, tenant, start, a, b, now);
    var ask, decide := Control(C.OnRow(0, C.RequestRollback("a"))), Control(C.OnRow(0, C.DecideRollback("b", true)));
    RunMore(h, tenant, start, ToSwitch(now), ask);
    RunMore(h, tenant, start, ToSwitch(now) + [ask], decide);
    var p := C.SetRow(SWITCHED, 0, Observed(now));
    RollbackApprovedPlane(now, p, C.Step(p, C.OnRow(0, C.RequestRollback("a"))));
    StartIsSound(start);
    MigrationSite.RunKeepsInv(h, tenant, start, ToRetreat(now));
    RoutedToTarget(RunFrom(h, tenant, start, ToRetreat(now)).plane, now);
  }

  lemma RoutedToTarget(p: C.Plane, now: int)
    requires C.Inv(p) && p == C.SetRow(SWITCHED, 0, Approved(now))
    ensures C.Resolve(p) == Some(1)
  {
    C.ResolverOutcome(p, 0);
    assert forall o :: o != 0 ==> !C.DeadAttempt(p, o, 1);
  }

  // ----- The stranded tenant -----

  /** One kind of store; the old profile holds one entry of the tenant, the new one nothing. */
  function Platform(tenant: string): Site {
    Site(C.INITIAL, map[0 := [Store(map[(tenant, [1]) := [2]], 0, [])], 1 := [Store(map[], 0, [])]], map[])
  }

  lemma PlatformStarts(tenant: string)
    ensures var s := Platform(tenant); Start(s) && Twins(s.stores, s.stores[0], s.stores[1], tenant)
  {}

  lemma PlatformNulFree(tenant: string)
    ensures AllNulFree(Platform(tenant).stores[0], tenant)
  {
    var a := Platform(tenant).stores[0];
    ContentIs(a[0].objects, tenant, map[[1] := [2]]);
  }

  /** So the hypotheses of switch soundness are met on this platform, with nothing written in between. */
  lemma PlatformMeetsSoundness(h: Hash, tenant: string, v: Site, w: Site)
    requires v == RunFrom(h, tenant, Platform(tenant), ToProof()) && w == Step(h, tenant, v, Poll(0, false))
    ensures Start(Platform(tenant)) && HasRow(v, 0) && PhaseOf(v, 0).Validating? && HasRow(w, 0) && PhaseOf(w, 0).ReadyToSwitch?
    ensures 0 in w.stores && 1 in w.stores && AllNulFree(w.stores[0], tenant) && AllNulFree(w.stores[1], tenant)
  {
    var start := Platform(tenant);
    PlatformStarts(tenant);
    PlatformNulFree(tenant);
    SwitchMeetsSoundness(h, tenant, start, start.stores[0], start.stores[1], v, w);
  }

  function Erasing(tenant: string): Action {
    EraseAt(1, 0, tenant, [[1]])
  }

  lemma ErasedKeys(tenant: string, a: seq<Store>, b: seq<Store>)
    requires var s := Platform(tenant); a == s.stores[0] && b == s.stores[1]
    ensures Enumerates([[1]], CopyAll(a, b, tenant)[0].objects, tenant) && (tenant, [1]) in a[0].objects
  {
    forall k ensures k in [[1]] <==> (tenant, k) in CopyAll(a, b, tenant)[0].objects {
      D.OverwriteLookup(b[0].objects, tenant, ContentOf(a[0].objects, tenant), tenant, k);
    }
  }

  function ToRollback(tenant: string, now: int): seq<Action> {
    ToRetreat(now) + [Erasing(tenant)] + [Control(C.OnRow(0, C.Rollback))]
  }

  /**
  On this platform the migration succeeds, the rollback is approved, the tenant is erased
  where the resolver sends its writes, and the rollback is started: from then on, in every
  routed continuation and whatever the hash, the tenant has no profile.
  */
  lemma ErasureStrandsPlatform(h: Hash, tenant: string, now: int, actions: seq<Action>, s0: Site)
    requires s0 == RunFrom(h, tenant, Platform(tenant), ToRollback(tenant, now)) && Routed(h, tenant, s0, actions)
    ensures C.Resolve(RunFrom(h, tenant, Platform(tenant), ToRetreat(now)).plane) == Some(Erasing(tenant).profile)
    ensures var last := RunFrom(h, tenant, s0, actions); HasRow(last, 0) && C.Fenced(PhaseOf(last, 0)) && C.Resolve(last.plane) == None
  {
    var start := Platform(tenant);
    var a, b := start.stores[0], start.stores[1];
    PlatformStarts(tenant);
    ToRetreatRun(h, tenant, start, a, b, now);
    ErasedKeys(tenant, a, b);
    var s, rollback := RunFrom(h, tenant, start, ToRetreat(now)), Control(C.OnRow(0, C.Rollback));
    RunMore(h, tenant, start, ToRetreat(now), Erasing(tenant));
    RunMore(h, tenant, start, ToRetreat(now) + [Erasing(tenant)], rollback);
    ErasureStrandsRollback(h, tenant, start, ToRetreat(now), s, 0, Approved(now), 0, [[1]], [1], Step(h, tenant, s, Erasing(tenant)),
                           s0, actions, RunFrom(h, tenant, s0, actions));
  }
}
