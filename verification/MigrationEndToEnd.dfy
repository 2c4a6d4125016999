/** What a switch and a rollback mean for the tenant's data. */
module MigrationEndToEnd {
  import opened Prelude
  import opened StorageAdapter
  import opened Fingerprint
  import opened MigrationEvidence
  import opened MigrationSite
  import C = MigrationControl
  import D = MigrationData

  function PhaseOf(s: Site, m: C.Id): C.Phase
    requires m in s.plane.migrations
  {
    s.plane.migrations[m].phase
  }

  // ----- The switch -----

  ghost predicate AllNulFree(stores: seq<Store>, tenant: string) {
    forall i :: 0 <= i < |stores| ==> ContentNulFree(ContentOf(stores[i].objects, tenant))
  }

  predicate SameData(a: seq<Store>, b: seq<Store>, tenant: string) {
    |a| == |b| && forall i :: 0 <= i < |a| ==> ContentOf(a[i].objects, tenant) == ContentOf(b[i].objects, tenant)
  }

  lemma SnapshotsSame(from: seq<Store>, to: seq<Store>, tenant: string)
    requires |from| == |to|
    ensures Contents(Snapshots(from, tenant)) == Contents(Snapshots(to, tenant)) <==> SameData(from, to, tenant)
  {
    var a, b := Contents(Snapshots(from, tenant)), Contents(Snapshots(to, tenant));
    if a == b {
      forall i | 0 <= i < |from| ensures ContentOf(from[i].objects, tenant) == ContentOf(to[i].objects, tenant) {
        assert a[i] == b[i];
      }
    }
  }

  /** Accepted evidence of these stores: the same data, or two of the strings hashed for them collide. */
  lemma AcceptedIsSame(h: Hash, from: seq<Store>, to: seq<Store>, tenant: string)
    requires FixedLength(h) && |from| == |to| && Accepts(h, from, to, tenant) && AllNulFree(from, tenant) && AllNulFree(to, tenant)
    ensures SameData(from, to, tenant) || HashBroken(h, Snapshots(from, tenant), Snapshots(to, tenant))
  {
    var e :| IsEvidence(h, Snapshots(from, tenant), Snapshots(to, tenant), e) && e.IsValid();
    ValidationSound(h, Snapshots(from, tenant), Snapshots(to, tenant), e);
    SnapshotsSame(from, to, tenant);
  }

  /** A poll moves a migration to READY_TO_SWITCH only by accepting its evidence, and leaves the stores alone. */
  lemma ReadyWasAccepted(h: Hash, tenant: string, s: Site, m: C.Id, fails: bool)
    requires C.Inv(s.plane) && HasRow(s, m) && PhaseOf(s, m).Validating?
    requires HasRow(Step(h, tenant, s, Poll(m, fails)), m) && PhaseOf(Step(h, tenant, s, Poll(m, fails)), m).ReadyToSwitch?
    ensures var row := s.plane.migrations[m];
      Paired(s, row) && Accepts(h, s.stores[row.source], s.stores[row.target], tenant)
    ensures Step(h, tenant, s, Poll(m, fails)).stores == s.stores
  {
    PollOutcome(h, tenant, s, m, fails, s.plane.migrations[m], Step(h, tenant, s, Poll(m, fails)));
  }

  lemma ReadyStaysReady(row: C.Migration, middle: C.Migration, last: C.Migration)
    requires row.phase.ReadyToSwitch? && C.Forward(row, middle) && C.Forward(middle, last) && last.phase.ReadyToSwitch?
    ensures middle.phase.ReadyToSwitch?
  {}

  lemma ReadyStepKeepsStores(h: Hash, tenant: string, s: Site, a: Action, m: C.Id)
    requires C.Inv(s.plane) && HasRow(s, m) && PhaseOf(s, m).ReadyToSwitch? && !a.PutAt? && !a.EraseAt?
    ensures Step(h, tenant, s, a).stores == s.stores
  {
    if a.Poll? && HasRow(s, a.m) && C.Working(PhaseOf(s, a.m)) { OnlyOpenWorks(s, m, a.m); }
  }

  /** From acceptance to the switch the worker touches nothing. */
  lemma {:induction false} ReadyKeepsStores(h: Hash, tenant: string, s: Site, actions: seq<Action>, m: C.Id)
    requires Inv(s) && HasRow(s, m) && PhaseOf(s, m).ReadyToSwitch? && Quiet(actions)
    requires HasRow(RunFrom(h, tenant, s, actions), m) && PhaseOf(RunFrom(h, tenant, s, actions), m).ReadyToSwitch?
    ensures RunFrom(h, tenant, s, actions).stores == s.stores
  {
    if actions != [] {
      var before, last := actions[..|actions| - 1], actions[|actions| - 1];
      var t := RunFrom(h, tenant, s, before);
      RunKeepsInv(h, tenant, s, before);
      RunMovesForward(h, tenant, s, before, m);
      StepMovesForward(h, tenant, t, last, m);
      ReadyStaysReady(s.plane.migrations[m], t.plane.migrations[m], Step(h, tenant, t, last).plane.migrations[m]);
      ReadyKeepsStores(h, tenant, s, before, m);
      ReadyStepKeepsStores(h, tenant, t, last, m);
    }
  }

  /**
  Switch soundness.  In every run, if a migration's evidence was accepted and nothing but the
  worker has written since, then at the moment it can be switched the new profile holds the
  tenant's data exactly as the old one does, or two of the strings hashed for these stores
  collide.
  */
  lemma SwitchIsSound(h: Hash, tenant: string, start: Site, before: seq<Action>, m: C.Id, fails: bool, after: seq<Action>,
                      v: Site, w: Site, s: Site)
    requires FixedLength(h) && Start(start) && v == RunFrom(h, tenant, start, before) && w == Step(h, tenant, v, Poll(m, fails))
    requires HasRow(v, m) && PhaseOf(v, m).Validating? && HasRow(w, m) && PhaseOf(w, m).ReadyToSwitch?
    requires Quiet(after) && s == RunFrom(h, tenant, w, after) && HasRow(s, m) && PhaseOf(s, m).ReadyToSwitch?
    requires var row := s.plane.migrations[m];
      row.source in s.stores && row.target in s.stores ==> AllNulFree(s.stores[row.source], tenant) && AllNulFree(s.stores[row.target], tenant)
    ensures var row := s.plane.migrations[m];
      && Paired(s, row)
      && (SameData(s.stores[row.source], s.stores[row.target], tenant)
          || HashBroken(h, Snapshots(s.stores[row.source], tenant), Snapshots(s.stores[row.target], tenant)))
  {
    StartIsSound(start);
    RunKeepsInv(h, tenant, start, before);
    ReadyWasAccepted(h, tenant, v, m, fails);
    PlaneKeepsInv(h, tenant, v, Poll(m, fails));
    StepKeepsFeeds(h, tenant, v, Poll(m, fails));
    StepMovesForward(h, tenant, v, Poll(m, fails), m);
    RunMovesForward(h, tenant, w, after, m);
    ReadyKeepsStores(h, tenant, w, after, m);
    var row := v.plane.migrations[m];
    AcceptedIsSame(h, v.stores[row.source], v.stores[row.target], tenant);
  }

  // ----- What a copy is accepted for -----

  /** The old adapters hold no key of the tenant that the new ones lack. */
  ghost predicate NoStale(to: seq<Store>, from: seq<Store>, tenant: string) {
    |to| == |from| && forall i :: 0 <= i < |to| ==> D.NoStaleKeys(to[i].objects, from[i].objects, tenant)
  }

  lemma CopySame(from: seq<Store>, to: seq<Store>, tenant: string)
    requires NoStale(to, from, tenant)
    ensures SameData(from, CopyAll(from, to, tenant), tenant)
  {
    forall i | 0 <= i < |from| ensures ContentOf(from[i].objects, tenant) == ContentOf(CopyAll(from, to, tenant)[i].objects, tenant) {
      D.SnapshotCopiesExactlyWhen(to[i].objects, from[i].objects, tenant);
    }
  }

  lemma SameAccepted(h: Hash, from: seq<Store>, to: seq<Store>, tenant: string)
    requires SameData(from, to, tenant)
    ensures Accepts(h, from, to, tenant)
  {
    var a, b := Snapshots(from, tenant), Snapshots(to, tenant);
    var e := EvidenceExists(h, a, b);
    SnapshotsSame(from, to, tenant);
    ValidationComplete(h, a, b, e);
  }

  lemma {:induction false} SumsOrdered(a: seq<nat>, b: seq<nat>)
    requires |a| == |b| && forall i :: 0 <= i < |a| ==> a[i] <= b[i]
    ensures Sum(a) <= Sum(b) && (Sum(a) == Sum(b) ==> a == b)
  {
    if a != [] {
      var n := |a| - 1;
      SumsOrdered(a[..n], b[..n]);
      assert a == a[..n] + [a[n]] && b == b[..n] + [b[n]];
    }
  }

  lemma MeasuredCounts(h: Hash, sources: seq<Snapshot>, targets: seq<Snapshot>, ms: seq<Measure>, i: nat)
    requires Collected(h, sources, targets, ms) && i < |ms|
    ensures SourceCounts(ms)[i] == |sources[i].content| && TargetCounts(ms)[i] == |targets[i].content|
  {
    assert Measures(h, sources[i], targets[i], ms[i]);
  }

  lemma MeasuredEqual(h: Hash, sources: seq<Snapshot>, targets: seq<Snapshot>, ms: seq<Measure>, i: nat)
    requires Collected(h, sources, targets, ms) && i < |ms| && Sum(SourceCounts(ms)) == Sum(TargetCounts(ms))
    requires forall j :: 0 <= j < |sources| ==> |sources[j].content| <= |targets[j].content|
    ensures |sources[i].content| == |targets[i].content|
  {
    forall j | 0 <= j < |ms| ensures SourceCounts(ms)[j] <= TargetCounts(ms)[j] { MeasuredCounts(h, sources, targets, ms, j); }
    SumsOrdered(SourceCounts(ms), TargetCounts(ms));
    MeasuredCounts(h, sources, targets, ms, i);
  }

  /** Where no source holds more entries than its target, accepted evidence means that all hold as many. */
  lemma ValidCounts(h: Hash, sources: seq<Snapshot>, targets: seq<Snapshot>, e: Evidence, i: nat)
    requires IsEvidence(h, sources, targets, e) && e.IsValid() && i < |sources|
    requires forall j :: 0 <= j < |sources| ==> |sources[j].content| <= |targets[j].content|
    ensures |sources[i].content| == |targets[i].content|
  {
    var ms: seq<Measure> :| Collected(h, sources, targets, ms) && e == Collect(h, ms);
    MeasuredEqual(h, sources, targets, ms, i);
  }

  lemma {:induction false} SmallerSet(a: set<Bytes>, b: set<Bytes>)
    requires a <= b
    ensures |a| <= |b| && (|a| == |b| ==> a == b)
  {
    if b != {} {
      var x :| x in b;
      SmallerSet(a - {x}, b - {x});
    }
  }

  lemma CopyKeys(to: Objects, from: Objects, tenant: string)
    ensures var copied := ContentOf(D.Overwrite(to, tenant, ContentOf(from, tenant)), tenant);
      ContentOf(from, tenant).Keys <= copied.Keys && forall k :: (tenant, k) in to ==> k in copied
  {
    forall k ensures k in ContentOf(from, tenant) || (tenant, k) in to ==>
      k in ContentOf(D.Overwrite(to, tenant, ContentOf(from, tenant)), tenant)
    {
      D.OverwriteLookup(to, tenant, ContentOf(from, tenant), tenant, k);
    }
  }

  lemma CopyCounts(to: Objects, from: Objects, tenant: string)
    ensures var copied := ContentOf(D.Overwrite(to, tenant, ContentOf(from, tenant)), tenant);
      |ContentOf(from, tenant)| <= |copied| && (|ContentOf(from, tenant)| == |copied| ==> D.NoStaleKeys(to, from, tenant))
  {
    CopyKeys(to, from, tenant);
    var copied := ContentOf(D.Overwrite(to, tenant, ContentOf(from, tenant)), tenant);
    SmallerSet(ContentOf(from, tenant).Keys, copied.Keys);
  }

  lemma AcceptedCopyHasNoStale(h: Hash, from: seq<Store>, to: seq<Store>, tenant: string, i: nat)
    requires |from| == |to| && Accepts(h, from, CopyAll(from, to, tenant), tenant) && i < |to|
    ensures D.NoStaleKeys(to[i].objects, from[i].objects, tenant)
  {
    var a, b := Snapshots(from, tenant), Snapshots(CopyAll(from, to, tenant), tenant);
    var e :| IsEvidence(h, a, b, e) && e.IsValid();
    forall j | 0 <= j < |a| ensures |a[j].content| <= |b[j].content| {
      CopyCounts(to[j].objects, from[j].objects, tenant);
    }
    ValidCounts(h, a, b, e, i);
    CopyCounts(to[i].objects, from[i].objects, tenant);
  }

  /** A copied profile is accepted against its source exactly when it held no other key: the counts alone tell. */
  lemma CopyAcceptedExactlyWhen(h: Hash, from: seq<Store>, to: seq<Store>, tenant: string)
    requires |from| == |to|
    ensures Accepts(h, from, CopyAll(from, to, tenant), tenant) <==> NoStale(to, from, tenant)
  {
    if NoStale(to, from, tenant) {
      CopySame(from, to, tenant);
      SameAccepted(h, from, CopyAll(from, to, tenant), tenant);
    }
    if Accepts(h, from, CopyAll(from, to, tenant), tenant) {
      forall i | 0 <= i < |to| ensures D.NoStaleKeys(to[i].objects, from[i].objects, tenant) {
        AcceptedCopyHasNoStale(h, from, to, tenant, i);
      }
    }
  }

  // ----- The rollback -----

  lemma {:induction false} NothingSince(changes: seq<Change>, tenant: string, watermark: nat)
    requires forall i :: 0 <= i < |changes| ==> changes[i].sequence <= watermark
    ensures ChangesSince(changes, tenant, watermark) == []
  {
    if changes != [] { NothingSince(changes[..|changes| - 1], tenant, watermark); }
  }

  /** Replaying a feed from its own end changes nothing. */
  lemma ReplayNothing(from: seq<Store>, to: seq<Store>, tenant: string)
    requires |from| == |to| && forall i :: 0 <= i < |from| ==> D.FeedBounded(from[i])
    ensures ReplayAll(from, to, tenant, Watermarks(from)) == to
  {
    forall i | 0 <= i < |to| ensures ReplayAll(from, to, tenant, Watermarks(from))[i] == to[i] {
      NothingSince(from[i].changes, tenant, from[i].watermark);
    }
  }

  /** Where a rollback that began in s0 stands: the new profile untouched, the old one as it was or copied over. */
  ghost predicate RollingFrom(s0: Site, s: Site, m: C.Id, tenant: string) {
    && HasRow(s0, m) && HasRow(s, m) && C.Fenced(PhaseOf(s, m)) && Paired(s0, s0.plane.migrations[m])
    && var row := s0.plane.migrations[m]; var from, to := s0.stores[row.target], s0.stores[row.source];
      && s.plane.migrations[m].source == row.source && s.plane.migrations[m].target == row.target && row.source != row.target
      && if PhaseOf(s, m).RollingBack? then s.stores == s0.stores
         else s.stores == s0.stores[row.source := CopyAll(from, to, tenant)]
              && (PhaseOf(s, m).RollbackCatchingUp? ==> (m, true) in s.marks && s.marks[(m, true)] == Watermarks(from))
  }

  lemma RollbackStart(s0: Site, m: C.Id, tenant: string)
    requires C.Inv(s0.plane) && HasRow(s0, m) && PhaseOf(s0, m).RollingBack? && Paired(s0, s0.plane.migrations[m])
    ensures RollingFrom(s0, s0, m, tenant)
  {
    assert C.RowInv(s0.plane.migrations[m]);
  }

  lemma SameParties(h: Hash, tenant: string, s: Site, a: Action, m: C.Id)
    requires C.Inv(s.plane) && HasRow(s, m)
    ensures var t := Step(h, tenant, s, a);
      HasRow(t, m) && t.plane.migrations[m].source == s.plane.migrations[m].source && t.plane.migrations[m].target == s.plane.migrations[m].target
  {
    StepMovesForward(h, tenant, s, a, m);
  }

  /** The copy back: the old profile is overwritten, and the new one's watermarks are kept. */
  lemma RollbackCopies(h: Hash, tenant: string, s0: Site, s: Site, m: C.Id, fails: bool, t: Site)
    requires Inv(s0) && Inv(s) && RollingFrom(s0, s, m, tenant) && PhaseOf(s, m).RollingBack? && t == Step(h, tenant, s, Poll(m, fails))
    ensures RollingFrom(s0, t, m, tenant) && (!fails ==> PhaseOf(t, m).RollbackCatchingUp?)
  {
    CopyBack(h, tenant, s, m, fails, s.plane.migrations[m], t);
    SameParties(h, tenant, s, Poll(m, fails), m);
  }

  /** After the copy back: both profiles' stores, spelled out. */
  lemma CopiedStores(s0: Site, s: Site, m: C.Id, tenant: string)
    requires RollingFrom(s0, s, m, tenant) && !PhaseOf(s, m).RollingBack?
    ensures var row := s0.plane.migrations[m]; var from := s0.stores[row.target]; var copied := CopyAll(from, s0.stores[row.source], tenant);
      && Paired(s, s.plane.migrations[m]) && s.stores[row.target] == from && s.stores[row.source] == copied
      && s.stores[row.source := copied] == s.stores
      && (PhaseOf(s, m).RollbackCatchingUp? ==> (m, true) in s.marks && s.marks[(m, true)] == Watermarks(from))
  {}

  lemma StillRolling(s0: Site, s: Site, t: Site, m: C.Id, tenant: string)
    requires RollingFrom(s0, s, m, tenant) && !PhaseOf(s, m).RollingBack? && HasRow(t, m) && t.stores == s.stores
    requires t.plane.migrations[m].source == s.plane.migrations[m].source && t.plane.migrations[m].target == s.plane.migrations[m].target
    requires PhaseOf(t, m).RollbackValidating? || (PhaseOf(t, m).RollbackCatchingUp? && PhaseOf(s, m).RollbackCatchingUp? && t.marks == s.marks)
    ensures RollingFrom(s0, t, m, tenant)
  {}

  /** The replay back: nothing was written since, so nothing changes. */
  lemma RollbackReplays(h: Hash, tenant: string, s0: Site, s: Site, m: C.Id, fails: bool, t: Site)
    requires Inv(s0) && Inv(s) && RollingFrom(s0, s, m, tenant) && PhaseOf(s, m).RollbackCatchingUp? && t == Step(h, tenant, s, Poll(m, fails))
    ensures RollingFrom(s0, t, m, tenant) && (!fails ==> PhaseOf(t, m).RollbackValidating?)
  {
    var row := s0.plane.migrations[m];
    CopiedStores(s0, s, m, tenant);
    ReplayBack(h, tenant, s, m, fails, s.plane.migrations[m], t);
    SameParties(h, tenant, s, Poll(m, fails), m);
    ReplayNothing(s0.stores[row.target], s.stores[row.source], tenant);
    StillRolling(s0, s, t, m, tenant);
  }

  /** The proof back: the rollback ends exactly when the copy's evidence is accepted, and changes no store. */
  lemma RollbackProves(h: Hash, tenant: string, s0: Site, s: Site, m: C.Id, fails: bool, t: Site)
    requires Inv(s0) && Inv(s) && RollingFrom(s0, s, m, tenant) && PhaseOf(s, m).RollbackValidating? && t == Step(h, tenant, s, Poll(m, fails))
    ensures HasRow(t, m) && t.stores == s.stores
    ensures var row := s0.plane.migrations[m]; var from, to := s0.stores[row.target], s0.stores[row.source];
      PhaseOf(t, m) == if !fails && Accepts(h, from, CopyAll(from, to, tenant), tenant) then C.RolledBack else C.RollbackValidating
  {
    CopiedStores(s0, s, m, tenant);
    ProveBack(h, tenant, s, m, fails, s.plane.migrations[m], t);
  }

  lemma RollbackEnds(h: Hash, tenant: string, s0: Site, s: Site, m: C.Id, fails: bool, t: Site)
    requires Inv(s0) && Inv(s) && RollingFrom(s0, s, m, tenant) && PhaseOf(s, m).RollbackValidating? && t == Step(h, tenant, s, Poll(m, fails))
    ensures var row := s0.plane.migrations[m];
      RollingFrom(s0, t, m, tenant) || NoStale(s0.stores[row.source], s0.stores[row.target], tenant)
  {
    var row := s0.plane.migrations[m];
    RollbackProves(h, tenant, s0, s, m, fails, t);
    SameParties(h, tenant, s, Poll(m, fails), m);
    CopyAcceptedExactlyWhen(h, s0.stores[row.target], s0.stores[row.source], tenant);
    if PhaseOf(t, m).RollbackValidating? { StillRolling(s0, s, t, m, tenant); }
  }

  lemma OtherActionKeepsRolling(h: Hash, tenant: string, s0: Site, s: Site, m: C.Id, a: Action, t: Site)
    requires Inv(s) && RollingFrom(s0, s, m, tenant) && !a.PutAt? && !a.EraseAt? && t == Step(h, tenant, s, a)
    requires !(a.Poll? && a.m == m)
    ensures RollingFrom(s0, t, m, tenant)
  {
    SameParties(h, tenant, s, a, m);
    if a.Poll? {
      if HasRow(s, a.m) && C.Working(PhaseOf(s, a.m)) { OnlyOpenWorks(s, m, a.m); }
    } else if !(a.action.OnRow? && a.action.action.Work?) {
      FencedStays(s.plane, a.action, m);
    }
  }

  lemma FencedRowStays(row: C.Migration, a: C.RowAction)
    requires C.RowInv(row) && C.Fenced(row.phase) && !a.Work?
    ensures C.ActOnRow(row, a).Err?
  {}

  lemma FencedRowUnswitched(row: C.Migration, now: int)
    requires C.Fenced(row.phase)
    ensures C.SwitchRow(row, now).Err?
  {}

  /** No endpoint leaves a fenced phase. */
  lemma FencedStays(p: C.Plane, c: C.Action, m: C.Id)
    requires C.Inv(p) && m in p.migrations && C.Fenced(p.migrations[m].phase) && !(c.OnRow? && c.action.Work?)
    ensures var q := C.Step(p, c); m in q.migrations && q.migrations[m].phase == p.migrations[m].phase
  {
    var row := p.migrations[m];
    assert C.RowInv(row);
    match c
    case NewProfile(_, _) =>
    case NewMigration(o, target, subject, seconds) => C.RequestKeepsInv(p, o, target, subject, seconds);
    case SwitchAt(o, now) => if o == m { FencedRowUnswitched(row, now); } else { C.OtherRowsKept(p, o, C.Start, now, m); }
    case OnRow(o, action) => if o == m { FencedRowStays(row, action); } else { C.OtherRowsKept(p, o, action, 0, m); }
  }

  /** While a migration is fenced the resolver has no profile for the tenant, so nothing routed can be written. */
  lemma FencedIsUnroutable(s: Site, m: C.Id)
    requires C.Inv(s.plane) && HasRow(s, m) && C.Fenced(PhaseOf(s, m))
    ensures C.Resolve(s.plane) == None
  {
    C.ResolverOutcome(s.plane, m);
  }

  lemma RollbackStep(h: Hash, tenant: string, s0: Site, s: Site, m: C.Id, a: Action, t: Site)
    requires Inv(s0) && Inv(s) && RollingFrom(s0, s, m, tenant) && !a.PutAt? && !a.EraseAt? && t == Step(h, tenant, s, a)
    ensures var row := s0.plane.migrations[m];
      RollingFrom(s0, t, m, tenant) || NoStale(s0.stores[row.source], s0.stores[row.target], tenant)
  {
    if a.Poll? && a.m == m {
      if PhaseOf(s, m).RollingBack? {
        RollbackCopies(h, tenant, s0, s, m, a.fails, t);
      } else if PhaseOf(s, m).RollbackCatchingUp? {
        RollbackReplays(h, tenant, s0, s, m, a.fails, t);
      } else {
        RollbackEnds(h, tenant, s0, s, m, a.fails, t);
      }
    } else {
      OtherActionKeepsRolling(h, tenant, s0, s, m, a, t);
    }
  }

  lemma {:induction false} RollbackRun(h: Hash, tenant: string, s0: Site, m: C.Id, actions: seq<Action>)
    requires Inv(s0) && HasRow(s0, m) && PhaseOf(s0, m).RollingBack? && Paired(s0, s0.plane.migrations[m]) && Routed(h, tenant, s0, actions)
    ensures var row := s0.plane.migrations[m];
      RollingFrom(s0, RunFrom(h, tenant, s0, actions), m, tenant) || NoStale(s0.stores[row.source], s0.stores[row.target], tenant)
  {
    RollbackStart(s0, m, tenant);
    if actions != [] {
      var before, last := actions[..|actions| - 1], actions[|actions| - 1];
      RollbackRun(h, tenant, s0, m, before);
      RunKeepsInv(h, tenant, s0, before);
      if RollingFrom(s0, RunFrom(h, tenant, s0, before), m, tenant) {
        FencedIsUnroutable(RunFrom(h, tenant, s0, before), m);
        RollbackStep(h, tenant, s0, RunFrom(h, tenant, s0, before), m, last, RunFrom(h, tenant, s0, actions));
      }
    }
  }

  /**
  A rollback that begins while the old profile still holds a key that the new one has lost,
  for example after an erasure, never ends: in every continuation whose writes are routed by
  the resolver the migration stays fenced and the tenant has no routable profile, whatever
  the hash.
  */
  lemma StaleRollbackNeverEnds(h: Hash, tenant: string, start: Site, before: seq<Action>, s0: Site, m: C.Id, actions: seq<Action>, s: Site)
    requires Start(start) && s0 == RunFrom(h, tenant, start, before) && s == RunFrom(h, tenant, s0, actions)
    requires Routed(h, tenant, s0, actions)
    requires HasRow(s0, m) && PhaseOf(s0, m).RollingBack? && Paired(s0, s0.plane.migrations[m])
    requires var row := s0.plane.migrations[m]; !NoStale(s0.stores[row.source], s0.stores[row.target], tenant)
    ensures HasRow(s, m) && C.Fenced(PhaseOf(s, m)) && C.Resolve(s.plane) == None
  {
    StartIsSound(start);
    RunKeepsInv(h, tenant, start, before);
    RunKeepsInv(h, tenant, s0, actions);
    RollbackRun(h, tenant, s0, m, actions);
    FencedIsUnroutable(s, m);
  }

  /** Without such a key three polls end it, and both profiles hold the same data. */
  lemma CleanRollbackEnds(h: Hash, tenant: string, start: Site, before: seq<Action>, s0: Site, m: C.Id, s1: Site, s2: Site, s3: Site)
    requires Start(start) && s0 == RunFrom(h, tenant, start, before)
    requires s1 == Step(h, tenant, s0, Poll(m, false)) && s2 == Step(h, tenant, s1, Poll(m, false)) && s3 == Step(h, tenant, s2, Poll(m, false))
    requires HasRow(s0, m) && PhaseOf(s0, m).RollingBack? && Paired(s0, s0.plane.migrations[m])
    requires var row := s0.plane.migrations[m]; NoStale(s0.stores[row.source], s0.stores[row.target], tenant)
    ensures HasRow(s3, m) && PhaseOf(s3, m).RolledBack?
    ensures var row := s0.plane.migrations[m];
      row.source in s3.stores && row.target in s3.stores && SameData(s3.stores[row.target], s3.stores[row.source], tenant)
  {
    StartIsSound(start);
    RunKeepsInv(h, tenant, start, before);
    RollbackStart(s0, m, tenant);
    StepInv(h, tenant, s0, Poll(m, false));
    RollbackCopies(h, tenant, s0, s0, m, false, s1);
    StepInv(h, tenant, s1, Poll(m, false));
    RollbackReplays(h, tenant, s0, s1, m, false, s2);
    RollbackProves(h, tenant, s0, s2, m, false, s3);
    var row := s0.plane.migrations[m];
    CopyAcceptedExactlyWhen(h, s0.stores[row.target], s0.stores[row.source], tenant);
    CopySame(s0.stores[row.target], s0.stores[row.source], tenant);
  }

  /** Without a pair of adapters for every kind a rollback does not even begin its copy. */
  lemma {:induction false} UnpairedRollbackStays(h: Hash, tenant: string, s0: Site, m: C.Id, actions: seq<Action>)
    requires Inv(s0) && HasRow(s0, m) && PhaseOf(s0, m).RollingBack? && !Paired(s0, s0.plane.migrations[m])
    requires Routed(h, tenant, s0, actions)
    ensures var s := RunFrom(h, tenant, s0, actions); HasRow(s, m) && PhaseOf(s, m).RollingBack? && s.stores == s0.stores
  {
    if actions != [] {
      var before, last := actions[..|actions| - 1], actions[|actions| - 1];
      UnpairedRollbackStays(h, tenant, s0, m, before);
      RunKeepsInv(h, tenant, s0, before);
      RunMovesForward(h, tenant, s0, before, m);
      FencedIsUnroutable(RunFrom(h, tenant, s0, before), m);
      UnpairedStep(h, tenant, RunFrom(h, tenant, s0, before), m, last);
    }
  }

  lemma UnpairedStep(h: Hash, tenant: string, s: Site, m: C.Id, a: Action)
    requires Inv(s) && HasRow(s, m) && PhaseOf(s, m).RollingBack? && !Paired(s, s.plane.migrations[m]) && !a.PutAt? && !a.EraseAt?
    ensures var t := Step(h, tenant, s, a); HasRow(t, m) && PhaseOf(t, m).RollingBack? && t.stores == s.stores
  {
    if a.Poll? {
      if HasRow(s, a.m) && C.Working(PhaseOf(s, a.m)) {
        OnlyOpenWorks(s, m, a.m);
        PollOutcome(h, tenant, s, m, a.fails, s.plane.migrations[m], Step(h, tenant, s, a));
      }
    } else if !(a.action.OnRow? && a.action.action.Work?) {
      FencedStays(s.plane, a.action, m);
    }
  }

  /** The rollback reaches its end after these actions, whose writes are routed by the resolver. */
  ghost predicate EndsAfter(h: Hash, tenant: string, s: Site, m: C.Id, actions: seq<Action>) {
    Routed(h, tenant, s, actions) && HasRow(RunFrom(h, tenant, s, actions), m) && PhaseOf(RunFrom(h, tenant, s, actions), m).RolledBack?
  }

  lemma EndsOnlyIf(h: Hash, tenant: string, s0: Site, m: C.Id, actions: seq<Action>)
    requires Inv(s0) && HasRow(s0, m) && PhaseOf(s0, m).RollingBack? && EndsAfter(h, tenant, s0, m, actions)
    ensures var row := s0.plane.migrations[m]; Paired(s0, row) && NoStale(s0.stores[row.source], s0.stores[row.target], tenant)
  {
    if Paired(s0, s0.plane.migrations[m]) {
      RollbackRun(h, tenant, s0, m, actions);
    } else {
      UnpairedRollbackStays(h, tenant, s0, m, actions);
    }
  }

  /**
  In every run, a rollback that has begun can end if and only if the two profiles' adapters
  pair up and the old ones hold no key that the new ones lack: the fence keeps out every
  routed write, so nothing can mend it later.
  */
  lemma RollbackEndsExactlyWhen(h: Hash, tenant: string, start: Site, before: seq<Action>, s0: Site, m: C.Id)
    requires Start(start) && s0 == RunFrom(h, tenant, start, before) && HasRow(s0, m) && PhaseOf(s0, m).RollingBack?
    ensures var row := s0.plane.migrations[m];
      (exists actions :: EndsAfter(h, tenant, s0, m, actions)) <==>
      Paired(s0, row) && NoStale(s0.stores[row.source], s0.stores[row.target], tenant)
  {
    StartIsSound(start);
    RunKeepsInv(h, tenant, start, before);
    if actions :| EndsAfter(h, tenant, s0, m, actions) {
      EndsOnlyIf(h, tenant, s0, m, actions);
    }
    var row := s0.plane.migrations[m];
    if Paired(s0, row) && NoStale(s0.stores[row.source], s0.stores[row.target], tenant) {
      ThreePolls(h, tenant, start, before, s0, m);
    }
  }

  lemma ThreePolls(h: Hash, tenant: string, start: Site, before: seq<Action>, s0: Site, m: C.Id)
    requires Start(start) && s0 == RunFrom(h, tenant, start, before) && HasRow(s0, m) && PhaseOf(s0, m).RollingBack?
    requires var row := s0.plane.migrations[m]; Paired(s0, row) && NoStale(s0.stores[row.source], s0.stores[row.target], tenant)
    ensures EndsAfter(h, tenant, s0, m, [] + [Poll(m, false)] + [Poll(m, false)] + [Poll(m, false)])
  {
    var poll := Poll(m, false);
    QuietIsRouted(h, tenant, s0, [] + [poll] + [poll] + [poll]);
    RunMore(h, tenant, s0, [], poll);
    RunMore(h, tenant, s0, [] + [poll], poll);
    RunMore(h, tenant, s0, [] + [poll] + [poll], poll);
    var s1 := Step(h, tenant, s0, poll);
    var s2 := Step(h, tenant, s1, poll);
    CleanRollbackEnds(h, tenant, start, before, s0, m, s1, s2, Step(h, tenant, s2, poll));
  }

  lemma StepInv(h: Hash, tenant: string, s: Site, a: Action)
    requires Inv(s)
    ensures Inv(Step(h, tenant, s, a))
  {
    PlaneKeepsInv(h, tenant, s, a);
    StepKeepsFeeds(h, tenant, s, a);
  }

  /** An erasure on the new profile of a key that the old one holds is enough. */
  lemma ErasureLeavesStaleKeys(was: seq<Store>, now: seq<Store>, i: nat, tenant: string, keys: seq<Bytes>, k: Bytes)
    requires |was| == |now| && i < |now| && Enumerates(keys, now[i].objects, tenant)
    requires (tenant, k) in was[i].objects
    ensures !NoStale(was, now[i := Erase(now[i], tenant, keys)], tenant)
  {
    var erased := now[i := Erase(now[i], tenant, keys)];
    assert (tenant, k) !in erased[i].objects;
    assert !D.NoStaleKeys(was[i].objects, erased[i].objects, tenant);
  }

  lemma ApprovedRollbackStarts(s: Site, h: Hash, tenant: string, m: C.Id, t: Site)
    requires HasRow(s, m) && PhaseOf(s, m).Observing? && s.plane.migrations[m].rollbackApproval.RollbackApproved?
    requires t == Step(h, tenant, s, Control(C.OnRow(m, C.Rollback)))
    ensures HasRow(t, m) && t.plane.migrations[m] == s.plane.migrations[m].(phase := C.RollingBack) && t.stores == s.stores
  {}

  lemma ErasedThenRolling(h: Hash, tenant: string, s: Site, m: C.Id, row: C.Migration, i: nat, keys: seq<Bytes>, k: Bytes, s1: Site, s0: Site)
    requires HasRow(s, m) && row == s.plane.migrations[m] && row.phase.Observing? && row.rollbackApproval.RollbackApproved?
    requires row.source != row.target && Paired(s, row) && i < |s.stores[row.target]| && (tenant, k) in s.stores[row.source][i].objects
    requires Enumerates(keys, s.stores[row.target][i].objects, tenant) && s1 == Step(h, tenant, s, EraseAt(row.target, i, tenant, keys))
    requires s0 == Step(h, tenant, s1, Control(C.OnRow(m, C.Rollback)))
    ensures HasRow(s0, m) && s0.plane.migrations[m] == row.(phase := C.RollingBack) && Paired(s0, s0.plane.migrations[m])
    ensures !NoStale(s0.stores[row.source], s0.stores[row.target], tenant)
  {
    ApprovedRollbackStarts(s1, h, tenant, m, s0);
    ErasureLeavesStaleKeys(s.stores[row.source], s.stores[row.target], i, tenant, keys, k);
  }

  /**
  So in every run: with a migration under observation and its rollback approved, erasing the
  tenant from one new adapter whose old counterpart still holds a key, and then starting the
  rollback, leaves the tenant fenced in every continuation whose writes are routed.
  */
  lemma ErasureStrandsRollback(h: Hash, tenant: string, start: Site, before: seq<Action>, s: Site, m: C.Id, row: C.Migration, i: nat,
                               keys: seq<Bytes>, k: Bytes, s1: Site, s0: Site, actions: seq<Action>, last: Site)
    requires Start(start) && s == RunFrom(h, tenant, start, before) && HasRow(s, m) && row == s.plane.migrations[m]
    requires row.phase.Observing? && row.rollbackApproval.RollbackApproved? && Paired(s, row)
    requires i < |s.stores[row.target]| && (tenant, k) in s.stores[row.source][i].objects
    requires Enumerates(keys, s.stores[row.target][i].objects, tenant) && s1 == Step(h, tenant, s, EraseAt(row.target, i, tenant, keys))
    requires s0 == Step(h, tenant, s1, Control(C.OnRow(m, C.Rollback)))
    requires Routed(h, tenant, s0, actions) && last == RunFrom(h, tenant, s0, actions)
    ensures HasRow(last, m) && C.Fenced(PhaseOf(last, m)) && C.Resolve(last.plane) == None
  {
    StartIsSound(start);
    RunKeepsInv(h, tenant, start, before);
    assert C.RowInv(row);
    ErasedThenRolling(h, tenant, s, m, row, i, keys, k, s1, s0);
    var erase, rollback := EraseAt(row.target, i, tenant, keys), Control(C.OnRow(m, C.Rollback));
    RunMore(h, tenant, start, before, erase);
    RunMore(h, tenant, start, before + [erase], rollback);
    StaleRollbackNeverEnds(h, tenant, start, before + [erase] + [rollback], s0, m, actions, last);
  }

  lemma {:induction false} RunMore(h: Hash, tenant: string, s: Site, actions: seq<Action>, a: Action)
    ensures RunFrom(h, tenant, s, actions + [a]) == Step(h, tenant, RunFrom(h, tenant, s, actions), a)
  {
    assert (actions + [a])[..|actions|] == actions;
  }
}
