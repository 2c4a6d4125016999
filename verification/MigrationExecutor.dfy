/** The worker's copying and replaying loops over all adapter pairs of a migration. */
module MigrationExecutor {
  import opened Prelude
  import opened StorageAdapter
  import opened MigrationData

  datatype Error = AdaptersUnavailable | CheckpointInvalid

  type Pairs = seq<(Adapter, Adapter)>

  /** No store is written twice in one pass, or read by another pair than the one that writes it. */
  ghost predicate Separate(pairs: Pairs) {
    && (forall i, j :: 0 <= i < |pairs| && 0 <= j < |pairs| && i != j ==> pairs[i].1 != pairs[j].1)
    && (forall i, j :: 0 <= i < |pairs| && 0 <= j < |pairs| ==> pairs[i].0 != pairs[j].1)
  }

  ghost function Targets(pairs: Pairs): set<Adapter> {
    set i | 0 <= i < |pairs| :: pairs[i].1
  }

  ghost function Adapters(pairs: Pairs): set<Adapter> {
    (set i | 0 <= i < |pairs| :: pairs[i].0) + Targets(pairs)
  }

  /** What every adapter of the pairs holds; one adapter may take part in several pairs. */
  ghost function Views(pairs: Pairs): map<Adapter, Store>
    reads Adapters(pairs)
  {
    map a | a in Adapters(pairs) :: a.View()
  }

  ghost predicate Known(views: map<Adapter, Store>, pairs: Pairs) {
    forall i :: 0 <= i < |pairs| ==> pairs[i].0 in views && pairs[i].1 in views
  }

  ghost function WithObjects(views: map<Adapter, Store>, a: Adapter, objects: Objects): map<Adapter, Store>
    requires a in views
  {
    views[a := views[a].(objects := objects)]
  }

  ghost function Copied(views: map<Adapter, Store>, source: Adapter, target: Adapter, tenant: string): map<Adapter, Store>
    requires source in views && target in views
  {
    WithObjects(views, target, Overwrite(views[target].objects, tenant, ContentOf(views[source].objects, tenant)))
  }

  ghost function Replayed(views: map<Adapter, Store>, source: Adapter, target: Adapter, tenant: string, since: nat): map<Adapter, Store>
    requires source in views && target in views
  {
    WithObjects(views, target, Apply(views[target].objects, tenant, ChangesSince(views[source].changes, tenant, since)))
  }

  /** The copies from the i-th pair on, each reading what the earlier ones left. */
  ghost function BackfillFrom(views: map<Adapter, Store>, pairs: Pairs, i: nat, tenant: string): map<Adapter, Store>
    requires i <= |pairs| && Known(views, pairs)
    decreases |pairs| - i
  {
    if i == |pairs| then views else BackfillFrom(Copied(views, pairs[i].0, pairs[i].1, tenant), pairs, i + 1, tenant)
  }

  /** The replays from the i-th pair on. */
  ghost function CatchUpFrom(views: map<Adapter, Store>, pairs: Pairs, i: nat, tenant: string, watermarks: seq<nat>): map<Adapter, Store>
    requires i <= |pairs| == |watermarks| && Known(views, pairs)
    decreases |pairs| - i
  {
    if i == |pairs| then views
    else CatchUpFrom(Replayed(views, pairs[i].0, pairs[i].1, tenant, watermarks[i]), pairs, i + 1, tenant, watermarks)
  }

  /** The watermarks of the first n sources. */
  ghost predicate Marks(views: map<Adapter, Store>, pairs: Pairs, n: nat, marks: seq<nat>) {
    && Known(views, pairs) && |marks| == n <= |pairs|
    && forall i :: 0 <= i < n ==> marks[i] == views[pairs[i].0].watermark
  }

  lemma NextMark(views: map<Adapter, Store>, pairs: Pairs, n: nat, marks: seq<nat>, objects: Objects)
    requires n < |pairs| && Marks(views, pairs, n, marks)
    ensures Marks(WithObjects(views, pairs[n].1, objects), pairs, n + 1, marks + [views[pairs[n].0].watermark])
  {}

  lemma NextCopy(views: map<Adapter, Store>, pairs: Pairs, n: nat, marks: seq<nat>, tenant: string)
    requires n < |pairs| && Marks(views, pairs, n, marks)
    ensures var next := Copied(views, pairs[n].0, pairs[n].1, tenant);
      && Marks(next, pairs, n + 1, marks + [views[pairs[n].0].watermark])
      && BackfillFrom(next, pairs, n + 1, tenant) == BackfillFrom(views, pairs, n, tenant)
  {
    NextMark(views, pairs, n, marks, Copied(views, pairs[n].0, pairs[n].1, tenant)[pairs[n].1].objects);
  }

  lemma NextReplay(views: map<Adapter, Store>, pairs: Pairs, n: nat, marks: seq<nat>, tenant: string, watermarks: seq<nat>)
    requires n < |pairs| == |watermarks| && Marks(views, pairs, n, marks)
    ensures var next := Replayed(views, pairs[n].0, pairs[n].1, tenant, watermarks[n]);
      && Marks(next, pairs, n + 1, marks + [views[pairs[n].0].watermark])
      && CatchUpFrom(next, pairs, n + 1, tenant, watermarks) == CatchUpFrom(views, pairs, n, tenant, watermarks)
  {
    NextMark(views, pairs, n, marks, Replayed(views, pairs[n].0, pairs[n].1, tenant, watermarks[n])[pairs[n].1].objects);
  }

  // ----- Backfill -----

  ghost predicate Lists(writes: seq<Write>, snapshot: Content) {
    && (forall i :: 0 <= i < |writes| ==> writes[i].key in snapshot && writes[i].value == Some(snapshot[writes[i].key]))
    && (forall k :: k in snapshot ==> exists i :: 0 <= i < |writes| && writes[i].key == k)
  }

  lemma {:induction false} ApplyKnown(target: Objects, tenant: string, snapshot: Content, writes: seq<Write>, other: string, key: Bytes)
    requires forall i :: 0 <= i < |writes| ==> writes[i].key in snapshot && writes[i].value == Some(snapshot[writes[i].key])
    ensures Lookup(Apply(target, tenant, writes), other, key) ==
      if other == tenant && exists i :: 0 <= i < |writes| && writes[i].key == key
      then (if key in snapshot then Some(snapshot[key]) else None) else Lookup(target, other, key)
  {
    if writes != [] {
      var n := |writes| - 1;
      ApplyKnown(target, tenant, snapshot, writes[..n], other, key);
      assert forall i :: 0 <= i < n ==> writes[..n][i] == writes[i];
      assert writes[n].key in snapshot;
    }
  }

  /** Writing the items of a snapshot, in whatever order, overwrites the target with it. */
  lemma ApplyLists(target: Objects, tenant: string, snapshot: Content, writes: seq<Write>)
    requires Lists(writes, snapshot)
    ensures Apply(target, tenant, writes) == Overwrite(target, tenant, snapshot)
  {
    var a, b := Apply(target, tenant, writes), Overwrite(target, tenant, snapshot);
    forall p: (string, Bytes)
      ensures p in a <==> p in b
      ensures p in a && p in b ==> a[p] == b[p]
    {
      ApplyKnown(target, tenant, snapshot, writes, p.0, p.1);
      OverwriteLookup(target, tenant, snapshot, p.0, p.1);
      assert Lookup(a, p.0, p.1) == Lookup(b, p.0, p.1);
      assert p == (p.0, p.1);
    }
  }

  method ItemsOf(snapshot: Content) returns (writes: seq<Write>)
    ensures Lists(writes, snapshot)
  {
    writes := [];
    var todo := snapshot.Keys;
    while todo != {}
      invariant todo <= snapshot.Keys
      invariant forall i :: 0 <= i < |writes| ==> writes[i].key in snapshot && writes[i].value == Some(snapshot[writes[i].key])
      invariant forall k :: k in snapshot && k !in todo ==> exists i :: 0 <= i < |writes| && writes[i].key == k
    {
      var k :| k in todo;
      ghost var before := writes;
      writes := writes + [Write(k, Some(snapshot[k]))];
      todo := todo - {k};
      assert writes[|before|].key == k;
      assert forall i :: 0 <= i < |before| ==> writes[i] == before[i];
    }
  }

  /** Only one adapter's objects changed. */
  lemma ViewsAfter(pairs: Pairs, before: map<Adapter, Store>, target: Adapter, objects: Objects)
    requires target in Targets(pairs) && before.Keys == Adapters(pairs) && target.View() == before[target].(objects := objects)
    requires forall a :: a in Adapters(pairs) && a != target ==> a.View() == before[a]
    ensures Views(pairs) == WithObjects(before, target, objects)
  {}

  lemma TakesPart(pairs: Pairs, source: Adapter, target: Adapter)
    requires (source, target) in pairs
    ensures source in Adapters(pairs) && target in Targets(pairs)
  {
    var i :| 0 <= i < |pairs| && pairs[i] == (source, target);
    assert pairs[i].0 == source && pairs[i].1 == target;
  }

  method Take(source: Adapter, tenant: string) returns (at: nat, snapshot: Content)
    ensures at == source.watermark && snapshot == ContentOf(source.objects, tenant)
  {
    at, snapshot := source.SnapshotTenant(tenant);
    ContentIs(source.objects, tenant, snapshot);
  }

  /** The snapshot of one adapter, written to another. */
  method Copy(source: Adapter, target: Adapter, tenant: string) returns (watermark: nat)
    modifies target`objects
    ensures watermark == source.watermark
    ensures target.objects == Overwrite(old(target.objects), tenant, ContentOf(old(source.objects), tenant))
  {
    var at, snapshot := Take(source, tenant);
    var writes := ItemsOf(snapshot);
    ApplyLists(target.objects, tenant, snapshot, writes);
    target.ApplyChanges(tenant, writes);
    return at;
  }

  method BackfillPair(source: Adapter, target: Adapter, tenant: string, ghost pairs: Pairs, ghost views: map<Adapter, Store>)
    returns (watermark: nat)
    requires (source, target) in pairs && Views(pairs) == views
    modifies target`objects
    ensures source in views && target in views && watermark == views[source].watermark
    ensures Views(pairs) == Copied(views, source, target, tenant)
  {
    TakesPart(pairs, source, target);
    watermark := Copy(source, target, tenant);
    ViewsAfter(pairs, views, target, target.objects);
  }

  method CatchUpPair(source: Adapter, target: Adapter, tenant: string, since: nat, ghost pairs: Pairs, ghost views: map<Adapter, Store>)
    returns (watermark: nat)
    requires (source, target) in pairs && Views(pairs) == views
    modifies target`objects
    ensures source in views && target in views && watermark == views[source].watermark
    ensures Views(pairs) == Replayed(views, source, target, tenant, since)
  {
    TakesPart(pairs, source, target);
    var at, changes := source.ReadChangesSince(tenant, since);
    target.ApplyChanges(tenant, changes);
    ViewsAfter(pairs, views, target, target.objects);
    return at;
  }

  /** One round of the copying loop. */
  method BackfillNext(pairs: Pairs, index: nat, tenant: string, marks: seq<nat>, ghost views: map<Adapter, Store>)
    returns (marks': seq<nat>, ghost views': map<Adapter, Store>)
    requires index < |pairs| && Views(pairs) == views && Marks(views, pairs, index, marks)
    modifies Targets(pairs)
    ensures Views(pairs) == views' && Marks(views', pairs, index + 1, marks')
    ensures BackfillFrom(views', pairs, index + 1, tenant) == BackfillFrom(views, pairs, index, tenant)
  {
    var source, target := pairs[index].0, pairs[index].1;
    assert pairs[index] == (source, target) && (source, target) in pairs;
    TakesPart(pairs, source, target);
    var watermark := BackfillPair(source, target, tenant, pairs, views);
    NextCopy(views, pairs, index, marks, tenant);
    marks', views' := marks + [watermark], Copied(views, source, target, tenant);
  }

  /** One round of the replaying loop. */
  method CatchUpNext(pairs: Pairs, index: nat, tenant: string, watermarks: seq<nat>, marks: seq<nat>, ghost views: map<Adapter, Store>)
    returns (marks': seq<nat>, ghost views': map<Adapter, Store>)
    requires index < |pairs| == |watermarks| && Views(pairs) == views && Marks(views, pairs, index, marks)
    modifies Targets(pairs)
    ensures Views(pairs) == views' && Marks(views', pairs, index + 1, marks')
    ensures CatchUpFrom(views', pairs, index + 1, tenant, watermarks) == CatchUpFrom(views, pairs, index, tenant, watermarks)
  {
    var source, target := pairs[index].0, pairs[index].1;
    assert pairs[index] == (source, target) && (source, target) in pairs;
    TakesPart(pairs, source, target);
    var watermark := CatchUpPair(source, target, tenant, watermarks[index], pairs, views);
    NextReplay(views, pairs, index, marks, tenant, watermarks);
    marks', views' := marks + [watermark], Replayed(views, source, target, tenant, watermarks[index]);
  }

  /** Every pair in turn: the target is overwritten with its source's snapshot, whose watermark is returned. */
  method BackfillAll(pairs: Pairs, tenant: string) returns (watermarks: Result<seq<nat>, Error>)
    modifies Targets(pairs)
    ensures watermarks.Err? <==> pairs == []
    ensures Views(pairs) == BackfillFrom(old(Views(pairs)), pairs, 0, tenant)
    ensures watermarks.Ok? ==> Marks(Views(pairs), pairs, |pairs|, watermarks.value)
  {
    if pairs == [] { return Err(AdaptersUnavailable); }
    var marks: seq<nat> := [];
    ghost var views := Views(pairs);
    ghost var entry := views;
    for index := 0 to |pairs|
      invariant Views(pairs) == views && Marks(views, pairs, index, marks)
      invariant BackfillFrom(views, pairs, index, tenant) == BackfillFrom(entry, pairs, 0, tenant)
    {
      marks, views := BackfillNext(pairs, index, tenant, marks, views);
    }
    return Ok(marks);
  }

  /** Every pair in turn: the source's feed since the pair's checkpoint is replayed onto the target. */
  method CatchUpAll(pairs: Pairs, tenant: string, watermarks: seq<nat>) returns (updated: Result<seq<nat>, Error>)
    modifies Targets(pairs)
    ensures updated.Err? <==> |pairs| != |watermarks|
    ensures updated.Err? ==> Views(pairs) == old(Views(pairs))
    ensures updated.Ok? ==> Views(pairs) == CatchUpFrom(old(Views(pairs)), pairs, 0, tenant, watermarks)
    ensures updated.Ok? ==> Marks(Views(pairs), pairs, |pairs|, updated.value)
  {
    if |pairs| != |watermarks| { return Err(CheckpointInvalid); }
    var marks: seq<nat> := [];
    ghost var views := Views(pairs);
    ghost var entry := views;
    for index := 0 to |pairs|
      invariant Views(pairs) == views && Marks(views, pairs, index, marks)
      invariant CatchUpFrom(views, pairs, index, tenant, watermarks) == CatchUpFrom(entry, pairs, 0, tenant, watermarks)
    {
      marks, views := CatchUpNext(pairs, index, tenant, watermarks, marks, views);
    }
    return Ok(marks);
  }

  // ----- Distinct adapters -----

  lemma {:induction false} BackfillPairwise(views: map<Adapter, Store>, pairs: Pairs, i: nat, tenant: string, j: nat)
    requires i <= |pairs| && Known(views, pairs) && Separate(pairs) && j < |pairs|
    ensures var after := BackfillFrom(views, pairs, i, tenant); var (source, target) := pairs[j];
      && Known(after, pairs) && after[source] == views[source]
      && after[target] == if j < i then views[target] else views[target].(objects :=
           Overwrite(views[target].objects, tenant, ContentOf(views[source].objects, tenant)))
    decreases |pairs| - i
  {
    if i < |pairs| {
      BackfillPairwise(Copied(views, pairs[i].0, pairs[i].1, tenant), pairs, i + 1, tenant, j);
    }
  }

  lemma {:induction false} CatchUpPairwise(views: map<Adapter, Store>, pairs: Pairs, i: nat, tenant: string, watermarks: seq<nat>, j: nat)
    requires i <= |pairs| == |watermarks| && Known(views, pairs) && Separate(pairs) && j < |pairs|
    ensures var after := CatchUpFrom(views, pairs, i, tenant, watermarks); var (source, target) := pairs[j];
      && Known(after, pairs) && after[source] == views[source]
      && after[target] == if j < i then views[target] else views[target].(objects :=
           Apply(views[target].objects, tenant, ChangesSince(views[source].changes, tenant, watermarks[j])))
    decreases |pairs| - i
  {
    if i < |pairs| {
      CatchUpPairwise(Replayed(views, pairs[i].0, pairs[i].1, tenant, watermarks[i]), pairs, i + 1, tenant, watermarks, j);
    }
  }

  /** With distinct adapters a backfill overwrites every target with its own source's snapshot, and no source changes. */
  lemma BackfillCopiesEachPair(views: map<Adapter, Store>, pairs: Pairs, tenant: string, j: nat)
    requires Known(views, pairs) && Separate(pairs) && j < |pairs|
    ensures var after := BackfillFrom(views, pairs, 0, tenant); var (source, target) := pairs[j];
      && Known(after, pairs) && after[source] == views[source]
      && after[target] == views[target].(objects := Overwrite(views[target].objects, tenant, ContentOf(views[source].objects, tenant)))
  {
    BackfillPairwise(views, pairs, 0, tenant, j);
  }

  /** With distinct adapters a catch-up replays every source's own feed onto its target. */
  lemma CatchUpReplaysEachPair(views: map<Adapter, Store>, pairs: Pairs, tenant: string, watermarks: seq<nat>, j: nat)
    requires Known(views, pairs) && Separate(pairs) && j < |pairs| == |watermarks|
    ensures var after := CatchUpFrom(views, pairs, 0, tenant, watermarks); var (source, target) := pairs[j];
      && Known(after, pairs) && after[source] == views[source]
      && after[target] == views[target].(objects :=
           Apply(views[target].objects, tenant, ChangesSince(views[source].changes, tenant, watermarks[j])))
  {
    CatchUpPairwise(views, pairs, 0, tenant, watermarks, j);
  }
}
