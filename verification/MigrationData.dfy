/**
The data plane of an online migration: a snapshot copied to the target, then the source's
change feed replayed onto it, while the source keeps taking writes.
*/
module MigrationData {
  import opened Prelude
  import opened StorageAdapter

  /** The target after the snapshot was written over it: keys outside the snapshot stay. */
  function Overwrite(target: Objects, tenant: string, snapshot: Content): Objects {
    target + map k | k in snapshot :: (tenant, k) := snapshot[k]
  }

  /** The newest value a feed gives a key after a watermark, or the default. */
  function LastSince(changes: seq<Change>, tenant: string, key: Bytes, watermark: nat, default: Option<Bytes>): Option<Bytes> {
    if changes == [] then default
    else
      var c := changes[|changes| - 1];
      if c.tenant == tenant && c.key == key && c.sequence > watermark then c.value
      else LastSince(changes[..|changes| - 1], tenant, key, watermark, default)
  }

  /** The feed has an entry for the key after the watermark. */
  ghost predicate Touched(changes: seq<Change>, tenant: string, key: Bytes, watermark: nat) {
    exists i :: 0 <= i < |changes| && changes[i].tenant == tenant && changes[i].key == key && changes[i].sequence > watermark
  }

  lemma {:induction false} LastSinceUntouched(changes: seq<Change>, tenant: string, key: Bytes, watermark: nat, default: Option<Bytes>)
    requires !Touched(changes, tenant, key, watermark)
    ensures LastSince(changes, tenant, key, watermark, default) == default
  {
    if changes != [] {
      var n := |changes| - 1;
      assert forall i :: 0 <= i < n ==> changes[..n][i] == changes[i];
      assert !Touched(changes[..n], tenant, key, watermark);
      LastSinceUntouched(changes[..n], tenant, key, watermark, default);
    }
  }

  lemma {:induction false} LastSinceTouched(changes: seq<Change>, tenant: string, key: Bytes, watermark: nat, a: Option<Bytes>, b: Option<Bytes>)
    requires Touched(changes, tenant, key, watermark)
    ensures LastSince(changes, tenant, key, watermark, a) == LastSince(changes, tenant, key, watermark, b)
  {
    var n := |changes| - 1;
    var c := changes[n];
    if !(c.tenant == tenant && c.key == key && c.sequence > watermark) {
      var i :| 0 <= i < |changes| && changes[i].tenant == tenant && changes[i].key == key && changes[i].sequence > watermark;
      assert changes[..n][i] == changes[i];
      LastSinceTouched(changes[..n], tenant, key, watermark, a, b);
    }
  }

  lemma ApplyLast(target: Objects, tenant: string, writes: seq<Write>, w: Write, other: string, key: Bytes)
    ensures Lookup(Apply(target, tenant, writes + [w]), other, key) ==
      if other == tenant && key == w.key then w.value else Lookup(Apply(target, tenant, writes), other, key)
  {
    assert (writes + [w])[..|writes|] == writes;
  }

  /** Replaying a feed is last-writer-wins, key by key, and leaves other tenants alone. */
  lemma {:induction false} ReplayLookup(target: Objects, tenant: string, changes: seq<Change>, watermark: nat, other: string, key: Bytes)
    ensures var after := Apply(target, tenant, ChangesSince(changes, tenant, watermark));
      Lookup(after, other, key) ==
      if other == tenant then LastSince(changes, tenant, key, watermark, Lookup(target, tenant, key))
      else Lookup(target, other, key)
  {
    if changes != [] {
      var n := |changes| - 1;
      ReplayLookup(target, tenant, changes[..n], watermark, other, key);
      var c := changes[n];
      if c.tenant == tenant && c.sequence > watermark {
        ApplyLast(target, tenant, ChangesSince(changes[..n], tenant, watermark), Write(c.key, c.value), other, key);
      } else {
        assert ChangesSince(changes, tenant, watermark) == ChangesSince(changes[..n], tenant, watermark);
      }
    }
  }

  // ----- The source's feed tells the whole difference between two moments -----

  /** The feed after `watermark` turns `past` into what the store holds now. */
  ghost predicate Explains(s: Store, past: Objects, watermark: nat) {
    && watermark <= s.watermark
    && forall tenant, key ::
         Lookup(s.objects, tenant, key) == LastSince(s.changes, tenant, key, watermark, Lookup(past, tenant, key))
  }

  /** Feed entries never carry a sequence beyond the watermark. */
  ghost predicate FeedBounded(s: Store) {
    forall i :: 0 <= i < |s.changes| ==> s.changes[i].sequence <= s.watermark
  }

  lemma NowExplained(s: Store)
    requires FeedBounded(s)
    ensures Explains(s, s.objects, s.watermark)
  {
    forall tenant, key
      ensures LastSince(s.changes, tenant, key, s.watermark, Lookup(s.objects, tenant, key)) == Lookup(s.objects, tenant, key)
    {
      LastSinceUntouched(s.changes, tenant, key, s.watermark, Lookup(s.objects, tenant, key));
    }
  }

  lemma PutExplained(s: Store, past: Objects, watermark: nat, tenant: string, key: Bytes, value: Bytes)
    requires Explains(s, past, watermark)
    ensures Explains(Put(s, tenant, key, value), past, watermark)
  {
    var s' := Put(s, tenant, key, value);
    assert s'.changes[..|s.changes|] == s.changes;
    forall other, k
      ensures Lookup(s'.objects, other, k) == LastSince(s'.changes, other, k, watermark, Lookup(past, other, k))
    {
      assert Lookup(s.objects, other, k) == LastSince(s.changes, other, k, watermark, Lookup(past, other, k));
    }
  }

  lemma {:induction false} DeletionsLast(changes: seq<Change>, sequence: nat, tenant: string, keys: seq<Bytes>,
                                         other: string, key: Bytes, watermark: nat, default: Option<Bytes>)
    requires watermark < sequence
    ensures LastSince(changes + Deletions(sequence, tenant, keys), other, key, watermark, default) ==
      if other == tenant && key in keys then None else LastSince(changes, other, key, watermark, default)
  {
    if keys == [] {
      assert changes + Deletions(sequence, tenant, keys) == changes;
    } else {
      var n := |keys| - 1;
      DeletionsLast(changes, sequence, tenant, keys[..n], other, key, watermark, default);
      var front := changes + Deletions(sequence, tenant, keys[..n]);
      assert changes + Deletions(sequence, tenant, keys) == front + [Change(sequence, tenant, keys[n], None)];
      assert (front + [Change(sequence, tenant, keys[n], None)])[..|front|] == front;
      assert key in keys <==> key in keys[..n] || key == keys[n];
    }
  }

  lemma EraseExplained(s: Store, past: Objects, watermark: nat, tenant: string, keys: seq<Bytes>)
    requires Explains(s, past, watermark) && Enumerates(keys, s.objects, tenant)
    ensures Explains(Erase(s, tenant, keys), past, watermark)
  {
    var s' := Erase(s, tenant, keys);
    forall other, k
      ensures Lookup(s'.objects, other, k) == LastSince(s'.changes, other, k, watermark, Lookup(past, other, k))
    {
      assert Lookup(s.objects, other, k) == LastSince(s.changes, other, k, watermark, Lookup(past, other, k));
      DeletionsLast(s.changes, s.watermark + 1, tenant, keys, other, k, watermark, Lookup(past, other, k));
    }
  }

  lemma {:induction false} DeletionsBounded(sequence: nat, tenant: string, keys: seq<Bytes>, i: nat)
    requires i < |Deletions(sequence, tenant, keys)|
    ensures Deletions(sequence, tenant, keys)[i].sequence == sequence
  {
    if i < |Deletions(sequence, tenant, keys)| - 1 { DeletionsBounded(sequence, tenant, keys[..|keys| - 1], i); }
  }

  // ----- One adapter pair under any interleaving -----

  datatype Action =
    | SourcePut(other: string, key: Bytes, value: Bytes)
    | SourceErase(other: string, keys: seq<Bytes>)
    | Backfill
    | CatchUp(from: nat)

  /**
  `past` is the history of the source, by watermark, and `checkpoints` are the watermarks
  that backfills and catch-ups returned.  `synced` is the watermark the target last stood
  at; there is none when a backfill met keys on the target that are not in its snapshot.
  */
  datatype Pair = Pair(
    source: Store, target: Objects, past: map<nat, Objects>, checkpoints: set<nat>, synced: Option<nat>)

  ghost predicate NoStaleKeys(target: Objects, source: Objects, tenant: string) {
    forall k :: (tenant, k) in target ==> (tenant, k) in source
  }

  ghost function Step(p: Pair, tenant: string, a: Action): Pair {
    match a
    case SourcePut(other, key, value) =>
      var s := Put(p.source, other, key, value);
      p.(source := s, past := p.past[s.watermark := s.objects])
    case SourceErase(other, keys) =>
      if Enumerates(keys, p.source.objects, other) then
        var s := Erase(p.source, other, keys);
        p.(source := s, past := p.past[s.watermark := s.objects])
      else p
    case Backfill =>
      p.(target := Overwrite(p.target, tenant, ContentOf(p.source.objects, tenant)),
         checkpoints := p.checkpoints + {p.source.watermark},
         synced := if NoStaleKeys(p.target, p.source.objects, tenant) then Some(p.source.watermark) else None)
    case CatchUp(from) =>
      if from in p.checkpoints then
        p.(target := Apply(p.target, tenant, ChangesSince(p.source.changes, tenant, from)),
           checkpoints := p.checkpoints + {p.source.watermark},
           synced := if p.synced.Some? then Some(p.source.watermark) else None)
      else p
  }

  ghost function Run(p: Pair, tenant: string, actions: seq<Action>): Pair {
    if actions == [] then p else Step(Run(p, tenant, actions[..|actions| - 1]), tenant, actions[|actions| - 1])
  }

  /** A migration starts on any source with a sound feed and any target. */
  ghost predicate Start(p: Pair) {
    FeedBounded(p.source) && p.past == map[p.source.watermark := p.source.objects] && p.checkpoints == {} && p.synced.None?
  }

  ghost predicate HistorySound(p: Pair) {
    && FeedBounded(p.source)
    && (forall w :: w in p.past ==> Explains(p.source, p.past[w], w))
    && p.source.watermark in p.past && p.past[p.source.watermark] == p.source.objects
    && (forall w :: w in p.checkpoints ==> w in p.past)
  }

  ghost predicate TargetSound(p: Pair, tenant: string) {
    p.synced.Some? ==>
      && p.synced.value in p.past && (forall w :: w in p.checkpoints ==> w <= p.synced.value)
      && ContentOf(p.target, tenant) == ContentOf(p.past[p.synced.value], tenant)
  }

  ghost predicate OthersUntouched(p: Pair, q: Pair, tenant: string) {
    forall other, key :: other != tenant ==> Lookup(q.target, other, key) == Lookup(p.target, other, key)
  }

  lemma StepKeepsHistory(p: Pair, tenant: string, a: Action)
    requires HistorySound(p)
    ensures HistorySound(Step(p, tenant, a))
  {
    var q := Step(p, tenant, a);
    match a
    case SourcePut(other, key, value) =>
      forall w | w in p.past ensures Explains(q.source, p.past[w], w) {
        PutExplained(p.source, p.past[w], w, other, key, value);
      }
      NowExplained(q.source);
    case SourceErase(other, keys) =>
      if Enumerates(keys, p.source.objects, other) {
        forall w | w in p.past ensures Explains(q.source, p.past[w], w) {
          EraseExplained(p.source, p.past[w], w, other, keys);
        }
        var added := Deletions(p.source.watermark + 1, other, keys);
        forall i | 0 <= i < |added| ensures added[i].sequence == p.source.watermark + 1 {
          DeletionsBounded(p.source.watermark + 1, other, keys, i);
        }
        NowExplained(q.source);
      }
    case Backfill =>
    case CatchUp(from) =>
  }

  /** Replaying from any checkpoint up to where the target stands brings it to the present. */
  lemma CatchUpConverges(s: Store, target: Objects, tenant: string, from: nat, atFrom: Objects, synced: nat, atSynced: Objects)
    requires from <= synced && Explains(s, atFrom, from) && Explains(s, atSynced, synced)
    requires ContentOf(target, tenant) == ContentOf(atSynced, tenant)
    ensures ContentOf(Apply(target, tenant, ChangesSince(s.changes, tenant, from)), tenant) == ContentOf(s.objects, tenant)
  {
    var after := Apply(target, tenant, ChangesSince(s.changes, tenant, from));
    forall k ensures Lookup(after, tenant, k) == Lookup(s.objects, tenant, k) {
      ReplayLookup(target, tenant, s.changes, from, tenant, k);
      ContentByKey(target, atSynced, tenant);
      ReplayOne(s, tenant, k, from, atFrom, synced, atSynced);
    }
    ContentByKey(after, s.objects, tenant);
  }

  lemma ReplayOne(s: Store, tenant: string, k: Bytes, from: nat, atFrom: Objects, synced: nat, atSynced: Objects)
    requires from <= synced && Explains(s, atFrom, from) && Explains(s, atSynced, synced)
    ensures LastSince(s.changes, tenant, k, from, Lookup(atSynced, tenant, k)) == Lookup(s.objects, tenant, k)
  {
    if Touched(s.changes, tenant, k, from) {
      LastSinceTouched(s.changes, tenant, k, from, Lookup(atSynced, tenant, k), Lookup(atFrom, tenant, k));
    } else {
      LastSinceUntouched(s.changes, tenant, k, from, Lookup(atSynced, tenant, k));
      LastSinceUntouched(s.changes, tenant, k, synced, Lookup(atSynced, tenant, k));
    }
  }

  lemma StepKeepsTarget(p: Pair, tenant: string, a: Action)
    requires HistorySound(p) && TargetSound(p, tenant)
    ensures TargetSound(Step(p, tenant, a), tenant)
  {
    var q := Step(p, tenant, a);
    match a
    case SourcePut(other, key, value) =>
    case SourceErase(other, keys) =>
    case Backfill =>
      if NoStaleKeys(p.target, p.source.objects, tenant) {
        var content := ContentOf(p.source.objects, tenant);
        forall k ensures Lookup(q.target, tenant, k) == Lookup(p.source.objects, tenant, k) {
          assert k in content <==> (tenant, k) in p.source.objects;
        }
        ContentByKey(q.target, p.source.objects, tenant);
      }
    case CatchUp(from) =>
      if q != p && p.synced.Some? {
        CatchUpConverges(p.source, p.target, tenant, from, p.past[from], p.synced.value, p.past[p.synced.value]);
      }
  }

  lemma {:induction false} OverwriteLookup(target: Objects, tenant: string, snapshot: Content, other: string, key: Bytes)
    ensures Lookup(Overwrite(target, tenant, snapshot), other, key) ==
      if other == tenant && key in snapshot then Some(snapshot[key]) else Lookup(target, other, key)
  {}

  /** Copying a snapshot reproduces the source exactly when the target held no other key of the tenant. */
  lemma SnapshotCopiesExactlyWhen(target: Objects, source: Objects, tenant: string)
    ensures var copied := Overwrite(target, tenant, ContentOf(source, tenant));
      ContentOf(copied, tenant) == ContentOf(source, tenant) <==> NoStaleKeys(target, source, tenant)
  {
    var copied := Overwrite(target, tenant, ContentOf(source, tenant));
    ContentByKey(copied, source, tenant);
    forall k ensures Lookup(copied, tenant, k) == Lookup(source, tenant, k) <==> ((tenant, k) in target ==> (tenant, k) in source) {
      OverwriteLookup(target, tenant, ContentOf(source, tenant), tenant, k);
      assert k in ContentOf(source, tenant) <==> (tenant, k) in source;
    }
  }

  lemma StepLeavesOthers(p: Pair, tenant: string, a: Action)
    ensures OthersUntouched(p, Step(p, tenant, a), tenant)
  {
    forall other, key | other != tenant
      ensures Lookup(Step(p, tenant, a).target, other, key) == Lookup(p.target, other, key)
    {
      if a.CatchUp? { ReplayLookup(p.target, tenant, p.source.changes, a.from, other, key); }
    }
  }

  /**
  Convergence.  However source writes and tenant erasures interleave with backfills and with
  catch-ups from old or new checkpoints, the target holds for the tenant exactly what the
  source held at the watermark of the last of them, and other tenants are untouched.
  */
  lemma {:induction false} MigrationConverges(p: Pair, tenant: string, actions: seq<Action>)
    requires Start(p)
    ensures var q := Run(p, tenant, actions);
      && HistorySound(q) && TargetSound(q, tenant) && OthersUntouched(p, q, tenant)
  {
    if actions == [] {
      NowExplained(p.source);
    } else {
      var n := |actions| - 1;
      MigrationConverges(p, tenant, actions[..n]);
      var before := Run(p, tenant, actions[..n]);
      StepKeepsHistory(before, tenant, actions[n]);
      StepKeepsTarget(before, tenant, actions[n]);
      StepLeavesOthers(before, tenant, actions[n]);
    }
  }

  /** A backfill that met no stale keys keeps the target in step until the next backfill. */
  lemma {:induction false} CleanBackfillStaysSynced(p: Pair, tenant: string, before: seq<Action>, after: seq<Action>)
    requires NoStaleKeys(Run(p, tenant, before).target, Run(p, tenant, before).source.objects, tenant)
    requires forall i :: 0 <= i < |after| ==> !after[i].Backfill?
    ensures Run(p, tenant, before + [Backfill] + after).synced.Some?
  {
    var all := before + [Backfill] + after;
    var n := |all| - 1;
    if after == [] {
      assert all[..n] == before;
    } else {
      assert all[..n] == before + [Backfill] + after[..|after| - 1] && all[n] == after[|after| - 1];
      CleanBackfillStaysSynced(p, tenant, before, after[..|after| - 1]);
    }
  }

  lemma CatchUpLevels(p: Pair, tenant: string, from: nat)
    requires HistorySound(p) && TargetSound(p, tenant) && p.synced.Some? && from in p.checkpoints
    ensures var q := Step(p, tenant, CatchUp(from)); ContentOf(q.target, tenant) == ContentOf(q.source.objects, tenant)
  {
    StepKeepsTarget(p, tenant, CatchUp(from));
  }

  /** So at the moment a catch-up ends, target and source hold the same for the tenant. */
  lemma CatchUpReachesSource(p: Pair, tenant: string, before: seq<Action>, after: seq<Action>, from: nat)
    requires Start(p)
    requires NoStaleKeys(Run(p, tenant, before).target, Run(p, tenant, before).source.objects, tenant)
    requires forall i :: 0 <= i < |after| ==> !after[i].Backfill?
    requires from in Run(p, tenant, before + [Backfill] + after).checkpoints
    ensures var q := Run(p, tenant, before + [Backfill] + after + [CatchUp(from)]);
      ContentOf(q.target, tenant) == ContentOf(q.source.objects, tenant)
  {
    var upTo := before + [Backfill] + after;
    var all := upTo + [CatchUp(from)];
    assert all[..|all| - 1] == upTo;
    CleanBackfillStaysSynced(p, tenant, before, after);
    MigrationConverges(p, tenant, upTo);
    CatchUpLevels(Run(p, tenant, upTo), tenant, from);
  }

  // ----- Where it fails -----

  /**
  Backfill never deletes.  After a backfill at `early` and a catch-up at `now`, the target
  agrees with the source exactly when the feed has since touched every key of the tenant
  that the target had and the snapshot did not.
  */
  lemma StaleKeysDecide(target: Objects, tenant: string, early: Store, now: Store)
    requires FeedBounded(early) && Explains(now, early.objects, early.watermark)
    ensures var copied := Overwrite(target, tenant, ContentOf(early.objects, tenant));
      var caughtUp := Apply(copied, tenant, ChangesSince(now.changes, tenant, early.watermark));
      ContentOf(caughtUp, tenant) == ContentOf(now.objects, tenant) <==>
      forall k :: (tenant, k) in target && (tenant, k) !in early.objects ==> Touched(now.changes, tenant, k, early.watermark)
  {
    var copied := Overwrite(target, tenant, ContentOf(early.objects, tenant));
    var caughtUp := Apply(copied, tenant, ChangesSince(now.changes, tenant, early.watermark));
    ContentByKey(caughtUp, now.objects, tenant);
    forall k
      ensures Lookup(caughtUp, tenant, k) == Lookup(now.objects, tenant, k) <==>
        ((tenant, k) in target && (tenant, k) !in early.objects ==> Touched(now.changes, tenant, k, early.watermark))
    {
      StaleKey(target, tenant, early, now, k);
    }
  }

  lemma StaleKey(target: Objects, tenant: string, early: Store, now: Store, k: Bytes)
    requires Explains(now, early.objects, early.watermark)
    ensures var copied := Overwrite(target, tenant, ContentOf(early.objects, tenant));
      var caughtUp := Apply(copied, tenant, ChangesSince(now.changes, tenant, early.watermark));
      Lookup(caughtUp, tenant, k) == Lookup(now.objects, tenant, k) <==>
        ((tenant, k) in target && (tenant, k) !in early.objects ==> Touched(now.changes, tenant, k, early.watermark))
  {
    var copied := Overwrite(target, tenant, ContentOf(early.objects, tenant));
    ReplayLookup(copied, tenant, now.changes, early.watermark, tenant, k);
    OverwriteLookup(target, tenant, ContentOf(early.objects, tenant), tenant, k);
    assert k in ContentOf(early.objects, tenant) <==> (tenant, k) in early.objects;
    if Touched(now.changes, tenant, k, early.watermark) {
      LastSinceTouched(now.changes, tenant, k, early.watermark, Lookup(copied, tenant, k), Lookup(early.objects, tenant, k));
    } else {
      LastSinceUntouched(now.changes, tenant, k, early.watermark, Lookup(copied, tenant, k));
      LastSinceUntouched(now.changes, tenant, k, early.watermark, Lookup(early.objects, tenant, k));
    }
  }

  /** So a backfill repeated after an erasure on the source leaves erased keys on the target for good. */
  lemma RepeatedBackfillKeepsErasedKeys(target: Objects, tenant: string, early: Store, keys: seq<Bytes>)
    requires FeedBounded(early) && Enumerates(keys, early.objects, tenant) && keys != []
    ensures var copied := Overwrite(target, tenant, ContentOf(early.objects, tenant));
      var erased := Erase(early, tenant, keys);
      var recopied := Overwrite(copied, tenant, ContentOf(erased.objects, tenant));
      var caughtUp := Apply(recopied, tenant, ChangesSince(erased.changes, tenant, erased.watermark));
      ContentOf(caughtUp, tenant) != ContentOf(erased.objects, tenant)
  {
    var copied := Overwrite(target, tenant, ContentOf(early.objects, tenant));
    var erased := Erase(early, tenant, keys);
    assert FeedBounded(erased) by {
      forall i | |early.changes| <= i < |erased.changes| ensures erased.changes[i].sequence == erased.watermark {
        DeletionsBounded(erased.watermark, tenant, keys, i - |early.changes|);
      }
    }
    NowExplained(erased);
    StaleKeysDecide(copied, tenant, erased, erased);
    assert keys[0] in keys && (tenant, keys[0]) in early.objects;
    assert (tenant, keys[0]) in copied && !Touched(erased.changes, tenant, keys[0], erased.watermark);
  }

  /**
  The source takes writes until the switch.  A target that stood level at `watermark` still
  does at the switch exactly when no key's newest later write differs from what it held.
  */
  lemma LateWritesAreLost(target: Objects, tenant: string, past: Objects, watermark: nat, now: Store)
    requires ContentOf(target, tenant) == ContentOf(past, tenant) && Explains(now, past, watermark)
    ensures ContentOf(target, tenant) == ContentOf(now.objects, tenant) <==>
      forall k :: Touched(now.changes, tenant, k, watermark) ==>
        LastSince(now.changes, tenant, k, watermark, None) == Lookup(past, tenant, k)
  {
    ContentByKey(past, now.objects, tenant);
    forall k
      ensures Lookup(past, tenant, k) == Lookup(now.objects, tenant, k) <==>
        (Touched(now.changes, tenant, k, watermark) ==>
          LastSince(now.changes, tenant, k, watermark, None) == Lookup(past, tenant, k))
    {
      if Touched(now.changes, tenant, k, watermark) {
        LastSinceTouched(now.changes, tenant, k, watermark, None, Lookup(past, tenant, k));
      } else {
        LastSinceUntouched(now.changes, tenant, k, watermark, Lookup(past, tenant, k));
      }
    }
  }
}
