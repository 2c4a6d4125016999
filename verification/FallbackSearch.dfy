/** The breadth-first search for candidate model profiles over the fallback graph. */
module FallbackSearch {
  import opened Prelude

  datatype Profile = Profile(tenant: string, alias: string, fallbacks: seq<string>)

  /** `resolver` answers for the profile database, `snapshots` are the profiles frozen into the release. */
  datatype Request = Request(tenant: string, alias: string, allowed: set<string>, snapshots: seq<Profile>,
                             resolver: string -> Option<Profile>)

  /** The i-th snapshot is the last one of its alias. */
  predicate IsLast(snapshots: seq<Profile>, i: int, alias: string) {
    0 <= i < |snapshots| && snapshots[i].alias == alias && forall j :: i < j < |snapshots| ==> snapshots[j].alias != alias
  }

  /** Snapshots by alias, the last one winning. */
  function ByAlias(snapshots: seq<Profile>): map<string, Profile> {
    if snapshots == [] then map[]
    else
      var last := snapshots[|snapshots| - 1];
      ByAlias(snapshots[..|snapshots| - 1])[last.alias := last]
  }

  /** An alias maps to its last snapshot, and to nothing without one. */
  lemma {:induction false} LastSnapshotWins(snapshots: seq<Profile>, i: int, alias: string)
    ensures IsLast(snapshots, i, alias) ==> alias in ByAlias(snapshots) && ByAlias(snapshots)[alias] == snapshots[i]
    ensures (forall j :: 0 <= j < |snapshots| ==> snapshots[j].alias != alias) ==> alias !in ByAlias(snapshots)
  {
    if snapshots != [] {
      var n := |snapshots| - 1;
      LastSnapshotWins(snapshots[..n], i, alias);
      if IsLast(snapshots, i, alias) && i < n {
        assert IsLast(snapshots[..n], i, alias);
      }
    }
  }

  /** The database is asked only when the request carries no snapshots at all. */
  function LookUp(q: Request, alias: string): Option<Profile> {
    var snapshots := ByAlias(q.snapshots);
    if alias in snapshots then Some(snapshots[alias])
    else if snapshots == map[] then q.resolver(alias)
    else None
  }

  // ----- The fallback graph -----

  predicate Usable(q: Request, alias: string) {
    LookUp(q, alias).Some? && LookUp(q, alias).value.tenant == q.tenant
  }

  /** An edge that the release authorises. */
  predicate Edge(q: Request, a: string, b: string) {
    Usable(q, a) && b in LookUp(q, a).value.fallbacks && b in q.allowed
  }

  /** Reachable from the requested alias in at most n hops. */
  ghost predicate Within(q: Request, a: string, n: nat)
    decreases n
  {
    if n == 0 then a == q.alias else Within(q, a, n - 1) || exists p :: Within(q, p, n - 1) && Edge(q, p, a)
  }

  ghost predicate Reachable(q: Request, a: string) {
    exists n: nat :: Within(q, a, n)
  }

  /** The length of a shortest path. */
  ghost predicate AtDistance(q: Request, a: string, n: nat) {
    Within(q, a, n) && (n > 0 ==> !Within(q, a, n - 1))
  }

  function Universe(q: Request): set<string> {
    {q.alias} + q.allowed
  }

  // ----- The state of the search -----

  /** Hops k and k + 1 share the queue: its first m entries are k hops away or less. */
  ghost predicate QueueLevels(q: Request, seen: set<string>, queue: seq<string>, k: nat, m: nat) {
    && m <= |queue|
    && (forall a :: a in seen ==> Within(q, a, k))
    && (forall i :: 0 <= i < m ==> Within(q, queue[i], k))
    && (forall i :: m <= i < |queue| ==> Within(q, queue[i], k + 1))
  }

  /** Nothing within k hops is forgotten, and everything nearer is done. */
  ghost predicate Complete(q: Request, seen: set<string>, queue: seq<string>, k: nat, m: nat) {
    && m <= |queue|
    && (forall a :: Within(q, a, k) ==> a in seen || a in queue[..m])
    && (k > 0 ==> forall a :: Within(q, a, k - 1) ==> a in seen)
  }

  ghost predicate ClosedUnderEdges(q: Request, seen: set<string>, queue: seq<string>) {
    forall a, b :: a in seen && Edge(q, a, b) ==> b in seen || b in queue
  }

  /** The profiles found so far, in the order and at the distance their aliases were taken. */
  ghost predicate Found(q: Request, seen: set<string>, profiles: seq<Profile>, order: seq<string>, hops: seq<nat>, k: nat) {
    && |profiles| == |order| == |hops|
    && (forall a :: a in order <==> a in seen && Usable(q, a))
    && (forall i, j :: 0 <= i < j < |order| ==> order[i] != order[j])
    && (forall i :: 0 <= i < |order| ==> LookUp(q, order[i]) == Some(profiles[i]) && AtDistance(q, order[i], hops[i]) && hops[i] <= k)
    && (forall i, j :: 0 <= i < j < |hops| ==> hops[i] <= hops[j])
  }

  /** With level k used up, the whole queue is level k + 1. */
  lemma NextLevel(q: Request, seen: set<string>, queue: seq<string>, k: nat)
    requires QueueLevels(q, seen, queue, k, 0) && Complete(q, seen, queue, k, 0) && ClosedUnderEdges(q, seen, queue)
    ensures QueueLevels(q, seen, queue, k + 1, |queue|) && Complete(q, seen, queue, k + 1, |queue|)
  {
    assert queue[..|queue|] == queue;
    forall a | Within(q, a, k + 1) ensures a in seen || a in queue {
      if !Within(q, a, k) {
        var p :| Within(q, p, k) && Edge(q, p, a);
        assert p in seen;
      }
    }
  }

  /** Taking an alias that was already visited. */
  lemma TakeSeen(q: Request, seen: set<string>, queue: seq<string>, k: nat, m: nat)
    requires QueueLevels(q, seen, queue, k, m) && Complete(q, seen, queue, k, m) && ClosedUnderEdges(q, seen, queue)
    requires m > 0 && queue[0] in seen
    ensures QueueLevels(q, seen, queue[1..], k, m - 1) && Complete(q, seen, queue[1..], k, m - 1)
    ensures ClosedUnderEdges(q, seen, queue[1..])
  {
    TakeComplete(q, seen, queue, k, m);
    forall a, b | a in seen && Edge(q, a, b) ensures b in seen || b in queue[1..] {
      assert b in seen || b in queue;
      if b in queue && b !in queue[1..] { assert b == queue[0]; }
    }
  }

  /** Marking the taken alias as visited loses nothing. */
  lemma TakeComplete(q: Request, seen: set<string>, queue: seq<string>, k: nat, m: nat)
    requires Complete(q, seen, queue, k, m) && m > 0
    ensures Complete(q, seen + {queue[0]}, queue[1..], k, m - 1)
  {
    forall a | Within(q, a, k) ensures a in seen + {queue[0]} || a in queue[1..][..m - 1] {
      assert a in seen || a in queue[..m];
      if a in queue[..m] {
        var i :| 0 <= i < m && queue[i] == a;
        if i > 0 { assert queue[1..][..m - 1][i - 1] == a; }
      }
    }
  }

  /** Visiting a new alias and queueing what it leads to. */
  lemma TakeNew(q: Request, seen: set<string>, queue: seq<string>, k: nat, m: nat, more: seq<string>)
    requires QueueLevels(q, seen, queue, k, m) && Complete(q, seen, queue, k, m) && ClosedUnderEdges(q, seen, queue)
    requires m > 0 && forall b :: b in more <==> Edge(q, queue[0], b)
    ensures QueueLevels(q, seen + {queue[0]}, queue[1..] + more, k, m - 1)
    ensures Complete(q, seen + {queue[0]}, queue[1..] + more, k, m - 1)
    ensures ClosedUnderEdges(q, seen + {queue[0]}, queue[1..] + more)
  {
    var rest := queue[1..];
    TakeComplete(q, seen, queue, k, m);
    assert (rest + more)[..m - 1] == rest[..m - 1];
    forall i | m - 1 <= i < |rest + more| ensures Within(q, (rest + more)[i], k + 1) {
      if i < |rest| { assert rest[i] == queue[i + 1]; } else { assert (rest + more)[i] in more; }
    }
    forall a, b | a in seen + {queue[0]} && Edge(q, a, b) ensures b in seen + {queue[0]} || b in rest + more {
      if a in seen { assert b in seen || b in queue; }
    }
  }

  lemma NewDistance(q: Request, seen: set<string>, queue: seq<string>, k: nat, m: nat)
    requires QueueLevels(q, seen, queue, k, m) && Complete(q, seen, queue, k, m) && m > 0 && queue[0] !in seen
    ensures AtDistance(q, queue[0], k)
  {}

  /** When the queue runs dry, what was visited is what is reachable. */
  lemma {:induction false} DryQueue(q: Request, seen: set<string>, k: nat, a: string, n: nat)
    requires QueueLevels(q, seen, [], k, 0) && Complete(q, seen, [], k, 0) && ClosedUnderEdges(q, seen, []) && Within(q, a, n)
    ensures a in seen
    decreases n
  {
    if n == 0 {
      StaysWithin(q, a, 0, k);
    } else if Within(q, a, n - 1) {
      DryQueue(q, seen, k, a, n - 1);
    } else {
      var p :| Within(q, p, n - 1) && Edge(q, p, a);
      DryQueue(q, seen, k, p, n - 1);
    }
  }

  lemma {:induction false} StaysWithin(q: Request, a: string, m: nat, n: nat)
    requires m <= n && Within(q, a, m)
    ensures Within(q, a, n)
    decreases n
  {
    if m < n { StaysWithin(q, a, m, n - 1); }
  }

  /** The fallbacks that the release allows, in their order and as often as they occur. */
  function Allowed(fallbacks: seq<string>, allowed: set<string>): (kept: seq<string>)
    ensures forall b :: b in kept <==> b in fallbacks && b in allowed
  {
    if fallbacks == [] then []
    else
      var last := fallbacks[|fallbacks| - 1];
      Allowed(fallbacks[..|fallbacks| - 1], allowed) + if last in allowed then [last] else []
  }

  method Authorised(fallbacks: seq<string>, allowed: set<string>) returns (kept: seq<string>)
    ensures kept == Allowed(fallbacks, allowed)
  {
    kept := [];
    var i := 0;
    while i < |fallbacks|
      invariant 0 <= i <= |fallbacks| && kept == Allowed(fallbacks[..i], allowed)
    {
      assert fallbacks[..i + 1][..i] == fallbacks[..i];
      if fallbacks[i] in allowed { kept := kept + [fallbacks[i]]; }
      i := i + 1;
    }
    assert fallbacks[..i] == fallbacks;
  }

  /** Everything the search keeps. */
  ghost predicate Searching(
    q: Request, seen: set<string>, queue: seq<string>, profiles: seq<Profile>, order: seq<string>, hops: seq<nat>, k: nat, m: nat)
  {
    && (forall a :: a in queue ==> a in Universe(q)) && seen <= Universe(q)
    && QueueLevels(q, seen, queue, k, m) && Complete(q, seen, queue, k, m) && ClosedUnderEdges(q, seen, queue)
    && Found(q, seen, profiles, order, hops, k)
  }

  lemma Begins(q: Request)
    ensures Searching(q, {}, [q.alias], [], [], [], 0, 1)
  {
    assert [q.alias][..1] == [q.alias];
  }

  /** The head of the queue always belongs to a level. */
  lemma HasLevel(
    q: Request, seen: set<string>, queue: seq<string>, profiles: seq<Profile>, order: seq<string>, hops: seq<nat>, k: nat, m: nat)
    requires Searching(q, seen, queue, profiles, order, hops, k, m) && queue != []
    ensures m == 0 ==> Searching(q, seen, queue, profiles, order, hops, k + 1, |queue|)
  {
    if m == 0 { NextLevel(q, seen, queue, k); }
  }

  lemma SkipSeen(
    q: Request, seen: set<string>, queue: seq<string>, profiles: seq<Profile>, order: seq<string>, hops: seq<nat>, k: nat, m: nat)
    requires Searching(q, seen, queue, profiles, order, hops, k, m) && m > 0 && queue[0] in seen
    ensures Searching(q, seen, queue[1..], profiles, order, hops, k, m - 1)
  {
    TakeSeen(q, seen, queue, k, m);
  }

  lemma SkipUnusable(
    q: Request, seen: set<string>, queue: seq<string>, profiles: seq<Profile>, order: seq<string>, hops: seq<nat>, k: nat, m: nat)
    requires Searching(q, seen, queue, profiles, order, hops, k, m) && m > 0 && !Usable(q, queue[0])
    ensures Searching(q, seen + {queue[0]}, queue[1..], profiles, order, hops, k, m - 1)
  {
    TakeNew(q, seen, queue, k, m, []);
    assert queue[1..] + [] == queue[1..];
  }

  lemma FoundNew(q: Request, seen: set<string>, profiles: seq<Profile>, order: seq<string>, hops: seq<nat>, k: nat, a: string)
    requires Found(q, seen, profiles, order, hops, k) && a !in seen && Usable(q, a) && AtDistance(q, a, k)
    ensures Found(q, seen + {a}, profiles + [LookUp(q, a).value], order + [a], hops + [k], k)
  {}

  lemma Visit(
    q: Request, seen: set<string>, queue: seq<string>, profiles: seq<Profile>, order: seq<string>, hops: seq<nat>, k: nat, m: nat,
    more: seq<string>)
    requires Searching(q, seen, queue, profiles, order, hops, k, m) && m > 0 && queue[0] !in seen && Usable(q, queue[0])
    requires forall b :: b in more <==> b in LookUp(q, queue[0]).value.fallbacks && b in q.allowed
    ensures Searching(q, seen + {queue[0]}, queue[1..] + more, profiles + [LookUp(q, queue[0]).value], order + [queue[0]],
                      hops + [k], k, m - 1)
  {
    NewDistance(q, seen, queue, k, m);
    FoundNew(q, seen, profiles, order, hops, k, queue[0]);
    TakeNew(q, seen, queue, k, m, more);
  }

  /** The usable profiles reachable over authorised edges, each once, nearest first. */
  ghost predicate Exactly(q: Request, profiles: seq<Profile>, order: seq<string>, hops: seq<nat>) {
    && |profiles| == |order| == |hops|
    && (forall a :: a in order <==> Usable(q, a) && Reachable(q, a))
    && (forall i, j :: 0 <= i < j < |order| ==> order[i] != order[j])
    && (forall i :: 0 <= i < |order| ==> LookUp(q, order[i]) == Some(profiles[i]) && AtDistance(q, order[i], hops[i]))
    && (forall i, j :: 0 <= i < j < |hops| ==> hops[i] <= hops[j])
  }

  /** When the queue runs dry, the search has found exactly the reachable usable aliases. */
  lemma Ends(q: Request, seen: set<string>, profiles: seq<Profile>, order: seq<string>, hops: seq<nat>, k: nat, m: nat)
    requires Searching(q, seen, [], profiles, order, hops, k, m)
    ensures Exactly(q, profiles, order, hops)
  {
    forall a | Reachable(q, a) ensures a in seen {
      var n: nat :| Within(q, a, n);
      DryQueue(q, seen, k, a, n);
    }
    forall a | a in seen ensures Reachable(q, a) { assert Within(q, a, k); }
  }

  /** Takes the next alias off the queue. */
  method Take(q: Request, aliases: seq<string>, seen: set<string>, profiles: seq<Profile>,
              ghost order: seq<string>, ghost hops: seq<nat>, ghost k: nat, ghost m: nat)
    returns (aliases': seq<string>, seen': set<string>, profiles': seq<Profile>, ghost order': seq<string>, ghost hops': seq<nat>)
    requires Searching(q, seen, aliases, profiles, order, hops, k, m) && m > 0
    ensures Searching(q, seen', aliases', profiles', order', hops', k, m - 1)
    ensures (seen' == seen && |aliases'| < |aliases|) || |Universe(q) - seen'| < |Universe(q) - seen|
  {
    var alias := aliases[0];
    aliases', seen', profiles', order', hops' := aliases[1..], seen, profiles, order, hops;
    if alias in seen {
      SkipSeen(q, seen, aliases, profiles, order, hops, k, m);
      return;
    }
    seen' := seen + {alias};
    Shrinks(Universe(q), seen, alias);
    var profile := LookUp(q, alias);
    if profile.None? || profile.value.tenant != q.tenant {
      SkipUnusable(q, seen, aliases, profiles, order, hops, k, m);
      return;
    }
    profiles', order', hops' := profiles + [profile.value], order + [alias], hops + [k];
    var more := Authorised(profile.value.fallbacks, q.allowed);
    Visit(q, seen, aliases, profiles, order, hops, k, m, more);
    aliases' := aliases' + more;
  }

  /** The next alias, after moving on to the next level where this one is used up. */
  method Advance(q: Request, aliases: seq<string>, seen: set<string>, profiles: seq<Profile>,
                 ghost order: seq<string>, ghost hops: seq<nat>, ghost k: nat, ghost m: nat)
    returns (aliases': seq<string>, seen': set<string>, profiles': seq<Profile>,
             ghost order': seq<string>, ghost hops': seq<nat>, ghost k': nat, ghost m': nat)
    requires Searching(q, seen, aliases, profiles, order, hops, k, m) && aliases != []
    ensures Searching(q, seen', aliases', profiles', order', hops', k', m')
    ensures (seen' == seen && |aliases'| < |aliases|) || |Universe(q) - seen'| < |Universe(q) - seen|
  {
    HasLevel(q, seen, aliases, profiles, order, hops, k, m);
    k', m' := if m == 0 then k + 1 else k, if m == 0 then |aliases| else m;
    aliases', seen', profiles', order', hops' := Take(q, aliases, seen, profiles, order, hops, k', m');
    m' := m' - 1;
  }

  /** The profiles of exactly the reachable usable aliases, in the order and at the hop distances of some search. */
  ghost predicate Candidates(q: Request, profiles: seq<Profile>) {
    exists order: seq<string>, hops: seq<nat> :: Exactly(q, profiles, order, hops)
  }

  /** On any fallback graph, cycles included, the search ends with exactly the profiles it should try. */
  method CandidateProfiles(q: Request) returns (profiles: seq<Profile>)
    ensures Candidates(q, profiles)
  {
    profiles := [];
    ghost var order: seq<string>, hops: seq<nat> := [], [];
    var aliases, seen := [q.alias], {};
    ghost var k: nat, m: nat := 0, 1;
    Begins(q);
    while aliases != []
      invariant Searching(q, seen, aliases, profiles, order, hops, k, m)
      decreases |Universe(q) - seen|, |aliases|
    {
      aliases, seen, profiles, order, hops, k, m := Advance(q, aliases, seen, profiles, order, hops, k, m);
    }
    Ends(q, seen, profiles, order, hops, k, m);
  }

  lemma Shrinks(universe: set<string>, seen: set<string>, a: string)
    requires a in universe && a !in seen
    ensures |universe - (seen + {a})| < |universe - seen|
  {
    assert universe - seen == (universe - (seen + {a})) + {a};
  }
}
