/**
Summaries and memories as projections of the committed log, handled at least once, in any
order, while the log grows.
*/
module Projections {
  import opened Prelude
  import opened SessionTables
  import opened SessionProtocol
  import opened SummaryText

  datatype Summary = Summary(fromVersion: nat, version: nat, content: string)

  datatype MemoryKey = MemoryKey(subject: string, session: string, first: nat, last: nat)

  datatype Memory = Memory(policy: string, content: string)

  /** `notices` are the CREATED records enqueued for the memory cache. */
  datatype Views = Views(summaries: map<string, Summary>, memories: map<MemoryKey, Memory>, notices: seq<MemoryKey>)

  datatype ProjectionError = UnsupportedEvent | RangeInvalid | ExecutionMissing | SourceIncomplete

  const GROUP_POLICY := "im-group-isolated-v1"

  /** The log rows of a session from `first` to `last` that exist, in order. */
  function SourceEvents(events: map<(string, nat), EventRow>, session: string, first: nat, last: nat): seq<Numbered>
    decreases last
  {
    if last < first || last == 0 then []
    else
      SourceEvents(events, session, first, last - 1)
      + if (session, last) in events then [Numbered(last, events[(session, last)].event)] else []
  }

  predicate Complete(events: seq<Numbered>, count: nat, first: nat) {
    |events| == count && events != [] && events[0].sequence == first
  }

  /** The execution row with this id and session. */
  ghost function ExecutionById(executions: map<string, Execution>, id: Uuid, session: string): Option<Execution> {
    if exists m :: m in executions && executions[m].id == id && executions[m].session == session then
      var m :| m in executions && executions[m].id == id && executions[m].session == session;
      Some(executions[m])
    else None
  }

  /** The memory one committed range gives rise to, if its execution has a subject to remember. */
  function MemoryFor(x: Execution, r: OutboxRecord, range: seq<Numbered>): Option<(MemoryKey, Memory)>
    requires r.EventsCommitted?
  {
    if x.subject.None? || x.memoryPolicy == GROUP_POLICY then None
    else Some((MemoryKey(x.subject.value, r.session, r.fromVersion + 1, r.toVersion),
               Memory(x.memoryPolicy, MemoryContent(range))))
  }

  function UpsertSummary(v: Views, session: string, summary: Summary): Views {
    if session in v.summaries && summary.version <= v.summaries[session].version then v
    else v.(summaries := v.summaries[session := summary])
  }

  function InsertMemory(v: Views, memory: Option<(MemoryKey, Memory)>): Views {
    if memory.None? || memory.value.0 in v.memories then v
    else v.(memories := v.memories[memory.value.0 := memory.value.1], notices := v.notices + [memory.value.0])
  }

  /** One projection transaction. */
  ghost function Handle(t: Tables, v: Views, r: OutboxRecord): (Views, Result<(), ProjectionError>) {
    if !r.EventsCommitted? then (v, Err(UnsupportedEvent))
    else if r.fromVersion >= r.toVersion then (v, Err(RangeInvalid))
    else
      var row := ExecutionById(t.executions, r.execution, r.session);
      var all := SourceEvents(t.events, r.session, 1, r.toVersion);
      var range := SourceEvents(t.events, r.session, r.fromVersion + 1, r.toVersion);
      if row.None? then (v, Err(ExecutionMissing))
      else if !Complete(all, r.toVersion, 1) || !Complete(range, r.toVersion - r.fromVersion, r.fromVersion + 1) then
        (v, Err(SourceIncomplete))
      else
        var (from, content) := SummaryOf(all);
        (InsertMemory(UpsertSummary(v, r.session, Summary(from, r.toVersion, content)), MemoryFor(row.value, r, range)),
         Ok(()))
  }

  // ----- The log under the projections -----

  lemma {:induction false} SourceEventsAt(t: Tables, session: string, first: nat, last: nat)
    requires GapFree(t) && session in t.sessions && 1 <= first <= last + 1 && last <= t.sessions[session]
    ensures |SourceEvents(t.events, session, first, last)| == last + 1 - first
    ensures forall k :: first <= k <= last ==>
      (session, k) in t.events &&
      SourceEvents(t.events, session, first, last)[k - first] == Numbered(k, t.events[(session, k)].event)
  {
    if first <= last { SourceEventsAt(t, session, first, last - 1); }
  }

  /** What has been committed of a session reads the same for ever. */
  lemma SourceEventsStable(t: Tables, u: Tables, session: string, first: nat, last: nat)
    requires GapFree(t) && GapFree(u) && Extends(t, u)
    requires session in t.sessions && 1 <= first <= last + 1 && last <= t.sessions[session]
    ensures SourceEvents(u.events, session, first, last) == SourceEvents(t.events, session, first, last)
  {
    SourceEventsAt(t, session, first, last);
    SourceEventsAt(u, session, first, last);
    forall k | 0 <= k < last + 1 - first
      ensures SourceEvents(u.events, session, first, last)[k] == SourceEvents(t.events, session, first, last)[k]
    {
      assert (session, first + k) in t.events;
      assert SourceEvents(t.events, session, first, last)[first + k - first] ==
        Numbered(first + k, t.events[(session, first + k)].event);
      assert SourceEvents(u.events, session, first, last)[first + k - first] ==
        Numbered(first + k, u.events[(session, first + k)].event);
    }
  }

  /** A record of the Outbox finds its execution row. */
  lemma RecordFindsExecution(t: Tables, i: nat)
    requires AtMostOnce(t) && DistinctIds(t) && i < |t.outbox| && t.outbox[i].EventsCommitted?
    ensures t.outbox[i].cause in t.executions
    ensures ExecutionById(t.executions, t.outbox[i].execution, t.outbox[i].session) == Some(t.executions[t.outbox[i].cause])
  {
    assert MessageOf(t.outbox[i]) in t.executions;
  }

  /** The summary of a session at a version of its log. */
  ghost function SummaryAt(t: Tables, session: string, version: nat): Summary
    requires SourceEvents(t.events, session, 1, version) != []
  {
    var (from, content) := SummaryOf(SourceEvents(t.events, session, 1, version));
    Summary(from, version, content)
  }

  /** The memory of a committed record. */
  ghost function MemoryOf(t: Tables, r: OutboxRecord): Option<(MemoryKey, Memory)>
    requires r.EventsCommitted? && r.cause in t.executions
  {
    MemoryFor(t.executions[r.cause], r, SourceEvents(t.events, r.session, r.fromVersion + 1, r.toVersion))
  }

  /** The memory of the i-th Outbox record. */
  ghost function MemoryAt(t: Tables, i: nat): Option<(MemoryKey, Memory)>
    requires i < |t.outbox| && t.outbox[i].EventsCommitted? && t.outbox[i].cause in t.executions
  {
    MemoryOf(t, t.outbox[i])
  }

  /** The record's execution and all its events are in the tables. */
  ghost predicate Ready(t: Tables, r: OutboxRecord) {
    && r.EventsCommitted? && r.fromVersion < r.toVersion && r.cause in t.executions
    && ExecutionById(t.executions, r.execution, r.session) == Some(t.executions[r.cause])
    && Complete(SourceEvents(t.events, r.session, 1, r.toVersion), r.toVersion, 1)
    && Complete(SourceEvents(t.events, r.session, r.fromVersion + 1, r.toVersion), r.toVersion - r.fromVersion, r.fromVersion + 1)
  }

  /** On a sound log the events of a committed range are all there. */
  lemma SourceComplete(t: Tables, i: nat)
    requires GapFree(t) && Tiled(t) && i < |t.outbox| && t.outbox[i].EventsCommitted?
    ensures var r := t.outbox[i];
      && r.fromVersion < r.toVersion
      && Complete(SourceEvents(t.events, r.session, 1, r.toVersion), r.toVersion, 1)
      && Complete(SourceEvents(t.events, r.session, r.fromVersion + 1, r.toVersion), r.toVersion - r.fromVersion, r.fromVersion + 1)
  {
    var r := t.outbox[i];
    SourceEventsAt(t, r.session, 1, r.toVersion);
    SourceEventsAt(t, r.session, r.fromVersion + 1, r.toVersion);
    assert (r.session, 1) in t.events && (r.session, r.fromVersion + 1) in t.events;
  }

  /** A committed record of a sound log is ready. */
  lemma RecordReady(t: Tables, i: nat)
    requires GapFree(t) && Tiled(t) && AtMostOnce(t) && DistinctIds(t) && i < |t.outbox| && t.outbox[i].EventsCommitted?
    ensures Ready(t, t.outbox[i])
  {
    RecordFindsExecution(t, i);
    SourceComplete(t, i);
  }

  /** And a ready record projects without an error, and to what the log says. */
  lemma HandleOutcome(t: Tables, v: Views, r: OutboxRecord)
    requires Ready(t, r)
    ensures SourceEvents(t.events, r.session, 1, r.toVersion) != []
    ensures Handle(t, v, r) ==
      (InsertMemory(UpsertSummary(v, r.session, SummaryAt(t, r.session, r.toVersion)), MemoryOf(t, r)), Ok(()))
  {}

  // ----- The system: the protocol plus any number of projection workers -----

  /** `handled` is the history of Outbox records that have been projected. */
  datatype System = System(s: State, v: Views, handled: set<nat>)

  datatype Event = Protocol(action: Action) | Project(record: nat)

  ghost function Next(y: System, e: Event): System {
    match e
    case Protocol(a) => y.(s := Step(y.s, a))
    case Project(i) =>
      if i < |y.s.t.outbox| && Handle(y.s.t, y.v, y.s.t.outbox[i]).1.Ok?
      then y.(v := Handle(y.s.t, y.v, y.s.t.outbox[i]).0, handled := y.handled + {i})
      else y
  }

  ghost function History(events: seq<Event>): System {
    if events == [] then System(INITIAL, Views(map[], map[], []), {})
    else Next(History(events[..|events| - 1]), events[|events| - 1])
  }

  ghost predicate HandledSound(t: Tables, handled: set<nat>) {
    forall i :: i in handled ==> i < |t.outbox| && t.outbox[i].EventsCommitted? && t.outbox[i].cause in t.executions
  }

  predicate Concerns(t: Tables, i: nat, session: string) {
    i < |t.outbox| && CommittedIn(t.outbox[i], session)
  }

  /** The summary of a session is the projection of its log at the greatest handled version. */
  ghost predicate SummaryRight(t: Tables, v: Views, handled: set<nat>, session: string) {
    if session !in v.summaries then forall i :: i in handled ==> !Concerns(t, i, session)
    else
      var version := v.summaries[session].version;
      && (exists i :: i in handled && Concerns(t, i, session) && t.outbox[i].toVersion == version)
      && (forall i :: i in handled && Concerns(t, i, session) ==> t.outbox[i].toVersion <= version)
      && SourceEvents(t.events, session, 1, version) != []
      && v.summaries[session] == SummaryAt(t, session, version)
  }

  /** There is one memory per handled range that is eligible, and no other. */
  ghost predicate MemoriesRight(t: Tables, v: Views, handled: set<nat>)
    requires HandledSound(t, handled)
  {
    && (forall i :: i in handled && MemoryAt(t, i).Some? ==>
          MemoryAt(t, i).value.0 in v.memories && v.memories[MemoryAt(t, i).value.0] == MemoryAt(t, i).value.1)
    && (forall key :: key in v.memories ==>
          exists i :: i in handled && MemoryAt(t, i).Some? && MemoryAt(t, i).value.0 == key)
  }

  ghost predicate NoticesRight(v: Views) {
    && (forall i, j :: 0 <= i < j < |v.notices| ==> v.notices[i] != v.notices[j])
    && (forall key :: key in v.notices <==> key in v.memories)
  }

  ghost predicate ViewsInv(t: Tables, v: Views, handled: set<nat>) {
    && HandledSound(t, handled)
    && (forall session :: SummaryRight(t, v, handled, session))
    && MemoriesRight(t, v, handled)
    && NoticesRight(v)
  }

  // ----- A commit changes no projection -----

  lemma MemoryAtStable(t: Tables, u: Tables, i: nat)
    requires TablesInv(t) && GapFree(u) && Extends(t, u)
    requires i < |t.outbox| && t.outbox[i].EventsCommitted? && t.outbox[i].cause in t.executions
    ensures MemoryAt(u, i) == MemoryAt(t, i)
  {
    var r := t.outbox[i];
    SourceEventsStable(t, u, r.session, r.fromVersion + 1, r.toVersion);
    assert u.executions[r.cause].(status := Pending) == t.executions[r.cause].(status := Pending);
  }

  lemma SummaryRightStable(t: Tables, u: Tables, v: Views, handled: set<nat>, session: string)
    requires GapFree(t) && Tiled(t) && GapFree(u) && Extends(t, u)
    requires HandledSound(t, handled) && SummaryRight(t, v, handled, session)
    ensures SummaryRight(u, v, handled, session)
  {
    forall i | i in handled
      ensures Concerns(u, i, session) == Concerns(t, i, session) && u.outbox[i] == t.outbox[i]
    {}
    if session in v.summaries {
      var version := v.summaries[session].version;
      var i :| i in handled && Concerns(t, i, session) && t.outbox[i].toVersion == version;
      SourceEventsStable(t, u, session, 1, version);
      assert Concerns(u, i, session) && u.outbox[i].toVersion == version;
    }
  }

  lemma MemoriesRightStable(t: Tables, u: Tables, v: Views, handled: set<nat>)
    requires TablesInv(t) && GapFree(u) && Extends(t, u)
    requires HandledSound(t, handled) && HandledSound(u, handled) && MemoriesRight(t, v, handled)
    ensures MemoriesRight(u, v, handled)
  {
    forall i | i in handled ensures MemoryAt(u, i) == MemoryAt(t, i) {
      MemoryAtStable(t, u, i);
    }
  }

  lemma ProtocolKeepsViews(t: Tables, u: Tables, v: Views, handled: set<nat>)
    requires TablesInv(t) && GapFree(u) && Extends(t, u) && ViewsInv(t, v, handled)
    ensures ViewsInv(u, v, handled)
  {
    assert HandledSound(u, handled);
    forall session ensures SummaryRight(u, v, handled, session) {
      SummaryRightStable(t, u, v, handled, session);
    }
    MemoriesRightStable(t, u, v, handled);
  }

  // ----- Handling a range -----

  lemma HandleKeepsSummary(t: Tables, v: Views, handled: set<nat>, i: nat, session: string)
    requires i < |t.outbox| && t.outbox[i].EventsCommitted?
    requires SourceEvents(t.events, t.outbox[i].session, 1, t.outbox[i].toVersion) != []
    requires SummaryRight(t, v, handled, session)
    ensures var r := t.outbox[i];
      SummaryRight(t, UpsertSummary(v, r.session, SummaryAt(t, r.session, r.toVersion)), handled + {i}, session)
  {
    var r := t.outbox[i];
    var w := UpsertSummary(v, r.session, SummaryAt(t, r.session, r.toVersion));
    assert i in handled + {i};
    if r.session == session {
      assert Concerns(t, i, session);
      if session in v.summaries {
        var j :| j in handled && Concerns(t, j, session) && t.outbox[j].toVersion == v.summaries[session].version;
        assert j in handled + {i};
      }
    } else if session in v.summaries {
      assert !Concerns(t, i, session) && w.summaries[session] == v.summaries[session];
      var j :| j in handled && Concerns(t, j, session) && t.outbox[j].toVersion == v.summaries[session].version;
      assert j in handled + {i};
    }
  }

  /** Different committed ranges never share a memory key. */
  lemma MemoryKeysDistinct(t: Tables, i: nat, j: nat)
    requires Tiled(t) && i < |t.outbox| && j < |t.outbox|
    requires t.outbox[i].EventsCommitted? && t.outbox[i].cause in t.executions && MemoryAt(t, i).Some?
    requires t.outbox[j].EventsCommitted? && t.outbox[j].cause in t.executions && MemoryAt(t, j).Some?
    requires MemoryAt(t, i).value.0 == MemoryAt(t, j).value.0
    ensures i == j
  {
    if i != j {
      assert BothCommitted(t.outbox[i], t.outbox[j]) && BothCommitted(t.outbox[j], t.outbox[i]);
    }
  }

  lemma HandleAddsMemory(t: Tables, v: Views, handled: set<nat>, i: nat, j: nat)
    requires Tiled(t) && HandledSound(t, handled) && MemoriesRight(t, v, handled)
    requires i < |t.outbox| && t.outbox[i].EventsCommitted? && t.outbox[i].cause in t.executions
    requires HandledSound(t, handled + {i}) && j in handled + {i} && MemoryAt(t, j).Some?
    ensures var w := InsertMemory(v, MemoryAt(t, i));
      MemoryAt(t, j).value.0 in w.memories && w.memories[MemoryAt(t, j).value.0] == MemoryAt(t, j).value.1
  {
    if j == i && MemoryAt(t, i).value.0 in v.memories {
      var k :| k in handled && MemoryAt(t, k).Some? && MemoryAt(t, k).value.0 == MemoryAt(t, i).value.0;
      MemoryKeysDistinct(t, i, k);
    }
  }

  lemma HandleAddsNoOther(t: Tables, v: Views, handled: set<nat>, i: nat, key: MemoryKey)
    requires HandledSound(t, handled) && MemoriesRight(t, v, handled)
    requires i < |t.outbox| && t.outbox[i].EventsCommitted? && t.outbox[i].cause in t.executions
    requires HandledSound(t, handled + {i}) && key in InsertMemory(v, MemoryAt(t, i)).memories
    ensures exists j :: j in handled + {i} && MemoryAt(t, j).Some? && MemoryAt(t, j).value.0 == key
  {
    if key in v.memories {
      var k :| k in handled && MemoryAt(t, k).Some? && MemoryAt(t, k).value.0 == key;
      assert k in handled + {i};
    } else {
      assert i in handled + {i};
    }
  }

  lemma HandleKeepsMemories(t: Tables, v: Views, handled: set<nat>, i: nat)
    requires Tiled(t) && HandledSound(t, handled) && MemoriesRight(t, v, handled)
    requires i < |t.outbox| && t.outbox[i].EventsCommitted? && t.outbox[i].cause in t.executions
    ensures HandledSound(t, handled + {i}) && MemoriesRight(t, InsertMemory(v, MemoryAt(t, i)), handled + {i})
  {
    var w := InsertMemory(v, MemoryAt(t, i));
    forall j | j in handled + {i} && MemoryAt(t, j).Some?
      ensures MemoryAt(t, j).value.0 in w.memories && w.memories[MemoryAt(t, j).value.0] == MemoryAt(t, j).value.1
    {
      HandleAddsMemory(t, v, handled, i, j);
    }
    forall key | key in w.memories
      ensures exists j :: j in handled + {i} && MemoryAt(t, j).Some? && MemoryAt(t, j).value.0 == key
    {
      HandleAddsNoOther(t, v, handled, i, key);
    }
  }

  lemma InsertKeepsNotices(v: Views, memory: Option<(MemoryKey, Memory)>)
    requires NoticesRight(v)
    ensures NoticesRight(InsertMemory(v, memory))
  {}

  lemma HandleKeepsViews(t: Tables, v: Views, handled: set<nat>, i: nat)
    requires TablesInv(t) && ViewsInv(t, v, handled) && i < |t.outbox| && t.outbox[i].EventsCommitted?
    ensures ViewsInv(t, Handle(t, v, t.outbox[i]).0, handled + {i})
  {
    RecordReady(t, i);
    HandleOutcome(t, v, t.outbox[i]);
    var r := t.outbox[i];
    var summarised := UpsertSummary(v, r.session, SummaryAt(t, r.session, r.toVersion));
    var w := InsertMemory(summarised, MemoryAt(t, i));
    forall session ensures SummaryRight(t, w, handled + {i}, session) {
      HandleKeepsSummary(t, v, handled, i, session);
      SameSummaries(t, summarised, w, handled + {i}, session);
    }
    HandleKeepsMemories(t, summarised, handled, i);
    InsertKeepsNotices(summarised, MemoryAt(t, i));
  }

  lemma SameSummaries(t: Tables, v: Views, w: Views, handled: set<nat>, session: string)
    requires SummaryRight(t, v, handled, session) && w.summaries == v.summaries
    ensures SummaryRight(t, w, handled, session)
  {}

  lemma NextKeepsViews(y: System, e: Event)
    requires Inv(y.s) && ViewsInv(y.s.t, y.v, y.handled)
    ensures Inv(Next(y, e).s) && ViewsInv(Next(y, e).s.t, Next(y, e).v, Next(y, e).handled)
  {
    match e
    case Protocol(a) =>
      StepKeepsInv(y.s, a);
      StepExtends(y.s, a);
      ProtocolKeepsViews(y.s.t, Step(y.s, a).t, y.v, y.handled);
    case Project(i) =>
      if Next(y, e) != y { HandleKeepsViews(y.s.t, y.v, y.handled, i); }
  }

  // ----- Whole histories -----

  /**
  However commits and projections interleave, repeat and reorder, every summary is the
  projection of its session's log at the greatest handled version, and the memories are
  one record per distinct handled range that is eligible, each announced once.
  */
  lemma {:induction false} ProjectionsAgreeWithLog(events: seq<Event>)
    ensures Inv(History(events).s)
    ensures ViewsInv(History(events).s.t, History(events).v, History(events).handled)
  {
    if events != [] {
      ProjectionsAgreeWithLog(events[..|events| - 1]);
      NextKeepsViews(History(events[..|events| - 1]), events[|events| - 1]);
    }
  }

  /** No committed range is ever refused, in particular not for an incomplete source. */
  lemma ProjectionNeverRefused(events: seq<Event>, i: nat)
    requires i < |History(events).s.t.outbox| && History(events).s.t.outbox[i].EventsCommitted?
    ensures Handle(History(events).s.t, History(events).v, History(events).s.t.outbox[i]).1 == Ok(())
  {
    ProjectionsAgreeWithLog(events);
    RecordReady(History(events).s.t, i);
    HandleOutcome(History(events).s.t, History(events).v, History(events).s.t.outbox[i]);
  }

  /** Order and repetition do not matter: the same log and the same handled ranges give the same views. */
  lemma ProjectionsConfluent(events: seq<Event>, events': seq<Event>)
    requires History(events).s.t == History(events').s.t && History(events).handled == History(events').handled
    ensures History(events).v.summaries == History(events').v.summaries
    ensures History(events).v.memories == History(events').v.memories
  {
    ProjectionsAgreeWithLog(events);
    ProjectionsAgreeWithLog(events');
    ViewsDetermined(History(events).s.t, History(events).v, History(events').v, History(events).handled);
  }

  lemma ViewsDetermined(t: Tables, v: Views, w: Views, handled: set<nat>)
    requires ViewsInv(t, v, handled) && ViewsInv(t, w, handled)
    ensures v.summaries == w.summaries && v.memories == w.memories
  {
    forall session
      ensures session in v.summaries <==> session in w.summaries
      ensures session in v.summaries ==> v.summaries[session] == w.summaries[session]
    {
      assert SummaryRight(t, v, handled, session) && SummaryRight(t, w, handled, session);
    }
    forall key | key in v.memories ensures key in w.memories && w.memories[key] == v.memories[key] {
      var i :| i in handled && MemoryAt(t, i).Some? && MemoryAt(t, i).value.0 == key;
    }
    forall key | key in w.memories ensures key in v.memories {
      var i :| i in handled && MemoryAt(t, i).Some? && MemoryAt(t, i).value.0 == key;
    }
  }
}
