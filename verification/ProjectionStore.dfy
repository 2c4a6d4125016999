/** The projection transaction statement by statement. */
module ProjectionStore {
  import opened Prelude
  import opened SessionTables
  import opened SummaryText
  import opened Projections
  import SessionProtocol

  class JobWorker {
    var summaries: map<string, Summary>
    var memories: map<MemoryKey, Memory>
    var notices: seq<MemoryKey>

    ghost function View(): Views
      reads this
    {
      Views(summaries, memories, notices)
    }

    /** SELECT ... WHERE sequence BETWEEN first AND last ORDER BY sequence. */
    method ReadEvents(events: map<(string, nat), EventRow>, session: string, first: nat, last: nat)
      returns (rows: seq<Numbered>)
      requires 1 <= first
      ensures rows == SourceEvents(events, session, first, last)
    {
      rows := [];
      var n := first;
      while n <= last
        invariant first <= n && (n <= last + 1 || n == first)
        invariant rows == SourceEvents(events, session, first, n - 1)
        decreases last + 1 - n
      {
        if (session, n) in events { rows := rows + [Numbered(n, events[(session, n)].event)]; }
        n := n + 1;
      }
      if last < first { assert rows == SourceEvents(events, session, first, last); }
    }

    /** The execution row by primary key; the schema keeps the ids distinct. */
    method ReadExecution(executions: map<string, Execution>, id: Uuid, session: string)
      returns (row: Option<Execution>)
      requires forall m, m' :: m in executions && m' in executions && executions[m].id == executions[m'].id ==> m == m'
      ensures row == ExecutionById(executions, id, session)
    {
      var todo := executions.Keys;
      while todo != {}
        invariant todo <= executions.Keys
        invariant forall m :: m in executions.Keys - todo ==> executions[m].id != id || executions[m].session != session
      {
        var m :| m in todo;
        if executions[m].id == id && executions[m].session == session { return Some(executions[m]); }
        todo := todo - {m};
      }
      return None;
    }

    /** The upsert that a newer stored summary turns into a no-op. */
    method StoreSummary(session: string, version: nat, all: seq<Numbered>)
      requires all != []
      modifies this`summaries
      ensures View() == UpsertSummary(old(View()), session, Summary(SummaryOf(all).0, version, SummaryOf(all).1))
    {
      var from, content := SummaryProjection(all);
      SummaryUnique(all, from, content, SummaryOf(all).0, SummaryOf(all).1);
      if session !in summaries || summaries[session].version < version {
        summaries := summaries[session := Summary(from, version, content)];
      }
    }

    /** Inserts the memory once and announces it only then. */
    method StoreMemory(memory: Option<(MemoryKey, Memory)>)
      modifies this`memories, this`notices
      ensures View() == InsertMemory(old(View()), memory)
    {
      if memory.Some? && memory.value.0 !in memories {
        memories := memories[memory.value.0 := memory.value.1];
        notices := notices + [memory.value.0];
      }
    }

    /** The events of a range, or None when one is missing. */
    method ReadComplete(events: map<(string, nat), EventRow>, session: string, first: nat, last: nat) returns (rows: Option<seq<Numbered>>)
      requires 1 <= first <= last
      ensures rows == if Complete(SourceEvents(events, session, first, last), last + 1 - first, first)
        then Some(SourceEvents(events, session, first, last)) else None
    {
      var found := ReadEvents(events, session, first, last);
      if |found| != last + 1 - first || found[0].sequence != first { return None; }
      return Some(found);
    }

    method HandleCommitted(t: Tables, r: OutboxRecord) returns (outcome: Result<(), ProjectionError>)
      requires SessionProtocol.DistinctIds(t)
      modifies this
      ensures (View(), outcome) == Handle(t, old(View()), r)
    {
      if !r.EventsCommitted? { return Err(UnsupportedEvent); }
      if r.fromVersion >= r.toVersion { return Err(RangeInvalid); }
      var row := ReadExecution(t.executions, r.execution, r.session);
      if row.None? { return Err(ExecutionMissing); }
      var all := ReadComplete(t.events, r.session, 1, r.toVersion);
      if all.None? { return Err(SourceIncomplete); }
      var rollback := summaries;
      StoreSummary(r.session, r.toVersion, all.value);
      var range := ReadComplete(t.events, r.session, r.fromVersion + 1, r.toVersion);
      if range.None? {
        summaries := rollback;
        return Err(SourceIncomplete);
      }
      StoreMemory(MemoryFor(row.value, r, range.value));
      return Ok(());
    }
  }
}
