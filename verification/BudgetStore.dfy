/** The budget service's transactions, as loops over one tenant's counter and ledger tables. */
module BudgetStore {
  import opened Prelude
  import opened Budgets

  /** The levels of a request, in the order the budgets are stored. */
  method Levels(budgets: seq<Budget>, command: Command) returns (levels: Result<seq<Level>, Error>)
    ensures levels == ApplicableLevels(budgets, command)
  {
    var found: seq<Level> := [];
    var i := 0;
    while i < |budgets|
      invariant 0 <= i <= |budgets|
      invariant ApplicableLevels(budgets[..i], command) == Ok(found)
    {
      var budget := budgets[i];
      assert budgets[..i + 1][..i] == budgets[..i];
      if budget.scope.Execution? && command.execution.None? {
        UnevaluableStays(budgets, command, i + 1);
        return Err(Unevaluable);
      }
      if !Skipped(budget, command) {
        var period := PeriodKey(budget.scope, command).value;
        found := found + [Level(Key(budget.id, period), budget.limit, budget.contingency, budget.contingent)];
      }
      i := i + 1;
    }
    assert budgets[..i] == budgets;
    return Ok(found);
  }

  lemma {:induction false} UnevaluableStays(budgets: seq<Budget>, command: Command, i: nat)
    requires i <= |budgets| && ApplicableLevels(budgets[..i], command).Err?
    ensures ApplicableLevels(budgets, command) == ApplicableLevels(budgets[..i], command)
    decreases |budgets| - i
  {
    if i == |budgets| {
      assert budgets[..i] == budgets;
    } else {
      assert budgets[..i + 1][..i] == budgets[..i];
      UnevaluableStays(budgets, command, i + 1);
    }
  }

  class Service {
    var counters: map<Key, Counters>
    var ledger: seq<Entry>
    var alerts: set<(Key, Alert)>
    var nextId: nat

    constructor ()
      ensures View() == Books(map[], [], {}, 0)
    {
      counters, ledger, alerts, nextId := map[], [], {}, 0;
    }

    function View(): Books
      reads this
    {
      Books(counters, ledger, alerts, nextId)
    }

    method Restore(books: Books)
      modifies this
      ensures View() == books
    {
      counters, ledger, alerts, nextId := books.counters, books.ledger, books.alerts, books.nextId;
    }

    method AppendLedger(e: Entry) returns (inserted: bool)
      modifies this`ledger
      ensures inserted <==> !Has(old(ledger), e.key, e.id, e.kind)
      ensures ledger == Append(old(ledger), e)
    {
      inserted := !(exists f | f in ledger :: Matches(f, e.key, e.id, e.kind));
      if inserted { ledger := ledger + [e]; }
    }

    method EnsureStateRow(key: Key)
      modifies this`counters
      ensures View() == EnsureRow(old(View()), key)
    {
      if key !in counters { counters := counters[key := ZERO]; }
    }

    /** One level: exhausted, refused by the alert table, or held under a new identifier. */
    method ReserveLevel(level: Level, amount: nat) returns (entry: Option<Reservation>, broken: bool, alert: Option<Alert>)
      modifies this
      ensures !Fits(old(View()), level, amount) ==> entry.None? && !broken && View() == EnsureRow(old(View()), level.key)
      ensures broken <==> Fits(old(View()), level, amount) && Unalertable(old(View()), level, amount)
      ensures Fits(old(View()), level, amount) && !broken ==>
        && entry == Some(Reservation(level.key, amount, old(nextId), false)) && View() == Hold(old(View()), level, amount)
        && Report(old(View()), level, amount, []) == if alert.Some? then [(level.key, alert.value)] else []
    {
      EnsureStateRow(level.key);
      var row := counters[level.key];
      var decision := Evaluate(row.reserved + row.consumed + amount, level.limit + row.allowance);
      if decision.Refuse? { return None, false, None; }
      if level.limit == 0 && decision.alert.Some? { return None, true, None; }
      counters := counters[level.key := row.(reserved := row.reserved + amount)];
      var id := nextId;
      nextId := nextId + 1;
      var _ := AppendLedger(Entry(level.key, RESERVE, amount, id, false));
      alert := None;
      if decision.alert.Some? {
        if (level.key, decision.alert.value) !in alerts { alert := decision.alert; }
        alerts := alerts + {(level.key, decision.alert.value)};
      }
      return Some(Reservation(level.key, amount, id, false)), false, alert;
    }

    method CompensateLevel(x: Reservation)
      modifies this
      ensures View() == Compensate(old(View()), x)
    {
      if x.key in counters { counters := counters[x.key := counters[x.key].(reserved := counters[x.key].reserved - x.amount)]; }
      var _ := AppendLedger(Entry(x.key, RELEASE, x.amount, x.id, x.contingency));
    }

    method CompensateAll(entries: seq<Reservation>)
      modifies this
      ensures View() == CompensateFrom(old(View()), entries, 0)
    {
      var i := 0;
      while i < |entries|
        invariant 0 <= i <= |entries|
        invariant CompensateFrom(View(), entries, i) == CompensateFrom(old(View()), entries, 0)
      {
        CompensateLevel(entries[i]);
        i := i + 1;
      }
    }

    /** The levels in turn, up to the first that is exhausted. */
    method ReserveLevels(levels: seq<Level>, amount: nat) returns (attempt: Attempt)
      modifies this
      ensures attempt == ReserveFrom(old(View()), levels, 0, amount, [], [])
      ensures !attempt.Broken? ==> View() == attempt.books
    {
      var entries: seq<Reservation> := [];
      var raised: seq<(Key, Alert)> := [];
      var i := 0;
      while i < |levels|
        invariant 0 <= i <= |levels| && |entries| == i
        invariant ReserveFrom(View(), levels, i, amount, entries, raised) == ReserveFrom(old(View()), levels, 0, amount, [], [])
      {
        var entry, broken, alert := ReserveLevel(levels[i], amount);
        if broken { return Broken; }
        if entry.None? { return Refused(View(), entries); }
        entries := entries + [entry.value];
        if alert.Some? { raised := raised + [(levels[i].key, alert.value)]; }
        i := i + 1;
      }
      return Secured(View(), entries, raised);
    }

    /** Draws on the contingent levels; the draws before a level that cannot pay stay. */
    method ApplyUnknownPolicy(levels: seq<Level>, amount: nat) returns (entries: Option<seq<Reservation>>)
      modifies this
      ensures (View(), entries) == DrawFrom(old(View()), levels, 0, amount, [])
    {
      var drawn: seq<Reservation> := [];
      var i := 0;
      while i < |levels|
        invariant 0 <= i <= |levels|
        invariant DrawFrom(View(), levels, i, amount, drawn) == DrawFrom(old(View()), levels, 0, amount, [])
      {
        var level := levels[i];
        if Contingent(level) {
          var share := if amount <= level.contingency then amount else level.contingency;
          if level.key !in counters || counters[level.key].drawn + share > level.contingency { return None; }
          var row, id := counters[level.key], nextId;
          counters := counters[level.key := row.(drawn := row.drawn + share)];
          nextId := nextId + 1;
          var _ := AppendLedger(Entry(level.key, RESERVE, share, id, true));
          drawn := drawn + [Reservation(level.key, share, id, true)];
        }
        i := i + 1;
      }
      return if drawn == [] then None else Some(drawn);
    }

    /** The reserve transaction; None when a check constraint rolled it back. */
    method AttemptReserve(levels: seq<Level>, amount: nat) returns (outcome: Option<Result<seq<Reservation>, Error>>)
      modifies this
      ensures outcome.None? <==> ReserveFrom(old(View()), levels, 0, amount, [], []).Broken?
      ensures View() == Attempted(old(View()), levels, amount).0
      ensures outcome.Some? ==> outcome.value == Attempted(old(View()), levels, amount).1
    {
      var before := View();
      var attempt := ReserveLevels(levels, amount);
      if attempt.Broken? {
        Restore(before);
        return None;
      }
      if attempt.Secured? { return Some(Ok(attempt.entries)); }
      CompensateAll(attempt.entries);
      var id := nextId;
      nextId := nextId + 1;
      var _ := AppendLedger(Entry(levels[|attempt.entries|].key, REJECT, amount, id, false));
      return Some(Err(Exceeded));
    }

    /** The reserve transaction as the database ends it: None when it raised an error, be it after the commit. */
    method ReserveTransaction(budgets: seq<Budget>, command: Command, fault: Fault) returns (outcome: Option<Result<seq<Reservation>, Error>>)
      modifies this
      ensures (View(), outcome) == TryReserve(old(View()), budgets, command, fault)
    {
      var levels := Levels(budgets, command);
      if levels.Err? { return Some(Err(levels.error)); }
      var before := View();
      outcome := AttemptReserve(levels.value, command.amount);
      if fault.RolledBack? { Restore(before); }
      if !fault.Fine? { outcome := None; }
    }

    /** The recovery transaction, with its own look-up of the levels. */
    method RecoverTransaction(budgets: seq<Budget>, command: Command, fault: Fault) returns (outcome: Result<seq<Reservation>, Error>)
      modifies this
      ensures (View(), outcome) == TryRecover(old(View()), budgets, command, fault)
    {
      var levels := Levels(budgets, command);
      if levels.Err? { return Err(levels.error); }
      var before := View();
      var drawn := ApplyUnknownPolicy(levels.value, command.amount);
      if fault.RolledBack? { Restore(before); }
      return if drawn.Some? && fault.Fine? then Ok(drawn.value) else Err(StateUnknown);
    }

    /** Reserve on every applicable level or fail closed; `outage` says how the database ends the two transactions. */
    method ReserveBudget(budgets: seq<Budget>, command: Command, outage: Outage) returns (outcome: Result<seq<Reservation>, Error>)
      modifies this
      ensures (View(), outcome) == Reserve(old(View()), budgets, command, outage)
    {
      var reserved := ReserveTransaction(budgets, command, outage.reserve);
      if reserved.Some? { return reserved.value; }
      outcome := RecoverTransaction(budgets, command, outage.recover);
    }

    /** Settles (charging `actual` or the estimate) or releases every entry, or none. */
    method CloseBundle(entries: seq<Reservation>, kind: Kind, actual: Option<nat>) returns (outcome: Result<(), Error>)
      requires kind.SETTLE? || kind.RELEASE?
      modifies this
      ensures (View(), outcome) == CloseAll(old(View()), entries, kind, actual)
    {
      var before := View();
      var i := 0;
      while i < |entries|
        invariant 0 <= i <= |entries|
        invariant CloseFrom(View(), entries, i, kind, actual) == CloseFrom(before, entries, 0, kind, actual)
      {
        var closed := CloseEntry(entries[i], kind, actual);
        if !closed { Restore(before); return Err(CheckViolated); }
        i := i + 1;
      }
      return Ok(());
    }

    method CloseEntry(x: Reservation, kind: Kind, actual: Option<nat>) returns (ok: bool)
      requires kind.SETTLE? || kind.RELEASE?
      modifies this
      ensures ok <==> Close(old(View()), x, kind, actual).Some?
      ensures ok ==> View() == Close(old(View()), x, kind, actual).value
    {
      var amount := if kind.SETTLE? && actual.Some? then actual.value else x.amount;
      var inserted := AppendLedger(Entry(x.key, kind, amount, x.id, x.contingency));
      if !inserted || x.key !in counters { return true; }
      var row := counters[x.key];
      if row.reserved < x.amount { return false; }
      counters := counters[x.key := row.(reserved := row.reserved - x.amount,
                                         consumed := if kind.SETTLE? then row.consumed + amount else row.consumed)];
      return true;
    }

    method AdjustAllowance(budget: Budget, delta: int, month: string, day: string) returns (outcome: Result<(), Error>)
      modifies this
      ensures (View(), outcome) == Adjust(old(View()), budget, delta, month, day)
    {
      if budget.scope.Execution? { return Err(NotAdjustable); }
      var key := Key(budget.id, if budget.scope.TenantMonthly? then month else day);
      EnsureStateRow(key);
      counters := counters[key := counters[key].(allowance := counters[key].allowance + delta)];
      ghost var row := Row(old(View()), key);
      assert counters == old(counters)[key := row.(allowance := row.allowance + delta)];
      var id := nextId;
      nextId := nextId + 1;
      var _ := AppendLedger(Entry(key, ADJUST, if delta > 0 then delta else 0, id, false));
      return Ok(());
    }
  }
}
