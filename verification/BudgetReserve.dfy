/** Reserving several levels is all or nothing, and a refusal leaves only matched evidence. */
module BudgetReserve {
  import opened Prelude
  import opened Budgets
  import opened BudgetLedger

  /** What holding the first n levels hands out. */
  function Holds(levels: seq<Level>, n: nat, amount: nat, first: nat): seq<Reservation>
    requires n <= |levels|
  {
    if n == 0 then [] else Holds(levels, n - 1, amount, first) + [Reservation(levels[n - 1].key, amount, first + n - 1, false)]
  }

  function ReserveEntries(entries: seq<Reservation>): (ledger: seq<Entry>)
    ensures |ledger| == |entries|
    ensures forall i :: 0 <= i < |entries| ==> ledger[i] == ReserveEntry(entries[i])
  {
    if entries == [] then [] else ReserveEntries(entries[..|entries| - 1]) + [ReserveEntry(entries[|entries| - 1])]
  }

  function ReleaseEntry(x: Reservation): Entry {
    Entry(x.key, RELEASE, x.amount, x.id, x.contingency)
  }

  function ReleaseEntries(entries: seq<Reservation>): (ledger: seq<Entry>)
    ensures |ledger| == |entries|
    ensures forall i :: 0 <= i < |entries| ==> ledger[i] == ReleaseEntry(entries[i])
  {
    if entries == [] then [] else ReleaseEntries(entries[..|entries| - 1]) + [ReleaseEntry(entries[|entries| - 1])]
  }

  /** How much the entries from the i-th on hold of one period. */
  function Held(entries: seq<Reservation>, i: nat, key: Key): int
    requires i <= |entries|
    decreases |entries| - i
  {
    if i == |entries| then 0
    else (if entries[i].key == key then entries[i].amount else 0) + Held(entries, i + 1, key)
  }

  predicate RaisedBy(r: Counters, s: Counters, more: int) {
    s == r.(reserved := r.reserved + more)
  }

  /** Handed out by this reservation and still open. */
  ghost predicate Outstanding(b: Books, entries: seq<Reservation>, i: nat) {
    && (forall j :: i <= j < |entries| ==> Recorded(b, entries[j]) && !Closed(b.ledger, entries[j].key, entries[j].id))
    && (forall j, k :: i <= j < k < |entries| ==> entries[j].id != entries[k].id)
  }

  lemma RecordedAfter(b: Books, c: Books, e: Entry, x: Reservation)
    requires Recorded(b, x) && c.ledger == b.ledger + [e]
    ensures Recorded(c, x)
    ensures !Closed(b.ledger, x.key, x.id) && (!Closer(e.kind) || e.id != x.id) ==> !Closed(c.ledger, x.key, x.id)
  {
    ClosedAfter(b.ledger, e, x.key, x.id);
  }

  lemma HoldOutstanding(b: Books, level: Level, amount: nat, entries: seq<Reservation>)
    requires Sound(b) && Outstanding(b, entries, 0)
    ensures Outstanding(Hold(b, level, amount), entries + [Reservation(level.key, amount, b.nextId, false)], 0)
  {
    HoldKeeps(b, level, amount);
    var e := Entry(level.key, RESERVE, amount, b.nextId, false);
    var c := Hold(b, level, amount);
    var all := entries + [Reservation(level.key, amount, b.nextId, false)];
    NoClosersOf(b);
    ClosedAfter(b.ledger, e, level.key, b.nextId);
    forall j | 0 <= j < |all| ensures Recorded(c, all[j]) && !Closed(c.ledger, all[j].key, all[j].id) {
      if j < |entries| { RecordedAfter(b, c, e, entries[j]); }
    }
    forall j | 0 <= j < |entries| ensures entries[j].id < b.nextId { RecordedHasRow(b, entries[j]); }
  }

  lemma {:induction false} HeldAppend(entries: seq<Reservation>, i: nat, x: Reservation, key: Key)
    requires i <= |entries|
    ensures Held(entries + [x], i, key) == Held(entries, i, key) + if x.key == key then x.amount else 0
    decreases |entries| - i
  {
    if i < |entries| { HeldAppend(entries, i + 1, x, key); }
  }

  /** Every period's counters rose by what the entries hold of it. */
  ghost predicate RowsRaised(b: Books, c: Books, entries: seq<Reservation>) {
    forall key :: RaisedBy(Row(b, key), Row(c, key), Held(entries, 0, key))
  }

  /** The ledger grew by the entries' RESERVE rows. */
  ghost predicate LedgerGrew(b: Books, levels: seq<Level>, amount: nat, entries: seq<Reservation>, c: Books) {
    && |entries| <= |levels| && entries == Holds(levels, |entries|, amount, b.nextId)
    && c.nextId == b.nextId + |entries| && c.ledger == b.ledger + ReserveEntries(entries)
  }

  /** A state of a reservation in closed form. */
  ghost predicate Holding(b: Books, levels: seq<Level>, amount: nat, entries: seq<Reservation>, c: Books) {
    LedgerGrew(b, levels, amount, entries, c) && Sound(c) && Outstanding(c, entries, 0) && RowsRaised(b, c, entries)
  }

  lemma HoldRaises(b: Books, level: Level, amount: nat, entries: seq<Reservation>, c: Books)
    requires RowsRaised(b, c, entries)
    ensures RowsRaised(b, Hold(c, level, amount), entries + [Reservation(level.key, amount, c.nextId, false)])
  {
    var x := Reservation(level.key, amount, c.nextId, false);
    var all, d := entries + [x], Hold(c, level, amount);
    forall key ensures RaisedBy(Row(b, key), Row(d, key), Held(all, 0, key)) {
      assert RaisedBy(Row(b, key), Row(c, key), Held(entries, 0, key));
      HeldAppend(entries, 0, x, key);
    }
  }

  lemma HoldGrows(b: Books, levels: seq<Level>, amount: nat, entries: seq<Reservation>, c: Books, d: Books)
    requires LedgerGrew(b, levels, amount, entries, c) && |entries| < |levels|
    requires d.nextId == c.nextId + 1 && d.ledger == c.ledger + [Entry(levels[|entries|].key, RESERVE, amount, c.nextId, false)]
    ensures LedgerGrew(b, levels, amount, entries + [Reservation(levels[|entries|].key, amount, c.nextId, false)], d)
  {
    var x := Reservation(levels[|entries|].key, amount, c.nextId, false);
    var all := entries + [x];
    assert all[..|entries|] == entries;
    assert ReserveEntries(all) == ReserveEntries(entries) + [ReserveEntry(x)];
  }

  lemma HoldHolding(b: Books, levels: seq<Level>, amount: nat, entries: seq<Reservation>, c: Books)
    requires Holding(b, levels, amount, entries, c) && |entries| < |levels|
    ensures var level := levels[|entries|];
      Holding(b, levels, amount, entries + [Reservation(level.key, amount, c.nextId, false)], Hold(c, level, amount))
  {
    var level := levels[|entries|];
    HoldKeeps(c, level, amount);
    HoldOutstanding(c, level, amount, entries);
    HoldRaises(b, level, amount, entries, c);
    HoldGrows(b, levels, amount, entries, c, Hold(c, level, amount));
  }

  lemma EnsureRowHolding(b: Books, levels: seq<Level>, amount: nat, entries: seq<Reservation>, c: Books, key: Key)
    requires Holding(b, levels, amount, entries, c)
    ensures Holding(b, levels, amount, entries, EnsureRow(c, key))
  {
    EnsureRowKeeps(c, key);
    var d := EnsureRow(c, key);
    assert Outstanding(d, entries, 0) by {
      forall j | 0 <= j < |entries| ensures Recorded(d, entries[j]) { assert Recorded(c, entries[j]); }
    }
    assert RowsRaised(b, d, entries) by {
      forall k ensures RaisedBy(Row(b, k), Row(d, k), Held(entries, 0, k)) {
        assert RaisedBy(Row(b, k), Row(c, k), Held(entries, 0, k));
      }
    }
  }

  /** However a reservation ends, it holds exactly the levels before the one that stopped it. */
  lemma {:induction false} ReserveHolds(b: Books, levels: seq<Level>, amount: nat, entries: seq<Reservation>, c: Books, raised: seq<(Key, Alert)>)
    requires Holding(b, levels, amount, entries, c)
    ensures var attempt := ReserveFrom(c, levels, |entries|, amount, entries, raised);
      && (attempt.Secured? ==> Holding(b, levels, amount, attempt.entries, attempt.books) && |attempt.entries| == |levels|)
      && (attempt.Refused? ==> Holding(b, levels, amount, attempt.entries, attempt.books))
    decreases |levels| - |entries|
  {
    var i := |entries|;
    if i < |levels| {
      var level := levels[i];
      if !Fits(c, level, amount) {
        EnsureRowHolding(b, levels, amount, entries, c, level.key);
      } else if !Unalertable(c, level, amount) {
        HoldHolding(b, levels, amount, entries, c);
        ReserveHolds(b, levels, amount, entries + [Reservation(level.key, amount, c.nextId, false)], Hold(c, level, amount),
                     Report(c, level, amount, raised));
      }
    }
  }

  // ----- Compensation -----

  lemma CompensateOutstanding(b: Books, entries: seq<Reservation>, i: nat)
    requires Sound(b) && i < |entries| && Outstanding(b, entries, i)
    ensures Sound(Compensate(b, entries[i])) && Outstanding(Compensate(b, entries[i]), entries, i + 1)
    ensures Compensate(b, entries[i]).ledger == b.ledger + [ReleaseEntry(entries[i])]
  {
    CompensateKeeps(b, entries[i]);
    var c := Compensate(b, entries[i]);
    forall j | i + 1 <= j < |entries| ensures Recorded(c, entries[j]) && !Closed(c.ledger, entries[j].key, entries[j].id) {
      RecordedAfter(b, c, ReleaseEntry(entries[i]), entries[j]);
    }
  }

  lemma AppendedInTurn(b: seq<Entry>, c: seq<Entry>, d: seq<Entry>, all: seq<Entry>, i: nat)
    requires i < |all| && c == b + [all[i]] && d == c + all[i + 1..]
    ensures d == b + all[i..]
  {}

  lemma {:induction false} CompensateRecords(b: Books, entries: seq<Reservation>, i: nat)
    requires Sound(b) && i <= |entries| && Outstanding(b, entries, i)
    ensures var c := CompensateFrom(b, entries, i);
      Sound(c) && c.nextId == b.nextId && c.ledger == b.ledger + ReleaseEntries(entries)[i..]
    decreases |entries| - i
  {
    if i < |entries| {
      CompensateOutstanding(b, entries, i);
      CompensateRecords(Compensate(b, entries[i]), entries, i + 1);
      AppendedInTurn(b.ledger, Compensate(b, entries[i]).ledger, CompensateFrom(b, entries, i).ledger, ReleaseEntries(entries), i);
    }
  }

  lemma {:induction false} CompensateReturns(b: Books, entries: seq<Reservation>, i: nat, key: Key)
    requires Sound(b) && i <= |entries| && Outstanding(b, entries, i)
    ensures RaisedBy(Row(b, key), Row(CompensateFrom(b, entries, i), key), 0 - Held(entries, i, key))
    decreases |entries| - i
  {
    if i < |entries| {
      CompensateOutstanding(b, entries, i);
      RecordedHasRow(b, entries[i]);
      CompensateReturns(Compensate(b, entries[i]), entries, i + 1, key);
    }
  }

  lemma NothingHeld(b: Books, levels: seq<Level>, amount: nat)
    requires Sound(b)
    ensures Holding(b, levels, amount, [], b)
  {
    assert b.ledger + ReserveEntries([]) == b.ledger;
  }

  /** The books after a refusal at level n: matched pairs, one REJECT, and every counter as it was. */
  ghost predicate OnlyEvidence(b: Books, c: Books, levels: seq<Level>, n: nat, amount: nat) {
    && n < |levels|
    && var held := Holds(levels, n, amount, b.nextId);
      && c.ledger == b.ledger + ReserveEntries(held) + ReleaseEntries(held)
                     + [Entry(levels[n].key, REJECT, amount, b.nextId + n, false)]
      && forall key :: Row(c, key) == Row(b, key)
  }

  lemma ReturnedInFull(b: Books, entries: seq<Reservation>, c: Books)
    requires Sound(c) && Outstanding(c, entries, 0) && RowsRaised(b, c, entries)
    ensures forall key :: Row(CompensateFrom(c, entries, 0), key) == Row(b, key)
  {
    forall key ensures Row(CompensateFrom(c, entries, 0), key) == Row(b, key) {
      assert RaisedBy(Row(b, key), Row(c, key), Held(entries, 0, key));
      CompensateReturns(c, entries, 0, key);
    }
  }

  lemma DenyKeeps(b: Books, level: Level, amount: nat)
    requires Sound(b)
    ensures Sound(Deny(b, level, amount))
    ensures Deny(b, level, amount).ledger == b.ledger + [Entry(level.key, REJECT, amount, b.nextId, false)]
    ensures forall key :: Row(Deny(b, level, amount), key) == Row(b, key)
  {
    NoClosersOf(b);
    NoteKeeps(b, Entry(level.key, REJECT, amount, b.nextId, false), Deny(b, level, amount));
  }

  lemma CompensatedEvidence(b: Books, levels: seq<Level>, amount: nat, entries: seq<Reservation>, c: Books)
    requires Holding(b, levels, amount, entries, c) && |entries| < |levels|
    ensures var d := Deny(CompensateFrom(c, entries, 0), levels[|entries|], amount);
      Sound(d) && OnlyEvidence(b, d, levels, |entries|, amount)
  {
    CompensateRecords(c, entries, 0);
    ReturnedInFull(b, entries, c);
    assert ReleaseEntries(entries)[0..] == ReleaseEntries(entries);
    DenyKeeps(CompensateFrom(c, entries, 0), levels[|entries|], amount);
  }

  lemma RefusalLeavesEvidence(b: Books, levels: seq<Level>, amount: nat)
    requires Sound(b) && ReserveFrom(b, levels, 0, amount, [], []).Refused?
    ensures var attempt := ReserveFrom(b, levels, 0, amount, [], []);
      var c := Deny(CompensateFrom(attempt.books, attempt.entries, 0), levels[|attempt.entries|], amount);
      Sound(c) && OnlyEvidence(b, c, levels, |attempt.entries|, amount)
  {
    NothingHeld(b, levels, amount);
    ReserveHolds(b, levels, amount, [], b, []);
    var attempt := ReserveFrom(b, levels, 0, amount, [], []);
    CompensatedEvidence(b, levels, amount, attempt.entries, attempt.books);
  }

  // ----- When a reservation is admitted -----

  ghost predicate DistinctKeys(levels: seq<Level>) {
    forall i, j :: 0 <= i < j < |levels| ==> levels[i].key != levels[j].key
  }

  predicate FirstExhausted(b: Books, levels: seq<Level>, from: nat, n: nat, amount: nat) {
    n < |levels| && !Fits(b, levels[n], amount) && forall j :: from <= j < n ==> Fits(b, levels[j], amount)
  }

  lemma {:induction false} StopsAtFirstExhausted(b: Books, levels: seq<Level>, amount: nat, entries: seq<Reservation>, c: Books, raised: seq<(Key, Alert)>)
    requires DistinctKeys(levels) && |entries| <= |levels|
    requires forall j :: |entries| <= j < |levels| ==> Row(c, levels[j].key) == Row(b, levels[j].key)
    ensures var attempt := ReserveFrom(c, levels, |entries|, amount, entries, raised);
      && (attempt.Secured? ==> forall j :: |entries| <= j < |levels| ==> Fits(b, levels[j], amount))
      && (attempt.Refused? ==> |entries| <= |attempt.entries| && FirstExhausted(b, levels, |entries|, |attempt.entries|, amount))
    decreases |levels| - |entries|
  {
    var i := |entries|;
    if i < |levels| {
      var level := levels[i];
      if Fits(c, level, amount) && !Unalertable(c, level, amount) {
        StopsAtFirstExhausted(b, levels, amount, entries + [Reservation(level.key, amount, c.nextId, false)], Hold(c, level, amount),
                              Report(c, level, amount, raised));
      }
    }
  }

  ghost predicate BreaksAt(b: Books, levels: seq<Level>, from: nat, n: nat, amount: nat) {
    from <= n < |levels| && Unalertable(b, levels[n], amount) && forall j :: from <= j <= n ==> Fits(b, levels[j], amount)
  }

  ghost predicate Breaks(b: Books, levels: seq<Level>, from: nat, amount: nat) {
    exists n: nat :: BreaksAt(b, levels, from, n, amount)
  }

  lemma BreaksLater(b: Books, levels: seq<Level>, i: nat, amount: nat)
    requires i < |levels| && Fits(b, levels[i], amount) && !Unalertable(b, levels[i], amount)
    ensures Breaks(b, levels, i, amount) <==> Breaks(b, levels, i + 1, amount)
  {
    if Breaks(b, levels, i, amount) {
      var n: nat :| BreaksAt(b, levels, i, n, amount);
      assert BreaksAt(b, levels, i + 1, n, amount);
    }
    if Breaks(b, levels, i + 1, amount) {
      var n: nat :| BreaksAt(b, levels, i + 1, n, amount);
      assert BreaksAt(b, levels, i, n, amount);
    }
  }

  /** The alert constraint aborts a reservation exactly when such a level is reached. */
  lemma {:induction false} BreaksExactlyWhen(b: Books, levels: seq<Level>, amount: nat, entries: seq<Reservation>, c: Books, raised: seq<(Key, Alert)>)
    requires DistinctKeys(levels) && |entries| <= |levels|
    requires forall j :: |entries| <= j < |levels| ==> Row(c, levels[j].key) == Row(b, levels[j].key)
    ensures ReserveFrom(c, levels, |entries|, amount, entries, raised).Broken? <==> Breaks(b, levels, |entries|, amount)
    decreases |levels| - |entries|
  {
    var i := |entries|;
    if i < |levels| {
      var level := levels[i];
      if Fits(c, level, amount) && !Unalertable(c, level, amount) {
        BreaksExactlyWhen(b, levels, amount, entries + [Reservation(level.key, amount, c.nextId, false)], Hold(c, level, amount),
                          Report(c, level, amount, raised));
        BreaksLater(b, levels, i, amount);
      } else if Fits(c, level, amount) {
        assert BreaksAt(b, levels, i, i, amount);
      }
    }
  }

  // ----- Alerts -----

  function Severity(d: Decision): nat {
    match d
    case Admit(None) => 0
    case Admit(Some(Warning70)) => 1
    case Admit(Some(Critical90)) => 2
    case Refuse => 3
  }

  /** More usage never lowers the decision, and the limit itself is still admitted. */
  lemma DecisionEscalates(used: int, more: int, limit: int)
    requires used <= more
    ensures Severity(Evaluate(used, limit)) <= Severity(Evaluate(more, limit))
    ensures Evaluate(limit, limit).Admit? && Evaluate(limit + 1, limit).Refuse?
  {}

  /** The alert table is what it was before, plus exactly the reported alerts, each of them new. */
  ghost predicate ReportedOnce(before: set<(Key, Alert)>, after: set<(Key, Alert)>, raised: seq<(Key, Alert)>) {
    && (forall a :: a in after <==> a in before || a in raised)
    && (forall i :: 0 <= i < |raised| ==> raised[i] !in before)
    && (forall i, j :: 0 <= i < j < |raised| ==> raised[i] != raised[j])
  }

  lemma HoldReportsOnce(b: Books, level: Level, amount: nat, raised: seq<(Key, Alert)>, before: set<(Key, Alert)>)
    requires ReportedOnce(before, b.alerts, raised)
    ensures ReportedOnce(before, Hold(b, level, amount).alerts, Report(b, level, amount, raised))
  {}

  /** A granted reservation reports exactly the alerts whose rows it inserted, so each fires once per period. */
  lemma {:induction false} AlertsReportedOnce(b: Books, levels: seq<Level>, amount: nat, entries: seq<Reservation>, raised: seq<(Key, Alert)>, before: set<(Key, Alert)>)
    requires |entries| <= |levels| && ReportedOnce(before, b.alerts, raised)
    ensures var attempt := ReserveFrom(b, levels, |entries|, amount, entries, raised);
      attempt.Secured? ==> ReportedOnce(before, attempt.books.alerts, attempt.raised)
    decreases |levels| - |entries|
  {
    var i := |entries|;
    if i < |levels| && Fits(b, levels[i], amount) && !Unalertable(b, levels[i], amount) {
      HoldReportsOnce(b, levels[i], amount, raised, before);
      AlertsReportedOnce(Hold(b, levels[i], amount), levels, amount, entries + [Reservation(levels[i].key, amount, b.nextId, false)],
                         Report(b, levels[i], amount, raised), before);
    }
  }

  ghost predicate DistinctBudgets(budgets: seq<Budget>) {
    forall i, j :: 0 <= i < j < |budgets| ==> budgets[i].id != budgets[j].id
  }

  /** Every level comes from its budget, in the budgets' order. */
  lemma {:induction false} LevelsComeFromBudgets(budgets: seq<Budget>, c: Command)
    requires ApplicableLevels(budgets, c).Ok?
    ensures forall l :: l in ApplicableLevels(budgets, c).value ==>
      exists budget :: budget in budgets && l.key.budget == budget.id && l.limit == budget.limit && l.contingency == budget.contingency
    ensures DistinctBudgets(budgets) ==> DistinctKeys(ApplicableLevels(budgets, c).value)
  {
    if budgets != [] {
      var before, last := budgets[..|budgets| - 1], budgets[|budgets| - 1];
      LevelsComeFromBudgets(before, c);
      var levels := ApplicableLevels(budgets, c).value;
      var prior := ApplicableLevels(before, c).value;
      forall l | l in levels
        ensures exists budget :: budget in budgets && l.key.budget == budget.id && l.limit == budget.limit && l.contingency == budget.contingency
      {
        if l in prior {
          var budget :| budget in before && l.key.budget == budget.id && l.limit == budget.limit && l.contingency == budget.contingency;
          assert budget in budgets;
        } else {
          assert last in budgets;
        }
      }
      if DistinctBudgets(budgets) {
        forall i, j | 0 <= i < j < |levels| ensures levels[i].key != levels[j].key {
          if j == |prior| { assert levels[i] == prior[i] && prior[i] in prior; }
        }
      }
    }
  }

  /**
  With the database up and the alert constraint not in the way, a request is granted exactly
  when every applicable level has room.  A refusal names the first level without room,
  changes no counter, and adds matched RESERVE and RELEASE entries for the levels before it
  and one REJECT for it.
  */
  lemma ReserveAllOrNothing(b: Books, budgets: seq<Budget>, c: Command)
    requires Sound(b) && DistinctBudgets(budgets) && ApplicableLevels(budgets, c).Ok?
    requires !Breaks(b, ApplicableLevels(budgets, c).value, 0, c.amount)
    ensures var levels := ApplicableLevels(budgets, c).value;
      var (after, outcome) := Reserve(b, budgets, c, UP);
      && Sound(after)
      && (outcome.Ok? <==> forall j :: 0 <= j < |levels| ==> Fits(b, levels[j], c.amount))
      && (outcome.Ok? ==> Holding(b, levels, c.amount, outcome.value, after) && |outcome.value| == |levels|)
      && (outcome.Err? ==>
            exists n: nat :: OnlyEvidence(b, after, levels, n, c.amount) && FirstExhausted(b, levels, 0, n, c.amount))
  {
    var levels := ApplicableLevels(budgets, c).value;
    LevelsComeFromBudgets(budgets, c);
    BreaksExactlyWhen(b, levels, c.amount, [], b, []);
    StopsAtFirstExhausted(b, levels, c.amount, [], b, []);
    NothingHeld(b, levels, c.amount);
    ReserveHolds(b, levels, c.amount, [], b, []);
    if ReserveFrom(b, levels, 0, c.amount, [], []).Refused? {
      RefusalLeavesEvidence(b, levels, c.amount);
    }
  }
}
