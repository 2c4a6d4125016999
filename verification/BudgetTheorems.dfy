/** Conservation and spending limits over every run of the budget service. */
module BudgetTheorems {
  import opened Prelude
  import opened Budgets
  import opened BudgetLedger
  import opened BudgetReserve
  import opened BudgetRuns

  // ----- Conservation -----

  /**
  In every reachable state the counters are the ledger's sums: consumption is what was
  settled, the contingency counter is what was ever drawn, and the reserved counter is what
  is still open, short of exactly the contingency draws that were settled or released.
  */
  lemma LedgerConserved(actions: seq<Action>, key: Key)
    ensures var b := Run(actions).books;
      && Row(b, key).consumed == SettledSum(b.ledger, |b.ledger|, key)
      && Row(b, key).drawn == DrawnSum(b.ledger, |b.ledger|, key)
      && Row(b, key).reserved == OpenSum(b.ledger, |b.ledger|, key) - ReturnedDraws(b.ledger, |b.ledger|, key)
  {
    RunKeepsInv(actions);
    assert RowAgrees(Row(Run(actions).books, key), Run(actions).books.ledger, key);
  }

  /** A positive contingency draw of the period that was settled or released. */
  predicate ReturnedDraw(ledger: seq<Entry>, i: nat, key: Key) {
    i < |ledger| && ledger[i].key == key && ledger[i].kind.RESERVE? && ledger[i].contingency && ledger[i].amount > 0
    && Closed(ledger, key, ledger[i].id)
  }

  lemma {:induction false} ReturnedDrawsZero(ledger: seq<Entry>, n: nat, key: Key)
    requires n <= |ledger|
    ensures ReturnedDraws(ledger, n, key) >= 0
    ensures ReturnedDraws(ledger, n, key) == 0 <==> forall i: nat :: i < n ==> !ReturnedDraw(ledger, i, key)
  {
    if n > 0 {
      ReturnedDrawsZero(ledger, n - 1, key);
      assert ReturnedDraw(ledger, n - 1, key) <==> ReturnedDraws(ledger, n, key) > ReturnedDraws(ledger, n - 1, key);
    }
  }

  /** The reserved counter is the sum of open reservations if and only if no contingency draw came back. */
  lemma ReservedIsOpenExactlyWhen(actions: seq<Action>, key: Key)
    ensures var b := Run(actions).books;
      Row(b, key).reserved == OpenSum(b.ledger, |b.ledger|, key) <==> forall i: nat :: !ReturnedDraw(b.ledger, i, key)
  {
    LedgerConserved(actions, key);
    ReturnedDrawsZero(Run(actions).books.ledger, |Run(actions).books.ledger|, key);
  }

  // ----- Replays -----

  predicate Done(b: Books, entries: seq<Reservation>, i: nat, kind: Kind) {
    forall j :: 0 <= j < i && j < |entries| ==> Has(b.ledger, entries[j].key, entries[j].id, kind)
  }

  lemma CloseMarks(b: Books, x: Reservation, kind: Kind, actual: Option<nat>, entries: seq<Reservation>, i: nat)
    requires Done(b, entries, i, kind) && Close(b, x, kind, actual).Some?
    ensures var c := Close(b, x, kind, actual).value; Done(c, entries, i, kind) && Has(c.ledger, x.key, x.id, kind)
  {
    var c := Close(b, x, kind, actual).value;
    if c.ledger != b.ledger {
      var e := c.ledger[|b.ledger|];
      assert c.ledger == b.ledger + [e];
      HasAfter(b.ledger, e, x.key, x.id, kind);
      forall j | 0 <= j < i && j < |entries| ensures Has(c.ledger, entries[j].key, entries[j].id, kind) {
        HasAfter(b.ledger, e, entries[j].key, entries[j].id, kind);
      }
    }
  }

  lemma {:induction false} CloseMarksAll(b: Books, entries: seq<Reservation>, i: nat, kind: Kind, actual: Option<nat>)
    requires i <= |entries| && Done(b, entries, i, kind) && CloseFrom(b, entries, i, kind, actual).Some?
    ensures Done(CloseFrom(b, entries, i, kind, actual).value, entries, |entries|, kind)
    decreases |entries| - i
  {
    if i < |entries| {
      CloseMarks(b, entries[i], kind, actual, entries, i);
      CloseMarksAll(Close(b, entries[i], kind, actual).value, entries, i + 1, kind, actual);
    }
  }

  lemma {:induction false} CloseSkips(b: Books, entries: seq<Reservation>, i: nat, kind: Kind, actual: Option<nat>)
    requires i <= |entries| && Done(b, entries, |entries|, kind)
    ensures CloseFrom(b, entries, i, kind, actual) == Some(b)
    decreases |entries| - i
  {
    if i < |entries| { CloseSkips(b, entries, i + 1, kind, actual); }
  }

  /** A settlement or release that went through changes nothing when it is replayed, whatever the charge. */
  lemma ReplayChangesNothing(b: Books, entries: seq<Reservation>, kind: Kind, actual: Option<nat>, again: Option<nat>)
    requires CloseAll(b, entries, kind, actual).1.Ok?
    ensures var c := CloseAll(b, entries, kind, actual).0; CloseAll(c, entries, kind, again) == (c, Ok(()))
  {
    CloseMarksAll(b, entries, 0, kind, actual);
    CloseSkips(CloseAll(b, entries, kind, actual).0, entries, 0, kind, again);
  }

  // ----- Settlements go through -----

  predicate Plain(ledger: seq<Entry>) {
    forall i :: 0 <= i < |ledger| ==> !ledger[i].contingency
  }

  lemma {:induction false} OpenCovers(ledger: seq<Entry>, n: nat, k: nat, key: Key)
    requires n <= |ledger|
    ensures OpenSum(ledger, n, key) >= 0
    ensures k < n && ledger[k].key == key && ledger[k].kind.RESERVE? && !ledger[k].contingency && !Closed(ledger, key, ledger[k].id)
      ==> OpenSum(ledger, n, key) >= ledger[k].amount
  {
    if n > 0 { OpenCovers(ledger, n - 1, k, key); }
  }

  lemma PlainReturnsNothing(ledger: seq<Entry>, key: Key)
    requires Plain(ledger)
    ensures ReturnedDraws(ledger, |ledger|, key) == 0
  {
    ReturnedDrawsZero(ledger, |ledger|, key);
  }

  lemma CloseGoesThrough(b: Books, x: Reservation, kind: Kind, actual: Option<nat>)
    requires Sound(b) && Plain(b.ledger) && Recorded(b, x) && Closer(kind) && !Has(b.ledger, x.key, x.id, Opposite(kind))
    ensures Close(b, x, kind, actual).Some? && Plain(Close(b, x, kind, actual).value.ledger)
  {
    RecordedHasRow(b, x);
    var k :| 0 <= k < |b.ledger| && b.ledger[k] == ReserveEntry(x);
    assert RowAgrees(Row(b, x.key), b.ledger, x.key);
    PlainReturnsNothing(b.ledger, x.key);
    OpenCovers(b.ledger, |b.ledger|, k, x.key);
  }

  lemma {:induction false} ClosingGoesThrough(b: Books, entries: seq<Reservation>, i: nat, kind: Kind, actual: Option<nat>)
    requires Sound(b) && Plain(b.ledger) && Closer(kind) && i <= |entries| && Closable(b, entries, kind)
    ensures CloseFrom(b, entries, i, kind, actual).Some?
    decreases |entries| - i
  {
    if i < |entries| {
      CloseGoesThrough(b, entries[i], kind, actual);
      CloseKeeps(b, entries[i], kind, actual);
      CloseGrows(b, entries[i], kind, actual);
      var d := Close(b, entries[i], kind, actual).value;
      forall j | 0 <= j < |entries| ensures Recorded(d, entries[j]) && !Has(d.ledger, entries[j].key, entries[j].id, Opposite(kind)) {
        StillClosable(b, d, entries[j], kind);
      }
      ClosingGoesThrough(d, entries, i + 1, kind, actual);
    }
  }

  /** While no contingency was drawn, no settlement or release of a call can violate a counter's constraint. */
  lemma SettlementGoesThrough(actions: seq<Action>, call: nat, actual: Option<nat>)
    requires call in Run(actions).calls && Plain(Run(actions).books.ledger)
    ensures var g := Run(actions); var entries := g.calls[call].entries;
      && (g.calls[call].fate.Succeeded? ==> CloseAll(g.books, entries, SETTLE, actual).1.Ok?)
      && (g.calls[call].fate.FailedUpstream? ==> CloseAll(g.books, entries, RELEASE, None).1.Ok?)
  {
    RunKeepsInv(actions);
    var g := Run(actions);
    var entries := g.calls[call].entries;
    assert Kept(g.books, g.calls[call]);
    forall j | 0 <= j < |entries| ensures EntryKept(g.books, entries[j], g.calls[call].fate) {}
    if g.calls[call].fate.Succeeded? {
      ClosingGoesThrough(g.books, entries, 0, SETTLE, actual);
    } else if g.calls[call].fate.FailedUpstream? {
      ClosingGoesThrough(g.books, entries, 0, RELEASE, None);
    }
  }

  // ----- Exactly when a settlement is refused -----

  /** Closing this entry would take its period's reserved counter below zero. */
  predicate Refuses(b: Books, x: Reservation, kind: Kind) {
    !Has(b.ledger, x.key, x.id, kind) && x.key in b.counters && b.counters[x.key].reserved < x.amount
  }

  lemma CloseKeepsOthers(b: Books, x: Reservation, kind: Kind, actual: Option<nat>, y: Reservation)
    requires Close(b, x, kind, actual).Some? && y.key != x.key
    ensures Refuses(Close(b, x, kind, actual).value, y, kind) <==> Refuses(b, y, kind)
  {
    var c := Close(b, x, kind, actual).value;
    if c.ledger != b.ledger {
      var e := c.ledger[|b.ledger|];
      assert c.ledger == b.ledger + [e];
      HasAfter(b.ledger, e, y.key, y.id, kind);
    }
  }

  ghost predicate SomeRefuses(b: Books, entries: seq<Reservation>, i: nat, kind: Kind) {
    exists j :: i <= j < |entries| && Refuses(b, entries[j], kind)
  }

  lemma SomeRefusesLater(b: Books, entries: seq<Reservation>, i: nat, kind: Kind, actual: Option<nat>)
    requires DistinctEntryKeys(entries) && i < |entries| && Close(b, entries[i], kind, actual).Some?
    ensures SomeRefuses(Close(b, entries[i], kind, actual).value, entries, i + 1, kind) <==> SomeRefuses(b, entries, i, kind)
  {
    var c := Close(b, entries[i], kind, actual).value;
    forall j | i + 1 <= j < |entries| ensures Refuses(c, entries[j], kind) <==> Refuses(b, entries[j], kind) {
      CloseKeepsOthers(b, entries[i], kind, actual, entries[j]);
    }
    assert !Refuses(b, entries[i], kind);
  }

  lemma {:induction false} RefusedExactlyWhen(b: Books, entries: seq<Reservation>, i: nat, kind: Kind, actual: Option<nat>)
    requires DistinctEntryKeys(entries) && i <= |entries|
    ensures CloseFrom(b, entries, i, kind, actual).None? <==> SomeRefuses(b, entries, i, kind)
    decreases |entries| - i
  {
    if i < |entries| {
      assert Close(b, entries[i], kind, actual).None? <==> Refuses(b, entries[i], kind);
      if Close(b, entries[i], kind, actual).Some? {
        RefusedExactlyWhen(Close(b, entries[i], kind, actual).value, entries, i + 1, kind, actual);
        SomeRefusesLater(b, entries, i, kind, actual);
      }
    }
  }

  /**
  In every run the settlement or release of a call, in whichever direction and whatever the
  charge, is refused if and only if one of its entries is not yet closed that way and asks
  for more than its period's reserved counter holds.
  */
  lemma SettlementRefusedExactlyWhen(actions: seq<Action>, call: nat, kind: Kind, actual: Option<nat>)
    requires call in Run(actions).calls
    ensures var g := Run(actions); var entries := g.calls[call].entries;
      CloseAll(g.books, entries, kind, actual).1.Err? <==> exists j :: 0 <= j < |entries| && Refuses(g.books, entries[j], kind)
  {
    RunKeepsDistinct(actions);
    RefusedExactlyWhen(Run(actions).books, Run(actions).calls[call].entries, 0, kind, actual);
  }

  // ----- No overdraw -----

  predicate RowWithin(row: Counters, limit: int) {
    row.reserved + row.consumed <= limit + row.allowance
  }

  ghost predicate Within(b: Books, budgets: seq<Budget>) {
    forall key: Key, i :: 0 <= i < |budgets| && budgets[i].id == key.budget ==> RowWithin(Row(b, key), budgets[i].limit)
  }

  /** No period spends more, and none loses allowance. */
  ghost predicate NoCostlier(b: Books, c: Books) {
    forall key :: && Row(c, key).reserved + Row(c, key).consumed <= Row(b, key).reserved + Row(b, key).consumed
                  && Row(b, key).allowance <= Row(c, key).allowance
  }

  lemma NoCostlierWithin(b: Books, c: Books, budgets: seq<Budget>)
    requires Within(b, budgets) && NoCostlier(b, c)
    ensures Within(c, budgets)
  {
    forall key: Key, i | 0 <= i < |budgets| && budgets[i].id == key.budget ensures RowWithin(Row(c, key), budgets[i].limit) {
      assert RowWithin(Row(b, key), budgets[i].limit);
    }
  }

  lemma {:induction false} CloseNoCostlier(b: Books, entries: seq<Reservation>, i: nat, kind: Kind)
    requires i <= |entries| && CloseFrom(b, entries, i, kind, None).Some?
    ensures NoCostlier(b, CloseFrom(b, entries, i, kind, None).value)
    decreases |entries| - i
  {
    if i < |entries| {
      var d := Close(b, entries[i], kind, None).value;
      assert NoCostlier(b, d);
      CloseNoCostlier(d, entries, i + 1, kind);
    }
  }

  lemma {:induction false} DrawNoCostlier(b: Books, levels: seq<Level>, i: nat, amount: nat, entries: seq<Reservation>)
    requires i <= |levels|
    ensures NoCostlier(b, DrawFrom(b, levels, i, amount, entries).0)
    decreases |levels| - i
  {
    if i < |levels| {
      if !Contingent(levels[i]) {
        DrawNoCostlier(b, levels, i + 1, amount, entries);
      } else if Drawable(b, levels[i], amount) {
        var d := Draw(b, levels[i], amount);
        assert NoCostlier(b, d);
        DrawNoCostlier(d, levels, i + 1, amount, entries + [Reservation(levels[i].key, Share(levels[i], amount), b.nextId, true)]);
      }
    }
  }

  ghost predicate FromBudgets(levels: seq<Level>, budgets: seq<Budget>) {
    forall l :: l in levels ==> exists budget :: budget in budgets && l.key.budget == budget.id && l.limit == budget.limit
  }

  lemma HoldWithin(b: Books, level: Level, amount: nat, budgets: seq<Budget>, budget: Budget)
    requires Within(b, budgets) && DistinctBudgets(budgets) && Fits(b, level, amount)
    requires budget in budgets && level.key.budget == budget.id && level.limit == budget.limit
    ensures Within(Hold(b, level, amount), budgets)
  {
    var c := Hold(b, level, amount);
    forall key: Key, i | 0 <= i < |budgets| && budgets[i].id == key.budget ensures RowWithin(Row(c, key), budgets[i].limit) {
      assert RowWithin(Row(b, key), budgets[i].limit);
      if key == level.key { assert budgets[i] == budget; }
    }
  }

  lemma {:induction false} HoldingWithin(b: Books, levels: seq<Level>, i: nat, amount: nat, entries: seq<Reservation>, raised: seq<(Key, Alert)>, budgets: seq<Budget>)
    requires i == |entries| <= |levels| && Within(b, budgets) && DistinctBudgets(budgets) && FromBudgets(levels, budgets)
    ensures var attempt := ReserveFrom(b, levels, i, amount, entries, raised); attempt.Secured? ==> Within(attempt.books, budgets)
    decreases |levels| - i
  {
    if i < |levels| && Fits(b, levels[i], amount) && !Unalertable(b, levels[i], amount) {
      var level := levels[i];
      assert level in levels;
      var budget :| budget in budgets && level.key.budget == budget.id && level.limit == budget.limit;
      HoldWithin(b, level, amount, budgets, budget);
      HoldingWithin(Hold(b, level, amount), levels, i + 1, amount, entries + [Reservation(level.key, amount, b.nextId, false)],
                    Report(b, level, amount, raised), budgets);
    }
  }

  lemma RecoverWithin(b: Books, levels: seq<Level>, amount: nat, fault: Fault, budgets: seq<Budget>)
    requires Within(b, budgets)
    ensures Within(Recover(b, levels, amount, fault).0, budgets)
  {
    DrawNoCostlier(b, levels, 0, amount, []);
    NoCostlierWithin(b, DrawFrom(b, levels, 0, amount, []).0, budgets);
  }

  lemma AttemptedWithin(b: Books, levels: seq<Level>, amount: nat, budgets: seq<Budget>)
    requires Sound(b) && Within(b, budgets) && DistinctBudgets(budgets) && FromBudgets(levels, budgets)
    ensures Within(Attempted(b, levels, amount).0, budgets)
  {
    match ReserveFrom(b, levels, 0, amount, [], [])
    case Broken =>
    case Secured(_, _, _) => HoldingWithin(b, levels, 0, amount, [], [], budgets);
    case Refused(_, _) =>
      RefusedFresh(b, levels, amount);
      NoCostlierWithin(b, Attempted(b, levels, amount).0, budgets);
  }

  lemma ReserveWithin(b: Books, budgets: seq<Budget>, command: Command, fault: Fault)
    requires Sound(b) && Within(b, budgets) && DistinctBudgets(budgets)
    ensures Within(TryReserve(b, budgets, command, fault).0, budgets)
  {
    if ApplicableLevels(budgets, command).Ok? {
      LevelsComeFromBudgets(budgets, command);
      assert FromBudgets(ApplicableLevels(budgets, command).value, budgets);
      AttemptedWithin(b, ApplicableLevels(budgets, command).value, command.amount, budgets);
    }
  }

  lemma RecoveryWithin(b: Books, budgets: seq<Budget>, command: Command, fault: Fault)
    requires Within(b, budgets)
    ensures Within(TryRecover(b, budgets, command, fault).0, budgets)
  {
    if ApplicableLevels(budgets, command).Ok? {
      RecoverWithin(b, ApplicableLevels(budgets, command).value, command.amount, fault, budgets);
    }
  }

  /** Limits and allowances never shrink, and settlements charge what was reserved. */
  ghost predicate Thrifty(g: Gateway, a: Action) {
    match a
    case Upsert(budget) => forall i :: 0 <= i < |g.budgets| && SameSlot(g.budgets[i], budget) ==> g.budgets[i].limit <= budget.limit
    case AdjustAllowance(_, delta, _, _) => delta >= 0
    case SettleCall(_, actual) => actual.None?
    case _ => true
  }

  lemma UpsertWithin(g: Gateway, budget: Budget)
    requires Within(g.books, g.budgets) && DistinctBudgets(g.budgets) && Thrifty(g, Upsert(budget))
    ensures Within(g.books, UpsertBudget(g, budget)) && DistinctBudgets(UpsertBudget(g, budget))
  {
    var after := UpsertBudget(g, budget);
    forall key: Key, i | 0 <= i < |after| && after[i].id == key.budget ensures RowWithin(Row(g.books, key), after[i].limit) {
      if i < |g.budgets| { assert RowWithin(Row(g.books, key), g.budgets[i].limit); }
    }
  }

  lemma StepWithin(g: Gateway, a: Action)
    requires Inv(g) && Within(g.books, g.budgets) && DistinctBudgets(g.budgets) && Thrifty(g, a)
    ensures Within(Step(g, a).books, Step(g, a).budgets) && DistinctBudgets(Step(g, a).budgets)
  {
    match a
    case Upsert(budget) => UpsertWithin(g, budget);
    case AdjustAllowance(index, delta, month, day) =>
      if index < |g.budgets| {
        assert NoCostlier(g.books, Step(g, a).books);
        NoCostlierWithin(g.books, Step(g, a).books, g.budgets);
      }
    case Begin(call, command, fault) => ReserveWithin(g.books, g.budgets, command, fault);
    case RecoverCall(call, month, day, fault) =>
      if call in g.pending { RecoveryWithin(g.books, g.budgets, Later(g.pending[call], month, day), fault); }
    case Return(_, _) =>
    case SettleCall(call, actual) => CloseWithin(g, call, SETTLE);
    case ReleaseCall(call) => CloseWithin(g, call, RELEASE);
  }

  lemma CloseWithin(g: Gateway, call: nat, kind: Kind)
    requires Within(g.books, g.budgets)
    ensures call in g.calls ==> Within(CloseAll(g.books, g.calls[call].entries, kind, None).0, g.budgets)
  {
    if call in g.calls && CloseFrom(g.books, g.calls[call].entries, 0, kind, None).Some? {
      CloseNoCostlier(g.books, g.calls[call].entries, 0, kind);
      NoCostlierWithin(g.books, CloseAll(g.books, g.calls[call].entries, kind, None).0, g.budgets);
    }
  }

  ghost predicate ThriftyRun(actions: seq<Action>) {
    forall n: nat :: n < |actions| ==> Thrifty(Run(actions[..n]), actions[n])
  }

  lemma {:induction false} RunWithin(actions: seq<Action>)
    requires ThriftyRun(actions)
    ensures Within(Run(actions).books, Run(actions).budgets) && DistinctBudgets(Run(actions).budgets)
  {
    if actions != [] {
      var before := actions[..|actions| - 1];
      assert forall n: nat :: n < |before| ==> before[..n] == actions[..n] && before[n] == actions[n];
      RunWithin(before);
      RunKeepsInv(before);
      StepWithin(Run(before), actions[|actions| - 1]);
    }
  }

  /** No budget is overdrawn in any period of any thrifty run, however the calls interleave. */
  lemma NeverOverdrawn(actions: seq<Action>, i: nat, period: string)
    requires ThriftyRun(actions) && i < |Run(actions).budgets|
    ensures var budget := Run(actions).budgets[i]; var row := Row(Run(actions).books, Key(budget.id, period));
      row.reserved + row.consumed <= budget.limit + row.allowance
  {
    RunWithin(actions);
    var g := Run(actions);
    assert RowWithin(Row(g.books, Key(g.budgets[i].id, period)), g.budgets[i].limit);
  }
}
