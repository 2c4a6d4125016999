/** Runs of the budget service that show where its counters and constraints do not meet its promises. */
module BudgetExamples {
  import opened Prelude
  import opened Budgets
  import opened BudgetLedger
  import opened BudgetReserve
  import opened BudgetRuns
  import opened BudgetTheorems
  import opened BudgetOrphans

  // ----- A contingency draw that comes back -----

  function Monthly(): Budget {
    Budget(0, TenantMonthly, None, 100, 10, true)
  }

  function Five(month: string): Command {
    Command(None, None, 5, month, "")
  }

  lemma {:induction false} RunMore(actions: seq<Action>, a: Action)
    ensures Run(actions + [a]) == Step(Run(actions), a)
  {
    assert (actions + [a])[..|actions|] == actions;
  }

  /** A plain call of 5. */
  function PlainRun(month: string): seq<Action> {
    [] + [Upsert(Monthly())] + [Begin(0, Five(month), Fine)]
  }

  /** Then a call of 5 during an outage, which succeeds, and its settlement. */
  function OutageRun(month: string): seq<Action> {
    PlainRun(month) + [Begin(1, Five(month), RolledBack)] + [RecoverCall(1, month, "", Fine)] + [Return(1, true)] + [SettleCall(1, None)]
  }

  lemma LevelsOfMonthly(command: Command)
    ensures ApplicableLevels([Monthly()], command) == Ok([Level(Key(0, command.month), 100, 10, true)])
  {
    var budgets := [Monthly()];
    assert budgets[..|budgets| - 1] == [];
    assert [] + [Level(Key(0, command.month), 100, 10, true)] == [Level(Key(0, command.month), 100, 10, true)];
  }

  lemma ReserveOnOneLevel(b: Books, level: Level, amount: nat)
    requires Fits(b, level, amount) && level.limit > 0
    ensures ReserveFrom(b, [level], 0, amount, [], []).Secured?
    ensures ReserveFrom(b, [level], 0, amount, [], []).books == Hold(b, level, amount)
    ensures ReserveFrom(b, [level], 0, amount, [], []).entries == [Reservation(level.key, amount, b.nextId, false)]
  {
    var x := Reservation(level.key, amount, b.nextId, false);
    assert [] + [x] == [x];
    assert ReserveFrom(Hold(b, level, amount), [level], 1, amount, [x], Report(b, level, amount, [])).Secured?;
  }

  lemma DrawOnOneLevel(b: Books, level: Level, amount: nat)
    requires Contingent(level) && Drawable(b, level, amount)
    ensures DrawFrom(b, [level], 0, amount, [])
         == (Draw(b, level, amount), Some([Reservation(level.key, Share(level, amount), b.nextId, true)]))
  {
    var x := Reservation(level.key, Share(level, amount), b.nextId, true);
    assert [] + [x] == [x];
    assert DrawFrom(Draw(b, level, amount), [level], 1, amount, [x]) == (Draw(b, level, amount), Some([x]));
  }

  function MonthlyLevel(month: string): Level {
    Level(Key(0, month), 100, 10, true)
  }

  lemma BeginPlain(g: Gateway, call: nat, month: string)
    requires g.budgets == [Monthly()] && g.books == INITIAL.books && call !in g.calls && call !in g.pending
    ensures var h := Step(g, Begin(call, Five(month), Fine));
      && h.budgets == g.budgets && h.books == Hold(g.books, MonthlyLevel(month), 5)
      && h.calls == g.calls[call := Call([Reservation(Key(0, month), 5, 0, false)], InFlight)] && h.pending == g.pending
  {
    LevelsOfMonthly(Five(month));
    ReserveOnOneLevel(INITIAL.books, MonthlyLevel(month), 5);
  }

  /** A request whose reserve transaction was rolled back, and which the recovery then draws for. */
  lemma OutageDraws(g: Gateway, call: nat, month: string)
    requires g.budgets == [Monthly()] && call !in g.calls && call !in g.pending && Drawable(g.books, MonthlyLevel(month), 5)
    ensures var h := Step(Step(g, Begin(call, Five(month), RolledBack)), RecoverCall(call, month, "", Fine));
      && h.books == Draw(g.books, MonthlyLevel(month), 5)
      && h.calls == g.calls[call := Call([Reservation(Key(0, month), 5, g.books.nextId, true)], InFlight)]
  {
    LevelsOfMonthly(Five(month));
    DrawOnOneLevel(g.books, MonthlyLevel(month), 5);
  }

  /** The two transactions of an outage call after any run on the monthly budget. */
  lemma OutageRunDraws(run: seq<Action>, call: nat, month: string, g: Gateway, h: Gateway)
    requires g == Run(run) && h == Run(run + [Begin(call, Five(month), RolledBack)] + [RecoverCall(call, month, "", Fine)] + [Return(call, true)])
    requires g.budgets == [Monthly()] && call !in g.calls && call !in g.pending && Drawable(g.books, MonthlyLevel(month), 5)
    ensures h.books == Draw(g.books, MonthlyLevel(month), 5)
    ensures h.calls == g.calls[call := Call([Reservation(Key(0, month), 5, g.books.nextId, true)], Succeeded)]
  {
    RunMore(run, Begin(call, Five(month), RolledBack));
    RunMore(run + [Begin(call, Five(month), RolledBack)], RecoverCall(call, month, "", Fine));
    RunMore(run + [Begin(call, Five(month), RolledBack)] + [RecoverCall(call, month, "", Fine)], Return(call, true));
    OutageDraws(g, call, month);
  }

  lemma PlainCallHolds(month: string)
    ensures var g := Run(PlainRun(month));
      && g.budgets == [Monthly()] && g.books == Hold(INITIAL.books, MonthlyLevel(month), 5)
      && g.calls.Keys == {0} && g.pending == map[]
  {
    RunMore([], Upsert(Monthly()));
    RunMore([] + [Upsert(Monthly())], Begin(0, Five(month), Fine));
    FirstBudget(Monthly());
    BeginPlain(Step(INITIAL, Upsert(Monthly())), 0, month);
  }

  lemma OutageLedger(month: string)
    ensures var key := Key(0, month); var d := Draw(Hold(INITIAL.books, MonthlyLevel(month), 5), MonthlyLevel(month), 5);
      && d.ledger == [Entry(key, RESERVE, 5, 0, false), Entry(key, RESERVE, 5, 1, true)]
      && d.counters == map[key := Counters(5, 0, 0, 5)]
  {}

  lemma CloseOnlyEntry(b: Books, x: Reservation, kind: Kind)
    requires Close(b, x, kind, None).Some?
    ensures CloseAll(b, [x], kind, None) == (Close(b, x, kind, None).value, Ok(()))
  {
    var c := Close(b, x, kind, None).value;
    assert CloseFrom(c, [x], 1, kind, None) == Some(c);
  }

  lemma SettledDraw(ledger: seq<Entry>, key: Key)
    requires ledger == [Entry(key, RESERVE, 5, 0, false), Entry(key, RESERVE, 5, 1, true), Entry(key, SETTLE, 5, 1, true)]
    ensures ReturnedDraws(ledger, 3, key) == 5
  {
    assert ledger[2] in ledger && Matches(ledger[2], key, 1, SETTLE);
    assert ReturnedDraws(ledger, 0, key) == 0;
    assert ReturnedDraws(ledger, 1, key) == 0;
    assert ReturnedDraws(ledger, 2, key) == 5;
  }

  lemma SettledBooks(d: Books, key: Key, x: Reservation)
    requires d.ledger == [Entry(key, RESERVE, 5, 0, false), Entry(key, RESERVE, 5, 1, true)]
    requires d.counters == map[key := Counters(5, 0, 0, 5)] && x == Reservation(key, 5, 1, true)
    ensures var settled := CloseAll(d, [x], SETTLE, None).0;
      Row(settled, key).reserved == 0 && settled.ledger == d.ledger + [Entry(key, SETTLE, 5, 1, true)]
  {
    CloseOnlyEntry(d, x, SETTLE);
  }

  lemma OutageReached(month: string, g: Gateway, key: Key)
    requires g == Run(PlainRun(month) + [Begin(1, Five(month), RolledBack)] + [RecoverCall(1, month, "", Fine)] + [Return(1, true)])
    requires key == Key(0, month)
    ensures g.books.ledger == [Entry(key, RESERVE, 5, 0, false), Entry(key, RESERVE, 5, 1, true)]
    ensures g.books.counters == map[key := Counters(5, 0, 0, 5)]
    ensures 1 in g.calls && g.calls[1] == Call([Reservation(key, 5, 1, true)], Succeeded)
  {
    PlainCallHolds(month);
    OutageRunDraws(PlainRun(month), 1, month, Run(PlainRun(month)), g);
    OutageLedger(month);
  }

  /** The settlement of the draw takes the plain call's open reservation off the counter. */
  lemma ContingencySettlementUnbalances(month: string, b: Books, key: Key)
    requires b == Run(OutageRun(month)).books && key == Key(0, month)
    ensures Row(b, key).reserved == 0 && OpenSum(b.ledger, |b.ledger|, key) == 5
  {
    var before := PlainRun(month) + [Begin(1, Five(month), RolledBack)] + [RecoverCall(1, month, "", Fine)] + [Return(1, true)];
    OutageReached(month, Run(before), key);
    RunMore(before, SettleCall(1, None));
    SettledBooks(Run(before).books, key, Reservation(key, 5, 1, true));
    LedgerConserved(OutageRun(month), key);
    SettledDraw(b.ledger, key);
  }

  // ----- A draw that cannot be settled -----

  /** A budget and a period that has an allowance row and nothing else. */
  function SetUp(budget: Budget, allowance: nat, month: string): seq<Action> {
    [] + [Upsert(budget)] + [AdjustAllowance(0, allowance, month, "")]
  }

  /** A call of 5 during an outage, which succeeds. */
  function LoneRun(month: string): seq<Action> {
    SetUp(Monthly(), 0, month) + [Begin(0, Five(month), RolledBack)] + [RecoverCall(0, month, "", Fine)] + [Return(0, true)]
  }

  function Allowed(month: string, allowance: nat): Books {
    Books(map[Key(0, month) := Counters(0, 0, allowance, 0)], [Entry(Key(0, month), ADJUST, allowance, 0, false)], {}, 1)
  }

  lemma AdjustOnEmpty(budget: Budget, allowance: nat, month: string)
    requires budget.id == 0 && budget.scope.TenantMonthly?
    ensures Adjust(INITIAL.books, budget, allowance, month, "").0 == Allowed(month, allowance)
  {
    var e := Entry(Key(0, month), ADJUST, allowance, 0, false);
    assert Append([], e) == [e];
  }

  lemma FirstBudget(budget: Budget)
    ensures Step(INITIAL, Upsert(budget)) == INITIAL.(budgets := [budget])
  {
    assert UpsertBudget(INITIAL, budget) == [budget];
  }

  lemma Configured(budget: Budget, allowance: nat, month: string)
    requires budget.id == 0 && budget.scope.TenantMonthly?
    ensures var g := Run(SetUp(budget, allowance, month));
      g.budgets == [budget] && g.books == Allowed(month, allowance) && g.calls == map[] && g.pending == map[]
  {
    RunMore([], Upsert(budget));
    RunMore([] + [Upsert(budget)], AdjustAllowance(0, allowance, month, ""));
    FirstBudget(budget);
    AdjustOnEmpty(budget, allowance, month);
  }

  /** Such a call succeeded and can never be settled: the counter that the settlement lowers is zero. */
  lemma LoneDrawCannotSettle(month: string, g: Gateway)
    requires g == Run(LoneRun(month))
    ensures 0 in g.calls && g.calls[0].fate == Succeeded
    ensures CloseAll(g.books, g.calls[0].entries, SETTLE, None) == (g.books, Err(CheckViolated))
  {
    var run, x := SetUp(Monthly(), 0, month), Reservation(Key(0, month), 5, 1, true);
    Configured(Monthly(), 0, month);
    OutageRunDraws(run, 0, month, Run(run), g);
    assert g.calls[0].entries == [x] && [x][0] == x;
    assert Refuses(g.books, x, SETTLE);
    SettlementRefusedExactlyWhen(LoneRun(month), 0, SETTLE, None);
  }

  // ----- A budget with a limit of zero -----

  function ZeroLimit(): Budget {
    Budget(0, TenantMonthly, None, 0, 0, false)
  }

  lemma LevelsOfZeroLimit(command: Command)
    ensures ApplicableLevels([ZeroLimit()], command) == Ok([Level(Key(0, command.month), 0, 0, false)])
  {
    var budgets := [ZeroLimit()];
    assert budgets[..|budgets| - 1] == [];
    assert [] + [Level(Key(0, command.month), 0, 0, false)] == [Level(Key(0, command.month), 0, 0, false)];
  }

  /** A request that the allowance covers is not admitted: its alert row violates the constraint, and nothing recovers it. */
  lemma ZeroLimitAborts(month: string, amount: nat)
    requires 7 <= amount <= 10
    ensures var g := Run(SetUp(ZeroLimit(), 10, month)); var command := Command(None, None, amount, month, "");
      var level := Level(Key(0, month), 0, 0, false);
      && ApplicableLevels(g.budgets, command) == Ok([level]) && Fits(g.books, level, amount)
      && Breaks(g.books, [level], 0, amount)
      && Reserve(g.books, g.budgets, command, UP) == (g.books, Err(StateUnknown))
  {
    Configured(ZeroLimit(), 10, month);
    var b, level := Allowed(month, 10), Level(Key(0, month), 0, 0, false);
    LevelsOfZeroLimit(Command(None, None, amount, month, ""));
    assert BreaksAt(b, [level], 0, 0, amount);
    assert ReserveFrom(b, [level], 0, amount, [], []).Broken?;
    assert DrawFrom(b, [level], 1, amount, []) == (b, None);
  }

  // ----- Reservations that nobody gets -----

  lemma LeaksOnto(run: seq<Action>, a: Action, x: Reservation)
    requires x in Leaked(Run(run), a)
    ensures Orphan(Run(run + [a]), x)
  {
    RunMore(run, a);
    RunKeepsInv(run);
    StepOrphans(Run(run), a, x);
  }

  /** A call whose reserve transaction commits and still raises. */
  function RaisedRun(month: string): seq<Action> {
    [] + [Upsert(Monthly())] + [Begin(0, Five(month), CommittedThenRaised)]
  }

  lemma RaisedCommitLeaks(month: string)
    ensures Orphan(Run(RaisedRun(month)), Reservation(Key(0, month), 5, 0, false)) && Run(RaisedRun(month)).calls == map[]
  {
    var run, a := [] + [Upsert(Monthly())], Begin(0, Five(month), CommittedThenRaised);
    RunMore([], Upsert(Monthly()));
    FirstBudget(Monthly());
    LevelsOfMonthly(Five(month));
    ReserveOnOneLevel(INITIAL.books, MonthlyLevel(month), 5);
    assert Leaked(Run(run), a) == [Reservation(Key(0, month), 5, 0, false)];
    LeaksOnto(run, a, Reservation(Key(0, month), 5, 0, false));
    RunMore(run, a);
  }

  function Daily(): Budget {
    Budget(1, AgentDaily, None, 100, 10, true)
  }

  /** Two contingent budgets, of which only the first has a row for the period, and a call during an outage. */
  function TwoBudgets(month: string): seq<Action> {
    [] + [Upsert(Monthly())] + [Upsert(Daily())] + [AdjustAllowance(0, 0, month, "")]
  }

  function StoppedRun(month: string): seq<Action> {
    TwoBudgets(month) + [Begin(0, Five(month), RolledBack)] + [RecoverCall(0, month, "", Fine)]
  }

  lemma SecondBudget(g: Gateway)
    requires g == INITIAL.(budgets := [Monthly()])
    ensures Step(g, Upsert(Daily())) == INITIAL.(budgets := [Monthly(), Daily()])
  {
    assert g.budgets[0] == Monthly();
    assert UpsertBudget(g, Daily()) == [Monthly()] + [Daily()];
    assert [Monthly()] + [Daily()] == [Monthly(), Daily()];
  }

  lemma TwoConfigured(month: string)
    ensures Run(TwoBudgets(month)) == Gateway([Monthly(), Daily()], Allowed(month, 0), map[], map[])
  {
    RunMore([], Upsert(Monthly()));
    RunMore([] + [Upsert(Monthly())], Upsert(Daily()));
    RunMore([] + [Upsert(Monthly())] + [Upsert(Daily())], AdjustAllowance(0, 0, month, ""));
    FirstBudget(Monthly());
    SecondBudget(INITIAL.(budgets := [Monthly()]));
    AdjustOnEmpty(Monthly(), 0, month);
  }

  lemma LevelsOfBoth(month: string)
    ensures ApplicableLevels([Monthly(), Daily()], Five(month)) == Ok([MonthlyLevel(month), Level(Key(1, ""), 100, 10, true)])
  {
    LevelsOfMonthly(Five(month));
    var budgets := [Monthly(), Daily()];
    assert budgets[..1] == [Monthly()];
    assert [MonthlyLevel(month)] + [Level(Key(1, ""), 100, 10, true)] == [MonthlyLevel(month), Level(Key(1, ""), 100, 10, true)];
  }

  lemma DrawsFirstOnly(b: Books, levels: seq<Level>, amount: nat, x: Reservation)
    requires |levels| == 2 && Contingent(levels[0]) && Contingent(levels[1]) && levels[0].key != levels[1].key
    requires Drawable(b, levels[0], amount) && !Drawable(b, levels[1], amount)
    requires x == Reservation(levels[0].key, Share(levels[0], amount), b.nextId, true)
    ensures Drawn(b, levels, 0, amount) == [x] && Stops(b, levels, 0, amount)
  {
    assert Drawn(Draw(b, levels[0], amount), levels, 1, amount) == [];
    assert Stops(Draw(b, levels[0], amount), levels, 1, amount);
    assert [x] + [] == [x];
  }

  /** The recovery draws on the first budget, stops at the second, and commits the draw without a bundle. */
  lemma StoppedRecoveryLeaks(month: string, x: Reservation, g: Gateway)
    requires x == Reservation(Key(0, month), 5, 1, true) && g == Run(StoppedRun(month))
    ensures Orphan(g, x) && g.calls == map[]
  {
    var run := TwoBudgets(month) + [Begin(0, Five(month), RolledBack)];
    var h, a := Run(run), RecoverCall(0, month, "", Fine);
    TwoConfigured(month);
    LevelsOfBoth(month);
    RunMore(TwoBudgets(month), Begin(0, Five(month), RolledBack));
    assert h == Gateway([Monthly(), Daily()], Allowed(month, 0), map[], map[0 := Five(month)]);
    StoppedLeak(month, h, a, x);
    LeaksOnto(run, a, x);
    RunMore(run, a);
  }

  lemma StoppedLeak(month: string, h: Gateway, a: Action, x: Reservation)
    requires h == Gateway([Monthly(), Daily()], Allowed(month, 0), map[], map[0 := Five(month)])
    requires a == RecoverCall(0, month, "", Fine) && x == Reservation(Key(0, month), 5, 1, true)
    ensures x in Leaked(h, a) && Step(h, a).calls == map[]
  {
    LevelsOfBoth(month);
    var levels := [MonthlyLevel(month), Level(Key(1, ""), 100, 10, true)];
    DrawsFirstOnly(h.books, levels, 5, x);
    assert Later(Five(month), month, "") == Five(month);
    StoppedOutcome(h.books, levels, 5);
  }

  lemma StoppedOutcome(b: Books, levels: seq<Level>, amount: nat)
    requires Stops(b, levels, 0, amount)
    ensures Recover(b, levels, amount, Fine).1.Err?
  {
    StopsGivesNone(b, levels, 0, amount, []);
  }

  lemma {:induction false} StopsGivesNone(b: Books, levels: seq<Level>, i: nat, amount: nat, entries: seq<Reservation>)
    requires i <= |levels| && Stops(b, levels, i, amount)
    ensures DrawFrom(b, levels, i, amount, entries).1.None?
    decreases |levels| - i
  {
    if !Contingent(levels[i]) {
      StopsGivesNone(b, levels, i + 1, amount, entries);
    } else if Drawable(b, levels[i], amount) {
      StopsGivesNone(Draw(b, levels[i], amount), levels, i + 1, amount,
                     entries + [Reservation(levels[i].key, Share(levels[i], amount), b.nextId, true)]);
    }
  }
}
