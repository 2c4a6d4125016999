/** Every run of model calls, replays, adjustments and reconfigurations over the budget books. */
module BudgetRuns {
  import opened Prelude
  import opened Budgets
  import opened BudgetLedger
  import opened BudgetReserve

  /** What the gateway knows of a call: a successful one is settled, a failed one released. */
  datatype Fate = InFlight | Succeeded | FailedUpstream

  datatype Call = Call(entries: seq<Reservation>, fate: Fate)

  /** `pending` are the requests whose reserve transaction ended in a database error. */
  datatype Gateway = Gateway(budgets: seq<Budget>, books: Books, calls: map<nat, Call>, pending: map<nat, Command>)

  const INITIAL := Gateway([], Books(map[], [], {}, 0), map[], map[])

  datatype Action =
    | Upsert(budget: Budget)
    | AdjustAllowance(index: nat, delta: int, month: string, day: string)
    | Begin(call: nat, command: Command, fault: Fault)
    | RecoverCall(call: nat, month: string, day: string, fault: Fault)
    | Return(call: nat, success: bool)
    | SettleCall(call: nat, actual: Option<nat>)
    | ReleaseCall(call: nat)

  /** One budget per scope and application; an upsert of an existing one keeps its identity. */
  predicate SameSlot(a: Budget, b: Budget) {
    a.scope == b.scope && a.application == b.application
  }

  function Reconfigured(was: Budget, b: Budget): Budget {
    was.(limit := b.limit, contingency := b.contingency, contingent := b.contingent)
  }

  /** A newly generated budget identifier: no budget and no counter row carries it. */
  ghost predicate Unused(g: Gateway, id: nat) {
    && (forall i :: 0 <= i < |g.budgets| ==> g.budgets[i].id != id)
    && (forall key :: key in g.books.counters ==> key.budget != id)
  }

  ghost function UpsertBudget(g: Gateway, b: Budget): seq<Budget> {
    if exists i :: 0 <= i < |g.budgets| && SameSlot(g.budgets[i], b) then
      seq(|g.budgets|, i requires 0 <= i < |g.budgets| => if SameSlot(g.budgets[i], b) then Reconfigured(g.budgets[i], b) else g.budgets[i])
    else if Unused(g, b.id) then g.budgets + [b]
    else g.budgets
  }

  /** The call's bundle, if the transaction handed one out. */
  function Opened(g: Gateway, call: nat, outcome: Result<seq<Reservation>, Error>): Gateway {
    if outcome.Ok? then g.(calls := g.calls[call := Call(outcome.value, InFlight)]) else g
  }

  /** The recovery reads the clock again. */
  function Later(c: Command, month: string, day: string): Command {
    c.(month := month, day := day)
  }

  ghost function Step(g: Gateway, a: Action): Gateway {
    match a
    case Upsert(budget) => g.(budgets := UpsertBudget(g, budget))
    case AdjustAllowance(index, delta, month, day) =>
      if index < |g.budgets| then g.(books := Adjust(g.books, g.budgets[index], delta, month, day).0) else g
    case Begin(call, command, fault) =>
      if call in g.calls || call in g.pending then g
      else
        var (books, outcome) := TryReserve(g.books, g.budgets, command, fault);
        Opened(g.(books := books, pending := if outcome.None? then g.pending[call := command] else g.pending),
               call, if outcome.Some? then outcome.value else Err(StateUnknown))
    case RecoverCall(call, month, day, fault) =>
      if call !in g.pending || call in g.calls then g
      else
        var (books, outcome) := TryRecover(g.books, g.budgets, Later(g.pending[call], month, day), fault);
        Opened(g.(books := books, pending := g.pending - {call}), call, outcome)
    case Return(call, success) =>
      if call in g.calls && g.calls[call].fate.InFlight?
        then g.(calls := g.calls[call := g.calls[call].(fate := if success then Succeeded else FailedUpstream)]) else g
    case SettleCall(call, actual) =>
      if call in g.calls && g.calls[call].fate.Succeeded?
        then g.(books := CloseAll(g.books, g.calls[call].entries, SETTLE, actual).0) else g
    case ReleaseCall(call) =>
      if call in g.calls && g.calls[call].fate.FailedUpstream?
        then g.(books := CloseAll(g.books, g.calls[call].entries, RELEASE, None).0) else g
  }

  ghost function Run(actions: seq<Action>): Gateway {
    if actions == [] then INITIAL else Step(Run(actions[..|actions| - 1]), actions[|actions| - 1])
  }

  // ----- The discipline of the calls -----

  /** The entries of a call are on the ledger and closed only in the way its fate allows. */
  ghost predicate Kept(b: Books, call: Call) {
    forall i :: 0 <= i < |call.entries| ==> EntryKept(b, call.entries[i], call.fate)
  }

  ghost predicate EntryKept(b: Books, x: Reservation, fate: Fate) {
    && Recorded(b, x)
    && (!fate.Succeeded? ==> !Has(b.ledger, x.key, x.id, SETTLE))
    && (!fate.FailedUpstream? ==> !Has(b.ledger, x.key, x.id, RELEASE))
  }

  ghost predicate SharesId(c: Call, d: Call) {
    exists i, j :: 0 <= i < |c.entries| && 0 <= j < |d.entries| && c.entries[i].id == d.entries[j].id
  }

  ghost predicate Inv(g: Gateway) {
    && Sound(g.books)
    && (forall c :: c in g.calls ==> Kept(g.books, g.calls[c]))
    && (forall c, d :: c in g.calls && d in g.calls && c != d ==> !SharesId(g.calls[c], g.calls[d]))
  }

  /** The ledger of c is that of b with closing entries of one kind, for the given identifiers only. */
  ghost predicate Grown(b: Books, c: Books, kind: Kind, entries: seq<Reservation>) {
    && c.nextId >= b.nextId && |b.ledger| <= |c.ledger| && c.ledger[..|b.ledger|] == b.ledger
    && forall i :: |b.ledger| <= i < |c.ledger| ==> GrownBy(c.ledger[i], kind, entries)
  }

  ghost predicate GrownBy(e: Entry, kind: Kind, entries: seq<Reservation>) {
    e.kind == kind && exists j :: 0 <= j < |entries| && entries[j].id == e.id
  }

  lemma KeptElsewhere(b: Books, c: Books, x: Reservation, fate: Fate)
    requires EntryKept(b, x, fate) && |b.ledger| <= |c.ledger| && c.ledger[..|b.ledger|] == b.ledger
    requires forall i :: |b.ledger| <= i < |c.ledger| && Closer(c.ledger[i].kind) ==> c.ledger[i].id != x.id
    ensures EntryKept(c, x, fate)
  {
    assert Recorded(c, x);
    forall kind: Kind | Closer(kind) && Has(c.ledger, x.key, x.id, kind) ensures Has(b.ledger, x.key, x.id, kind) {
      var e :| e in c.ledger && Matches(e, x.key, x.id, kind);
      var i :| 0 <= i < |c.ledger| && c.ledger[i] == e;
      assert i < |b.ledger|;
      assert e == b.ledger[i] && e in b.ledger;
    }
  }

  // ----- Closing a call -----

  lemma CloseGrows(b: Books, x: Reservation, kind: Kind, actual: Option<nat>)
    requires Close(b, x, kind, actual).Some?
    ensures var c := Close(b, x, kind, actual).value;
      c.nextId == b.nextId && (c.ledger == b.ledger || exists e :: c.ledger == b.ledger + [e] && e.kind == kind && e.key == x.key && e.id == x.id)
  {}

  lemma StillClosable(b: Books, c: Books, x: Reservation, kind: Kind)
    requires Recorded(b, x) && !Has(b.ledger, x.key, x.id, Opposite(kind)) && Closer(kind)
    requires c.ledger == b.ledger || exists e :: c.ledger == b.ledger + [e] && e.kind == kind
    ensures Recorded(c, x) && !Has(c.ledger, x.key, x.id, Opposite(kind))
  {
    if c.ledger != b.ledger {
      var e :| c.ledger == b.ledger + [e] && e.kind == kind;
      HasAfter(b.ledger, e, x.key, x.id, Opposite(kind));
    }
  }

  ghost predicate Closable(b: Books, entries: seq<Reservation>, kind: Kind) {
    forall j :: 0 <= j < |entries| ==> Recorded(b, entries[j]) && !Has(b.ledger, entries[j].key, entries[j].id, Opposite(kind))
  }

  lemma {:induction false} ClosingRun(b: Books, entries: seq<Reservation>, i: nat, kind: Kind, actual: Option<nat>)
    requires Sound(b) && Closer(kind) && i <= |entries| && Closable(b, entries, kind)
    requires CloseFrom(b, entries, i, kind, actual).Some?
    ensures var c := CloseFrom(b, entries, i, kind, actual).value;
      Sound(c) && Closable(c, entries, kind) && Grown(b, c, kind, entries)
    decreases |entries| - i
  {
    if i < |entries| {
      CloseKeeps(b, entries[i], kind, actual);
      CloseGrows(b, entries[i], kind, actual);
      var d := Close(b, entries[i], kind, actual).value;
      forall j | 0 <= j < |entries| ensures Recorded(d, entries[j]) && !Has(d.ledger, entries[j].key, entries[j].id, Opposite(kind)) {
        StillClosable(b, d, entries[j], kind);
      }
      ClosingRun(d, entries, i + 1, kind, actual);
      GrownThrough(b, d, CloseFrom(d, entries, i + 1, kind, actual).value, kind, entries);
    }
  }

  lemma GrownThrough(b: Books, d: Books, c: Books, kind: Kind, entries: seq<Reservation>)
    requires d.nextId == b.nextId && Grown(d, c, kind, entries)
    requires d.ledger == b.ledger || exists e :: d.ledger == b.ledger + [e] && GrownBy(e, kind, entries)
    ensures Grown(b, c, kind, entries)
  {
    if d.ledger != b.ledger {
      var e :| d.ledger == b.ledger + [e] && GrownBy(e, kind, entries);
      assert c.ledger[..|b.ledger|] == c.ledger[..|d.ledger|][..|b.ledger|];
      forall i | |b.ledger| <= i < |c.ledger| ensures GrownBy(c.ledger[i], kind, entries) {
        if i == |b.ledger| { assert c.ledger[i] == d.ledger[i]; }
      }
    }
  }

  // ----- Beginning a call -----

  /** The ledger of c is that of b with entries under new identifiers only. */
  ghost predicate Fresher(b: Books, c: Books) {
    && b.nextId <= c.nextId && |b.ledger| <= |c.ledger| && c.ledger[..|b.ledger|] == b.ledger
    && forall i :: |b.ledger| <= i < |c.ledger| ==> c.ledger[i].id >= b.nextId
  }

  /** Reservations handed out since b, on the ledger of c and open. */
  ghost predicate FreshlyOpen(b: Books, c: Books, entries: seq<Reservation>) {
    forall j :: 0 <= j < |entries| ==>
      entries[j].id >= b.nextId && Recorded(c, entries[j]) && !Closed(c.ledger, entries[j].key, entries[j].id)
  }

  lemma DrawFresh(b: Books, c: Books, level: Level, amount: nat, entries: seq<Reservation>)
    requires Sound(c) && level.key in c.counters && Fresher(b, c) && FreshlyOpen(b, c, entries)
    ensures var d := Draw(c, level, amount);
      Sound(d) && Fresher(b, d) && FreshlyOpen(b, d, entries + [Reservation(level.key, Share(level, amount), c.nextId, true)])
  {
    DrawKeeps(c, level, amount);
    var d := Draw(c, level, amount);
    var e := Entry(level.key, RESERVE, Share(level, amount), c.nextId, true);
    var all := entries + [Reservation(level.key, Share(level, amount), c.nextId, true)];
    assert d.ledger[..|b.ledger|] == c.ledger[..|b.ledger|];
    NoClosersOf(c);
    ClosedAfter(c.ledger, e, level.key, c.nextId);
    forall j | 0 <= j < |all|
      ensures all[j].id >= b.nextId && Recorded(d, all[j]) && !Closed(d.ledger, all[j].key, all[j].id)
    {
      if j < |entries| { RecordedAfter(c, d, e, entries[j]); }
    }
  }

  lemma {:induction false} DrawingRun(b: Books, c: Books, levels: seq<Level>, i: nat, amount: nat, entries: seq<Reservation>)
    requires i <= |levels| && Sound(c) && Fresher(b, c) && FreshlyOpen(b, c, entries)
    ensures var (d, drawn) := DrawFrom(c, levels, i, amount, entries);
      Sound(d) && Fresher(b, d) && (drawn.Some? ==> FreshlyOpen(b, d, drawn.value))
    decreases |levels| - i
  {
    if i < |levels| {
      if !Contingent(levels[i]) {
        DrawingRun(b, c, levels, i + 1, amount, entries);
      } else if Drawable(c, levels[i], amount) {
        DrawFresh(b, c, levels[i], amount, entries);
        DrawingRun(b, Draw(c, levels[i], amount), levels, i + 1, amount,
                   entries + [Reservation(levels[i].key, Share(levels[i], amount), c.nextId, true)]);
      }
    }
  }

  lemma {:induction false} HoldsAt(levels: seq<Level>, n: nat, amount: nat, first: nat)
    requires n <= |levels|
    ensures |Holds(levels, n, amount, first)| == n
    ensures forall i :: 0 <= i < n ==> Holds(levels, n, amount, first)[i] == Reservation(levels[i].key, amount, first + i, false)
  {
    if n > 0 { HoldsAt(levels, n - 1, amount, first); }
  }

  lemma HeldFresh(b: Books, c: Books, levels: seq<Level>, amount: nat, entries: seq<Reservation>)
    requires Holding(b, levels, amount, entries, c)
    ensures Fresher(b, c) && FreshlyOpen(b, c, entries)
  {
    HoldsAt(levels, |entries|, amount, b.nextId);
  }

  lemma EvidenceFresh(b: Books, c: Books, levels: seq<Level>, n: nat, amount: nat)
    requires OnlyEvidence(b, c, levels, n, amount) && b.nextId <= c.nextId
    ensures Fresher(b, c)
  {
    HoldsAt(levels, n, amount, b.nextId);
  }

  lemma RecoverFresh(b: Books, c: Books, levels: seq<Level>, amount: nat, fault: Fault)
    requires Sound(c) && Fresher(b, c)
    ensures var (d, outcome) := Recover(c, levels, amount, fault);
      Sound(d) && Fresher(b, d) && (outcome.Ok? ==> FreshlyOpen(b, d, outcome.value))
  {
    DrawingRun(b, c, levels, 0, amount, []);
  }

  lemma RefusedFresh(b: Books, levels: seq<Level>, amount: nat)
    requires Sound(b) && ReserveFrom(b, levels, 0, amount, [], []).Refused?
    ensures var attempt := ReserveFrom(b, levels, 0, amount, [], []);
      var c := Deny(CompensateFrom(attempt.books, attempt.entries, 0), levels[|attempt.entries|], amount);
      Sound(c) && Fresher(b, c) && forall key :: Row(c, key) == Row(b, key)
  {
    RefusalLeavesEvidence(b, levels, amount);
    NothingHeld(b, levels, amount);
    ReserveHolds(b, levels, amount, [], b, []);
    var attempt := ReserveFrom(b, levels, 0, amount, [], []);
    CompensateRecords(attempt.books, attempt.entries, 0);
    var c := Deny(CompensateFrom(attempt.books, attempt.entries, 0), levels[|attempt.entries|], amount);
    EvidenceFresh(b, c, levels, |attempt.entries|, amount);
  }

  lemma AttemptedFresh(b: Books, levels: seq<Level>, amount: nat)
    requires Sound(b)
    ensures var (c, outcome) := Attempted(b, levels, amount);
      Sound(c) && Fresher(b, c) && (outcome.Ok? ==> FreshlyOpen(b, c, outcome.value))
  {
    NothingHeld(b, levels, amount);
    ReserveHolds(b, levels, amount, [], b, []);
    match ReserveFrom(b, levels, 0, amount, [], [])
    case Broken =>
    case Secured(books, entries, _) => HeldFresh(b, books, levels, amount, entries);
    case Refused(_, _) => RefusedFresh(b, levels, amount);
  }

  /** However the reserve transaction goes, it only adds entries under new identifiers and keeps the books sound. */
  lemma ReserveFresh(b: Books, budgets: seq<Budget>, command: Command, fault: Fault)
    requires Sound(b)
    ensures var (c, outcome) := TryReserve(b, budgets, command, fault);
      Sound(c) && Fresher(b, c) && (outcome.Some? && outcome.value.Ok? ==> FreshlyOpen(b, c, outcome.value.value))
  {
    if ApplicableLevels(budgets, command).Ok? {
      AttemptedFresh(b, ApplicableLevels(budgets, command).value, command.amount);
    }
  }

  /** And so does the recovery. */
  lemma RecoveryFresh(b: Books, budgets: seq<Budget>, command: Command, fault: Fault)
    requires Sound(b)
    ensures var (c, outcome) := TryRecover(b, budgets, command, fault);
      Sound(c) && Fresher(b, c) && (outcome.Ok? ==> FreshlyOpen(b, c, outcome.value))
  {
    if ApplicableLevels(budgets, command).Ok? {
      RecoverFresh(b, b, ApplicableLevels(budgets, command).value, command.amount, fault);
    }
  }

  // ----- One action -----

  lemma KeptIds(b: Books, call: Call)
    requires Sound(b) && Kept(b, call)
    ensures forall i :: 0 <= i < |call.entries| ==> call.entries[i].id < b.nextId
  {
    forall i | 0 <= i < |call.entries| ensures call.entries[i].id < b.nextId {
      assert EntryKept(b, call.entries[i], call.fate);
      RecordedHasRow(b, call.entries[i]);
    }
  }

  lemma KeptThroughFresh(b: Books, c: Books, call: Call)
    requires Sound(b) && Kept(b, call) && Fresher(b, c)
    ensures Kept(c, call)
  {
    KeptIds(b, call);
    forall i | 0 <= i < |call.entries| ensures EntryKept(c, call.entries[i], call.fate) {
      KeptElsewhere(b, c, call.entries[i], call.fate);
    }
  }

  lemma KeptThroughGrowth(b: Books, c: Books, call: Call, kind: Kind, closed: Call)
    requires Kept(b, call) && Grown(b, c, kind, closed.entries) && !SharesId(call, closed)
    ensures Kept(c, call)
  {
    forall i | 0 <= i < |call.entries| ensures EntryKept(c, call.entries[i], call.fate) {
      KeptElsewhere(b, c, call.entries[i], call.fate);
    }
  }

  /** Books that only gained entries under new identifiers, and a call that got some of them. */
  lemma OpenedKeepsInv(g: Gateway, h: Gateway, call: nat, outcome: Result<seq<Reservation>, Error>)
    requires Inv(g) && call !in g.calls && h.calls == g.calls && Sound(h.books) && Fresher(g.books, h.books)
    requires outcome.Ok? ==> FreshlyOpen(g.books, h.books, outcome.value)
    ensures Inv(Opened(h, call, outcome))
  {
    var o := Opened(h, call, outcome);
    forall c | c in o.calls ensures Kept(o.books, o.calls[c]) {
      if c in g.calls {
        KeptThroughFresh(g.books, h.books, g.calls[c]);
      } else {
        forall i | 0 <= i < |o.calls[c].entries| ensures EntryKept(o.books, o.calls[c].entries[i], InFlight) {}
      }
    }
    forall c | c in g.calls ensures forall i :: 0 <= i < |g.calls[c].entries| ==> g.calls[c].entries[i].id < g.books.nextId {
      KeptIds(g.books, g.calls[c]);
    }
    forall c, d | c in o.calls && d in o.calls && c != d ensures !SharesId(o.calls[c], o.calls[d]) {}
  }

  lemma BeginKeepsInv(g: Gateway, call: nat, command: Command, fault: Fault)
    requires Inv(g)
    ensures Inv(Step(g, Begin(call, command, fault)))
  {
    if call !in g.calls && call !in g.pending {
      ReserveFresh(g.books, g.budgets, command, fault);
      var (books, outcome) := TryReserve(g.books, g.budgets, command, fault);
      OpenedKeepsInv(g, g.(books := books, pending := if outcome.None? then g.pending[call := command] else g.pending), call,
                     if outcome.Some? then outcome.value else Err(StateUnknown));
    }
  }

  lemma RecoveryKeepsInv(g: Gateway, call: nat, month: string, day: string, fault: Fault)
    requires Inv(g)
    ensures Inv(Step(g, RecoverCall(call, month, day, fault)))
  {
    if call in g.pending && call !in g.calls {
      var command := Later(g.pending[call], month, day);
      RecoveryFresh(g.books, g.budgets, command, fault);
      var (books, outcome) := TryRecover(g.books, g.budgets, command, fault);
      OpenedKeepsInv(g, g.(books := books, pending := g.pending - {call}), call, outcome);
    }
  }

  lemma CloseCallKeepsInv(g: Gateway, call: nat, kind: Kind, actual: Option<nat>)
    requires Inv(g) && call in g.calls
    requires (kind.SETTLE? && g.calls[call].fate.Succeeded?) || (kind.RELEASE? && g.calls[call].fate.FailedUpstream?)
    ensures Inv(g.(books := CloseAll(g.books, g.calls[call].entries, kind, actual).0))
  {
    var entries := g.calls[call].entries;
    assert Kept(g.books, g.calls[call]);
    forall j | 0 <= j < |entries|
      ensures Recorded(g.books, entries[j]) && !Has(g.books.ledger, entries[j].key, entries[j].id, Opposite(kind))
    {
      assert EntryKept(g.books, entries[j], g.calls[call].fate);
    }
    if CloseFrom(g.books, entries, 0, kind, actual).Some? {
      ClosingRun(g.books, entries, 0, kind, actual);
      var books := CloseFrom(g.books, entries, 0, kind, actual).value;
      forall c | c in g.calls ensures Kept(books, g.calls[c]) {
        if c != call {
          KeptThroughGrowth(g.books, books, g.calls[c], kind, g.calls[call]);
        } else {
          forall j | 0 <= j < |entries| ensures EntryKept(books, entries[j], g.calls[call].fate) {}
        }
      }
    }
  }

  lemma AdjustKeeps(b: Books, budget: Budget, delta: int, month: string, day: string)
    requires Sound(b)
    ensures var c := Adjust(b, budget, delta, month, day).0; Sound(c) && Fresher(b, c)
  {
    if !budget.scope.Execution? {
      var c := Adjust(b, budget, delta, month, day).0;
      NoClosersOf(b);
      var key := Key(budget.id, if budget.scope.TenantMonthly? then month else day);
      NoteKeeps(b, Entry(key, ADJUST, if delta > 0 then delta else 0, b.nextId, false), c);
    }
  }

  lemma StepKeepsInv(g: Gateway, a: Action)
    requires Inv(g)
    ensures Inv(Step(g, a))
  {
    match a
    case Upsert(_) =>
    case AdjustAllowance(index, delta, month, day) =>
      if index < |g.budgets| {
        AdjustKeeps(g.books, g.budgets[index], delta, month, day);
        var h := Step(g, a);
        forall c | c in h.calls ensures Kept(h.books, h.calls[c]) { KeptThroughFresh(g.books, h.books, g.calls[c]); }
      }
    case Begin(call, command, fault) => BeginKeepsInv(g, call, command, fault);
    case RecoverCall(call, month, day, fault) => RecoveryKeepsInv(g, call, month, day, fault);
    case Return(call, success) => ReturnKeepsInv(g, call, success);
    case SettleCall(call, actual) =>
      if call in g.calls && g.calls[call].fate.Succeeded? { CloseCallKeepsInv(g, call, SETTLE, actual); }
    case ReleaseCall(call) =>
      if call in g.calls && g.calls[call].fate.FailedUpstream? { CloseCallKeepsInv(g, call, RELEASE, None); }
  }

  lemma ReturnKeepsInv(g: Gateway, call: nat, success: bool)
    requires Inv(g)
    ensures Inv(Step(g, Return(call, success)))
  {
    if call in g.calls && g.calls[call].fate.InFlight? {
      var h := Step(g, Return(call, success));
      forall c | c in h.calls ensures Kept(h.books, h.calls[c]) {
        assert Kept(g.books, g.calls[c]);
        forall i | 0 <= i < |h.calls[c].entries| ensures EntryKept(h.books, h.calls[c].entries[i], h.calls[c].fate) {
          assert EntryKept(g.books, g.calls[c].entries[i], g.calls[c].fate);
        }
      }
      forall c, d | c in h.calls && d in h.calls && c != d ensures !SharesId(h.calls[c], h.calls[d]) {
        assert !SharesId(g.calls[c], g.calls[d]);
        assert h.calls[c].entries == g.calls[c].entries && h.calls[d].entries == g.calls[d].entries;
      }
    }
  }

  lemma {:induction false} RunKeepsInv(actions: seq<Action>)
    ensures Inv(Run(actions))
  {
    if actions != [] {
      RunKeepsInv(actions[..|actions| - 1]);
      StepKeepsInv(Run(actions[..|actions| - 1]), actions[|actions| - 1]);
    }
  }

  // ----- Distinct periods -----

  /** The entries of a bundle lie in different periods. */
  ghost predicate DistinctEntryKeys(entries: seq<Reservation>) {
    forall i, j :: 0 <= i < j < |entries| ==> entries[i].key != entries[j].key
  }

  lemma {:induction false} DrawnDistinct(b: Books, levels: seq<Level>, i: nat, amount: nat, entries: seq<Reservation>)
    requires i <= |levels| && DistinctKeys(levels) && DistinctEntryKeys(entries)
    requires forall k, j :: 0 <= k < |entries| && i <= j < |levels| ==> entries[k].key != levels[j].key
    ensures var drawn := DrawFrom(b, levels, i, amount, entries).1; drawn.Some? ==> DistinctEntryKeys(drawn.value)
    decreases |levels| - i
  {
    if i < |levels| {
      if !Contingent(levels[i]) {
        DrawnDistinct(b, levels, i + 1, amount, entries);
      } else if Drawable(b, levels[i], amount) {
        DrawnDistinct(Draw(b, levels[i], amount), levels, i + 1, amount,
                      entries + [Reservation(levels[i].key, Share(levels[i], amount), b.nextId, true)]);
      }
    }
  }

  lemma HoldsDistinct(levels: seq<Level>, amount: nat, first: nat)
    requires DistinctKeys(levels)
    ensures DistinctEntryKeys(Holds(levels, |levels|, amount, first))
  {
    HoldsAt(levels, |levels|, amount, first);
  }

  lemma AttemptedDistinct(b: Books, levels: seq<Level>, amount: nat)
    requires Sound(b) && DistinctKeys(levels)
    ensures var outcome := Attempted(b, levels, amount).1; outcome.Ok? ==> DistinctEntryKeys(outcome.value)
  {
    NothingHeld(b, levels, amount);
    ReserveHolds(b, levels, amount, [], b, []);
    HoldsDistinct(levels, amount, b.nextId);
  }

  lemma RecoverDistinct(b: Books, levels: seq<Level>, amount: nat, fault: Fault)
    requires DistinctKeys(levels)
    ensures var outcome := Recover(b, levels, amount, fault).1; outcome.Ok? ==> DistinctEntryKeys(outcome.value)
  {
    DrawnDistinct(b, levels, 0, amount, []);
  }

  lemma ReservedDistinct(b: Books, budgets: seq<Budget>, command: Command, fault: Fault)
    requires Sound(b) && DistinctBudgets(budgets)
    ensures var outcome := TryReserve(b, budgets, command, fault).1; outcome.Some? && outcome.value.Ok? ==> DistinctEntryKeys(outcome.value.value)
  {
    if ApplicableLevels(budgets, command).Ok? {
      LevelsComeFromBudgets(budgets, command);
      AttemptedDistinct(b, ApplicableLevels(budgets, command).value, command.amount);
    }
  }

  lemma RecoveredDistinct(b: Books, budgets: seq<Budget>, command: Command, fault: Fault)
    requires DistinctBudgets(budgets)
    ensures var outcome := TryRecover(b, budgets, command, fault).1; outcome.Ok? ==> DistinctEntryKeys(outcome.value)
  {
    if ApplicableLevels(budgets, command).Ok? {
      LevelsComeFromBudgets(budgets, command);
      RecoverDistinct(b, ApplicableLevels(budgets, command).value, command.amount, fault);
    }
  }

  ghost predicate Distinct(g: Gateway) {
    DistinctBudgets(g.budgets) && forall c :: c in g.calls ==> DistinctEntryKeys(g.calls[c].entries)
  }

  lemma UpsertKeepsDistinct(g: Gateway, budget: Budget)
    requires DistinctBudgets(g.budgets)
    ensures DistinctBudgets(UpsertBudget(g, budget))
  {}

  lemma StepKeepsDistinct(g: Gateway, a: Action)
    requires Inv(g) && Distinct(g)
    ensures Distinct(Step(g, a))
  {
    match a
    case Upsert(budget) => UpsertKeepsDistinct(g, budget);
    case AdjustAllowance(_, _, _, _) =>
    case Begin(call, command, fault) => ReservedDistinct(g.books, g.budgets, command, fault);
    case RecoverCall(call, month, day, fault) =>
      if call in g.pending { RecoveredDistinct(g.books, g.budgets, Later(g.pending[call], month, day), fault); }
    case Return(_, _) =>
    case SettleCall(_, _) =>
    case ReleaseCall(_) =>
  }

  lemma {:induction false} RunKeepsDistinct(actions: seq<Action>)
    ensures Distinct(Run(actions))
  {
    if actions != [] {
      var before := actions[..|actions| - 1];
      RunKeepsDistinct(before);
      RunKeepsInv(before);
      StepKeepsDistinct(Run(before), actions[|actions| - 1]);
    }
  }
}
