/** Reservations that no call owns: exactly which transactions leave them, and that nothing ever closes them. */
module BudgetOrphans {
  import opened Prelude
  import opened Budgets
  import opened BudgetLedger
  import opened BudgetReserve
  import opened BudgetRuns

  ghost predicate Owned(g: Gateway, x: Reservation) {
    exists c, i :: c in g.calls && 0 <= i < |g.calls[c].entries| && g.calls[c].entries[i].id == x.id
  }

  /** Open on the ledger, and in no call's bundle. */
  ghost predicate Orphan(g: Gateway, x: Reservation) {
    Recorded(g.books, x) && !Closed(g.books.ledger, x.key, x.id) && !Owned(g, x)
  }

  // ----- What a recovery draws -----

  /** The draws of the recovery from the i-th level on, up to a level that cannot pay. */
  function Drawn(b: Books, levels: seq<Level>, i: nat, amount: nat): seq<Reservation>
    requires i <= |levels|
    decreases |levels| - i
  {
    if i == |levels| then []
    else if !Contingent(levels[i]) then Drawn(b, levels, i + 1, amount)
    else if !Drawable(b, levels[i], amount) then []
    else [Reservation(levels[i].key, Share(levels[i], amount), b.nextId, true)] + Drawn(Draw(b, levels[i], amount), levels, i + 1, amount)
  }

  /** The recovery meets a contingent level that cannot pay. */
  predicate Stops(b: Books, levels: seq<Level>, i: nat, amount: nat)
    requires i <= |levels|
    decreases |levels| - i
  {
    i < |levels|
    && if !Contingent(levels[i]) then Stops(b, levels, i + 1, amount)
       else !Drawable(b, levels[i], amount) || Stops(Draw(b, levels[i], amount), levels, i + 1, amount)
  }

  lemma ReserveEntriesCons(x: Reservation, rest: seq<Reservation>)
    ensures ReserveEntries([x] + rest) == [ReserveEntry(x)] + ReserveEntries(rest)
  {
    var all := [x] + rest;
    forall i | 0 <= i < |all| ensures ReserveEntries(all)[i] == ([ReserveEntry(x)] + ReserveEntries(rest))[i] {
      if i > 0 { assert all[i] == rest[i - 1]; }
    }
  }

  /** The recovery adds its draws to the ledger, and hands them out unless it stops. */
  lemma {:induction false} DrawShape(b: Books, levels: seq<Level>, i: nat, amount: nat, entries: seq<Reservation>)
    requires Sound(b) && i <= |levels|
    ensures var (c, drawn) := DrawFrom(b, levels, i, amount, entries); var made := Drawn(b, levels, i, amount);
      && c.ledger == b.ledger + ReserveEntries(made)
      && drawn == if Stops(b, levels, i, amount) || entries + made == [] then None else Some(entries + made)
    decreases |levels| - i
  {
    if i == |levels| {
      assert entries + [] == entries && b.ledger + ReserveEntries([]) == b.ledger;
    } else if !Contingent(levels[i]) {
      DrawShape(b, levels, i + 1, amount, entries);
    } else if !Drawable(b, levels[i], amount) {
      assert b.ledger + ReserveEntries([]) == b.ledger;
    } else {
      DrawStep(b, levels, i, amount, entries);
    }
  }

  lemma {:induction false} DrawStep(b: Books, levels: seq<Level>, i: nat, amount: nat, entries: seq<Reservation>)
    requires Sound(b) && i < |levels| && Contingent(levels[i]) && Drawable(b, levels[i], amount)
    ensures var (c, drawn) := DrawFrom(b, levels, i, amount, entries); var made := Drawn(b, levels, i, amount);
      && c.ledger == b.ledger + ReserveEntries(made)
      && drawn == if Stops(b, levels, i, amount) || entries + made == [] then None else Some(entries + made)
    decreases |levels| - i, 0
  {
    var x := Reservation(levels[i].key, Share(levels[i], amount), b.nextId, true);
    var d := Draw(b, levels[i], amount);
    var rest := Drawn(d, levels, i + 1, amount);
    DrawKeeps(b, levels[i], amount);
    DrawShape(d, levels, i + 1, amount, entries + [x]);
    ReserveEntriesCons(x, rest);
    assert entries + [x] + rest == entries + ([x] + rest);
    assert b.ledger + [ReserveEntry(x)] + ReserveEntries(rest) == b.ledger + ([ReserveEntry(x)] + ReserveEntries(rest));
  }

  lemma {:induction false} DrawnOpen(b: Books, c: Books, levels: seq<Level>, i: nat, amount: nat, entries: seq<Reservation>)
    requires i <= |levels| && Sound(c) && Fresher(b, c) && FreshlyOpen(b, c, entries)
    ensures FreshlyOpen(b, DrawFrom(c, levels, i, amount, entries).0, entries + Drawn(c, levels, i, amount))
    decreases |levels| - i
  {
    if i == |levels| || (Contingent(levels[i]) && !Drawable(c, levels[i], amount)) {
      assert entries + [] == entries;
    } else if !Contingent(levels[i]) {
      DrawnOpen(b, c, levels, i + 1, amount, entries);
    } else {
      var x := Reservation(levels[i].key, Share(levels[i], amount), c.nextId, true);
      var d := Draw(c, levels[i], amount);
      DrawFresh(b, c, levels[i], amount, entries);
      DrawnOpen(b, d, levels, i + 1, amount, entries + [x]);
      assert entries + [x] + Drawn(d, levels, i + 1, amount) == entries + ([x] + Drawn(d, levels, i + 1, amount));
    }
  }

  // ----- What a transaction makes, and what it leaks -----

  /** The reservations that a transaction adds to the ledger and leaves open. */
  function Made(g: Gateway, a: Action): seq<Reservation> {
    match a
    case Begin(call, command, fault) =>
      if call in g.calls || call in g.pending || fault.RolledBack? || ApplicableLevels(g.budgets, command).Err? then []
      else
        var outcome := Attempted(g.books, ApplicableLevels(g.budgets, command).value, command.amount).1;
        if outcome.Ok? then outcome.value else []
    case RecoverCall(call, month, day, fault) =>
      if call !in g.pending || call in g.calls || fault.RolledBack? then []
      else
        var command := Later(g.pending[call], month, day);
        if ApplicableLevels(g.budgets, command).Err? then []
        else Drawn(g.books, ApplicableLevels(g.budgets, command).value, 0, command.amount)
    case _ => []
  }

  /** The transaction hands them to its call. */
  predicate Delivers(g: Gateway, a: Action) {
    match a
    case Begin(_, _, fault) => fault.Fine?
    case RecoverCall(call, month, day, fault) =>
      && fault.Fine? && call in g.pending && ApplicableLevels(g.budgets, Later(g.pending[call], month, day)).Ok?
      && !Stops(g.books, ApplicableLevels(g.budgets, Later(g.pending[call], month, day)).value, 0, g.pending[call].amount)
    case _ => false
  }

  function Leaked(g: Gateway, a: Action): seq<Reservation> {
    if Delivers(g, a) then [] else Made(g, a)
  }

  lemma NewIsInTail(b: Books, c: Books, tail: seq<Entry>, x: Reservation)
    requires c.ledger == b.ledger + tail && Recorded(c, x) && !Recorded(b, x)
    ensures ReserveEntry(x) in tail
  {}

  lemma InReserveEntries(entries: seq<Reservation>, x: Reservation)
    requires ReserveEntry(x) in ReserveEntries(entries)
    ensures x in entries
  {
    var k :| 0 <= k < |entries| && ReserveEntries(entries)[k] == ReserveEntry(x);
    assert entries[k] == x;
  }

  lemma EvidenceIsClosed(b: Books, c: Books, levels: seq<Level>, n: nat, amount: nat, x: Reservation)
    requires OnlyEvidence(b, c, levels, n, amount) && Recorded(c, x) && !Recorded(b, x)
    ensures Closed(c.ledger, x.key, x.id)
  {
    var held := Holds(levels, n, amount, b.nextId);
    var reject := Entry(levels[n].key, REJECT, amount, b.nextId + n, false);
    var tail := ReserveEntries(held) + ReleaseEntries(held) + [reject];
    assert c.ledger == b.ledger + tail;
    NewIsInTail(b, c, tail, x);
    assert ReserveEntry(x) in ReserveEntries(held) by {
      var k :| 0 <= k < |tail| && tail[k] == ReserveEntry(x);
      assert k < |held|;
    }
    InReserveEntries(held, x);
    var k :| 0 <= k < |held| && held[k] == x;
    assert ReleaseEntries(held)[k] == ReleaseEntry(x);
    assert tail[|held| + k] == ReleaseEntry(x) && ReleaseEntry(x) in c.ledger;
    assert Matches(ReleaseEntry(x), x.key, x.id, RELEASE);
  }

  /** What the reserve transaction adds and leaves open is exactly what it hands out. */
  lemma AttemptedMakes(b: Books, levels: seq<Level>, amount: nat, x: Reservation)
    requires Sound(b)
    ensures var (c, outcome) := Attempted(b, levels, amount);
      (Recorded(c, x) && !Recorded(b, x) && !Closed(c.ledger, x.key, x.id)) <==> outcome.Ok? && x in outcome.value
  {
    NothingHeld(b, levels, amount);
    ReserveHolds(b, levels, amount, [], b, []);
    var (c, outcome) := Attempted(b, levels, amount);
    if outcome.Ok? && x in outcome.value {
      AttemptedFresh(b, levels, amount);
      NewIsUnrecorded(b, c, outcome.value, x);
    }
    if Recorded(c, x) && !Recorded(b, x) && !Closed(c.ledger, x.key, x.id) {
      match ReserveFrom(b, levels, 0, amount, [], [])
      case Broken =>
      case Secured(_, entries, _) =>
        NewIsInTail(b, c, ReserveEntries(entries), x);
        InReserveEntries(entries, x);
      case Refused(_, entries) =>
        RefusalLeavesEvidence(b, levels, amount);
        EvidenceIsClosed(b, c, levels, |entries|, amount, x);
    }
  }

  lemma NewIsUnrecorded(b: Books, c: Books, entries: seq<Reservation>, x: Reservation)
    requires Sound(b) && FreshlyOpen(b, c, entries) && x in entries
    ensures Recorded(c, x) && !Recorded(b, x) && !Closed(c.ledger, x.key, x.id) && x.id >= b.nextId
  {
    if Recorded(b, x) { RecordedHasRow(b, x); }
  }

  lemma RecoveryMakes(b: Books, levels: seq<Level>, amount: nat, x: Reservation)
    requires Sound(b)
    ensures var c := DrawFrom(b, levels, 0, amount, []).0;
      (Recorded(c, x) && !Recorded(b, x) && !Closed(c.ledger, x.key, x.id)) <==> x in Drawn(b, levels, 0, amount)
  {
    var c, made := DrawFrom(b, levels, 0, amount, []).0, Drawn(b, levels, 0, amount);
    DrawShape(b, levels, 0, amount, []);
    DrawnOpen(b, b, levels, 0, amount, []);
    assert [] + made == made;
    if x in made { NewIsUnrecorded(b, c, made, x); }
    if Recorded(c, x) && !Recorded(b, x) {
      NewIsInTail(b, c, ReserveEntries(made), x);
      InReserveEntries(made, x);
    }
  }

  // ----- One step -----

  /** The ledger only grows. */
  ghost predicate Longer(b: Books, c: Books) {
    |b.ledger| <= |c.ledger| && c.ledger[..|b.ledger|] == b.ledger
  }

  lemma RecordedStays(b: Books, c: Books, x: Reservation)
    requires Longer(b, c) && Recorded(b, x)
    ensures Recorded(c, x)
  {
    var k :| 0 <= k < |b.ledger| && b.ledger[k] == ReserveEntry(x);
    assert c.ledger[..|b.ledger|][k] == c.ledger[k];
  }

  lemma ClosedStays(b: Books, c: Books, x: Reservation)
    requires Longer(b, c) && Closed(b.ledger, x.key, x.id)
    ensures Closed(c.ledger, x.key, x.id)
  {
    var kind := if Has(b.ledger, x.key, x.id, SETTLE) then SETTLE else RELEASE;
    var e :| e in b.ledger && Matches(e, x.key, x.id, kind);
    var k :| 0 <= k < |b.ledger| && b.ledger[k] == e;
    assert c.ledger[..|b.ledger|][k] == c.ledger[k];
    assert e in c.ledger;
  }

  /** Later entries of other identifiers do not close a reservation. */
  lemma OpenStays(b: Books, c: Books, x: Reservation)
    requires Longer(b, c) && !Closed(b.ledger, x.key, x.id) && Recorded(b, x)
    requires forall i :: |b.ledger| <= i < |c.ledger| ==> c.ledger[i].id != x.id
    ensures !Closed(c.ledger, x.key, x.id)
  {
    KeptElsewhere(b, c, x, InFlight);
  }

  lemma NoNewReserves(b: Books, c: Books, x: Reservation)
    requires Longer(b, c) && forall i :: |b.ledger| <= i < |c.ledger| ==> !c.ledger[i].kind.RESERVE?
    ensures Recorded(c, x) ==> Recorded(b, x)
  {
    if Recorded(c, x) {
      var k :| 0 <= k < |c.ledger| && c.ledger[k] == ReserveEntry(x);
      assert c.ledger[..|b.ledger|][k] == ReserveEntry(x);
    }
  }

  lemma CloseGrown(g: Gateway, call: nat, kind: Kind, actual: Option<nat>)
    requires Inv(g) && call in g.calls
    requires (kind.SETTLE? && g.calls[call].fate.Succeeded?) || (kind.RELEASE? && g.calls[call].fate.FailedUpstream?)
    ensures Grown(g.books, CloseAll(g.books, g.calls[call].entries, kind, actual).0, kind, g.calls[call].entries)
  {
    var entries := g.calls[call].entries;
    if CloseFrom(g.books, entries, 0, kind, actual).Some? {
      assert Kept(g.books, g.calls[call]);
      forall j | 0 <= j < |entries|
        ensures Recorded(g.books, entries[j]) && !Has(g.books.ledger, entries[j].key, entries[j].id, Opposite(kind))
      {
        assert EntryKept(g.books, entries[j], g.calls[call].fate);
      }
      ClosingRun(g.books, entries, 0, kind, actual);
    }
  }

  /** A settlement or release leaves unowned reservations as they are. */
  lemma CloseOrphans(g: Gateway, call: nat, kind: Kind, actual: Option<nat>, x: Reservation)
    requires Inv(g) && call in g.calls
    requires (kind.SETTLE? && g.calls[call].fate.Succeeded?) || (kind.RELEASE? && g.calls[call].fate.FailedUpstream?)
    ensures Orphan(g.(books := CloseAll(g.books, g.calls[call].entries, kind, actual).0), x) <==> Orphan(g, x)
  {
    var c := CloseAll(g.books, g.calls[call].entries, kind, actual).0;
    CloseGrown(g, call, kind, actual);
    forall i | |g.books.ledger| <= i < |c.ledger| ensures !c.ledger[i].kind.RESERVE? { assert GrownBy(c.ledger[i], kind, g.calls[call].entries); }
    NoNewReserves(g.books, c, x);
    if Recorded(g.books, x) {
      RecordedStays(g.books, c, x);
      if Closed(g.books.ledger, x.key, x.id) {
        ClosedStays(g.books, c, x);
      } else if !Owned(g, x) {
        forall i | |g.books.ledger| <= i < |c.ledger| ensures c.ledger[i].id != x.id { assert GrownBy(c.ledger[i], kind, g.calls[call].entries); }
        OpenStays(g.books, c, x);
      }
    }
  }

  /** Books that only gained entries under new identifiers keep what was recorded as open or closed as it was. */
  lemma FreshKeeps(b: Books, c: Books, x: Reservation)
    requires Sound(b) && Fresher(b, c) && Recorded(b, x)
    ensures Recorded(c, x) && (Closed(c.ledger, x.key, x.id) <==> Closed(b.ledger, x.key, x.id))
  {
    RecordedHasRow(b, x);
    RecordedStays(b, c, x);
    if Closed(b.ledger, x.key, x.id) { ClosedStays(b, c, x); } else { OpenStays(b, c, x); }
  }

  lemma OwnedIsOld(g: Gateway, x: Reservation)
    requires Inv(g) && Owned(g, x)
    ensures x.id < g.books.nextId
  {
    var c, i :| c in g.calls && 0 <= i < |g.calls[c].entries| && g.calls[c].entries[i].id == x.id;
    KeptIds(g.books, g.calls[c]);
  }

  /**
  The orphans after a transaction that made some reservations, and either hands them all to a
  new call or to nobody: those before it, and in the second case those it made.
  */
  lemma OpenedOrphans(g: Gateway, h: Gateway, call: nat, made: seq<Reservation>, delivered: bool, x: Reservation)
    requires Inv(g) && call !in g.calls && Fresher(g.books, h.books) && FreshlyOpen(g.books, h.books, made)
    requires h.calls == if delivered then g.calls[call := Call(made, InFlight)] else g.calls
    requires (Recorded(h.books, x) && !Recorded(g.books, x) && !Closed(h.books.ledger, x.key, x.id)) <==> x in made
    ensures Orphan(h, x) <==> Orphan(g, x) || (!delivered && x in made)
  {
    if Recorded(g.books, x) {
      RecordedHasRow(g.books, x);
      FreshKeeps(g.books, h.books, x);
      OwnedSame(g, h, call, made, delivered, x);
    } else if x in made {
      NewIsUnrecorded(g.books, h.books, made, x);
      if Owned(g, x) { OwnedIsOld(g, x); }
      if delivered {
        var i :| 0 <= i < |made| && made[i] == x;
        assert h.calls[call].entries[i].id == x.id;
      } else {
        assert Owned(h, x) <==> Owned(g, x);
      }
    }
  }

  lemma OwnedSame(g: Gateway, h: Gateway, call: nat, made: seq<Reservation>, delivered: bool, x: Reservation)
    requires call !in g.calls && FreshlyOpen(g.books, h.books, made) && x.id < g.books.nextId
    requires h.calls == if delivered then g.calls[call := Call(made, InFlight)] else g.calls
    ensures Owned(h, x) <==> Owned(g, x)
  {
    if Owned(g, x) {
      var c, i :| c in g.calls && 0 <= i < |g.calls[c].entries| && g.calls[c].entries[i].id == x.id;
      assert h.calls[c].entries[i].id == x.id;
    }
    if Owned(h, x) {
      var c, i :| c in h.calls && 0 <= i < |h.calls[c].entries| && h.calls[c].entries[i].id == x.id;
      assert c in g.calls && g.calls[c].entries[i].id == x.id;
    }
  }

  lemma BeginOrphans(g: Gateway, call: nat, command: Command, fault: Fault, x: Reservation)
    requires Inv(g)
    ensures Orphan(Step(g, Begin(call, command, fault)), x) <==> Orphan(g, x) || x in Leaked(g, Begin(call, command, fault))
  {
    var a := Begin(call, command, fault);
    if call in g.calls || call in g.pending {
    } else if ApplicableLevels(g.budgets, command).Err? || fault.RolledBack? {
      SameOrphans(g, Step(g, a), x);
    } else {
      var levels := ApplicableLevels(g.budgets, command).value;
      AttemptedFresh(g.books, levels, command.amount);
      AttemptedMakes(g.books, levels, command.amount, x);
      OpenedOrphans(g, Step(g, a), call, Made(g, a), fault.Fine? && Attempted(g.books, levels, command.amount).1.Ok?, x);
    }
  }

  lemma SameOrphans(g: Gateway, h: Gateway, x: Reservation)
    requires h.books == g.books && h.calls == g.calls
    ensures Orphan(h, x) <==> Orphan(g, x)
  {
    assert Owned(h, x) <==> Owned(g, x);
  }

  lemma RecoveryOrphans(g: Gateway, call: nat, month: string, day: string, fault: Fault, x: Reservation)
    requires Inv(g)
    ensures Orphan(Step(g, RecoverCall(call, month, day, fault)), x) <==>
      Orphan(g, x) || x in Leaked(g, RecoverCall(call, month, day, fault))
  {
    var a := RecoverCall(call, month, day, fault);
    if call !in g.pending || call in g.calls {
    } else if ApplicableLevels(g.budgets, Later(g.pending[call], month, day)).Err? || fault.RolledBack? {
      SameOrphans(g, Step(g, a), x);
    } else {
      var command := Later(g.pending[call], month, day);
      DrawnOrphans(g, call, command, ApplicableLevels(g.budgets, command).value, fault, Step(g, a), x);
    }
  }

  /** A recovery that is not rolled back. */
  lemma DrawnOrphans(g: Gateway, call: nat, command: Command, levels: seq<Level>, fault: Fault, h: Gateway, x: Reservation)
    requires Inv(g) && call !in g.calls && !fault.RolledBack? && h.books == Recover(g.books, levels, command.amount, fault).0
    requires var outcome := Recover(g.books, levels, command.amount, fault).1;
      h.calls == if outcome.Ok? then g.calls[call := Call(outcome.value, InFlight)] else g.calls
    ensures Orphan(h, x) <==>
      Orphan(g, x) || (!(fault.Fine? && !Stops(g.books, levels, 0, command.amount)) && x in Drawn(g.books, levels, 0, command.amount))
  {
    var made := Drawn(g.books, levels, 0, command.amount);
    DrawingRun(g.books, g.books, levels, 0, command.amount, []);
    DrawnOpen(g.books, g.books, levels, 0, command.amount, []);
    DrawShape(g.books, levels, 0, command.amount, []);
    assert [] + made == made;
    RecoveryMakes(g.books, levels, command.amount, x);
    OpenedOrphans(g, h, call, made, fault.Fine? && !Stops(g.books, levels, 0, command.amount) && made != [], x);
  }

  /** The orphans after a step are those before it and those it leaks. */
  lemma StepOrphans(g: Gateway, a: Action, x: Reservation)
    requires Inv(g)
    ensures Orphan(Step(g, a), x) <==> Orphan(g, x) || x in Leaked(g, a)
  {
    match a
    case Upsert(_) => SameOrphans(g, Step(g, a), x);
    case AdjustAllowance(index, delta, month, day) => if index < |g.budgets| { AdjustOrphans(g, index, delta, month, day, x); }
    case Begin(call, command, fault) => BeginOrphans(g, call, command, fault, x);
    case RecoverCall(call, month, day, fault) => RecoveryOrphans(g, call, month, day, fault, x);
    case Return(call, success) => ReturnOrphans(g, call, success, x);
    case SettleCall(call, actual) =>
      if call in g.calls && g.calls[call].fate.Succeeded? { CloseOrphans(g, call, SETTLE, actual, x); }
    case ReleaseCall(call) =>
      if call in g.calls && g.calls[call].fate.FailedUpstream? { CloseOrphans(g, call, RELEASE, None, x); }
  }

  lemma AdjustOrphans(g: Gateway, index: nat, delta: int, month: string, day: string, x: Reservation)
    requires Inv(g) && index < |g.budgets|
    ensures Orphan(Step(g, AdjustAllowance(index, delta, month, day)), x) <==> Orphan(g, x)
  {
    var h := Step(g, AdjustAllowance(index, delta, month, day));
    AdjustKeeps(g.books, g.budgets[index], delta, month, day);
    NoNewReserves(g.books, h.books, x);
    if Recorded(g.books, x) { FreshKeeps(g.books, h.books, x); }
    assert Owned(h, x) <==> Owned(g, x);
  }

  lemma ReturnOrphans(g: Gateway, call: nat, success: bool, x: Reservation)
    ensures Orphan(Step(g, Return(call, success)), x) <==> Orphan(g, x)
  {
    var h := Step(g, Return(call, success));
    if Owned(g, x) {
      var c, i :| c in g.calls && 0 <= i < |g.calls[c].entries| && g.calls[c].entries[i].id == x.id;
      assert h.calls[c].entries[i].id == x.id;
    }
    if Owned(h, x) {
      var c, i :| c in h.calls && 0 <= i < |h.calls[c].entries| && h.calls[c].entries[i].id == x.id;
      assert g.calls[c].entries[i].id == x.id;
    }
  }

  // ----- Exactly which steps leak -----

  /** The first contingent level can pay. */
  ghost predicate FirstPays(b: Books, levels: seq<Level>, from: nat, i: nat, amount: nat) {
    from <= i < |levels| && Contingent(levels[i]) && Drawable(b, levels[i], amount) && forall j :: from <= j < i ==> !Contingent(levels[j])
  }

  ghost predicate SomeFirstPays(b: Books, levels: seq<Level>, from: nat, amount: nat) {
    exists i: nat :: FirstPays(b, levels, from, i, amount)
  }

  lemma {:induction false} DrawsExactlyWhen(b: Books, levels: seq<Level>, from: nat, amount: nat)
    requires from <= |levels|
    ensures Drawn(b, levels, from, amount) != [] <==> SomeFirstPays(b, levels, from, amount)
    decreases |levels| - from
  {
    if from < |levels| {
      if !Contingent(levels[from]) {
        DrawsExactlyWhen(b, levels, from + 1, amount);
        var next := from + 1;
        if i: nat :| FirstPays(b, levels, from, i, amount) { assert FirstPays(b, levels, next, i, amount); }
        if i: nat :| FirstPays(b, levels, next, i, amount) { assert FirstPays(b, levels, from, i, amount); }
      } else if Drawable(b, levels[from], amount) {
        assert FirstPays(b, levels, from, from, amount);
      }
    }
  }

  /** A contingent level that cannot pay. */
  ghost predicate CannotPay(b: Books, levels: seq<Level>, from: nat, j: nat, amount: nat) {
    from <= j < |levels| && Contingent(levels[j]) && !Drawable(b, levels[j], amount)
  }

  ghost predicate SomeCannotPay(b: Books, levels: seq<Level>, from: nat, amount: nat) {
    exists j: nat :: CannotPay(b, levels, from, j, amount)
  }

  lemma CannotPayLater(b: Books, levels: seq<Level>, from: nat, amount: nat)
    requires from < |levels| && (!Contingent(levels[from]) || Drawable(b, levels[from], amount))
    ensures SomeCannotPay(b, levels, from, amount) <==> SomeCannotPay(b, levels, from + 1, amount)
  {
    var next := from + 1;
    if j: nat :| CannotPay(b, levels, from, j, amount) { assert CannotPay(b, levels, next, j, amount); }
    if j: nat :| CannotPay(b, levels, next, j, amount) { assert CannotPay(b, levels, from, j, amount); }
  }

  /** In different periods a draw does not change what the others can pay, so the books before the first draw tell. */
  lemma {:induction false} StopsExactlyWhen(b: Books, c: Books, levels: seq<Level>, from: nat, amount: nat)
    requires from <= |levels| && DistinctKeys(levels)
    requires forall j :: from <= j < |levels| ==> (Drawable(c, levels[j], amount) <==> Drawable(b, levels[j], amount))
    ensures Stops(c, levels, from, amount) <==> SomeCannotPay(b, levels, from, amount)
    decreases |levels| - from
  {
    if from < |levels| {
      if !Contingent(levels[from]) {
        StopsExactlyWhen(b, c, levels, from + 1, amount);
        CannotPayLater(b, levels, from, amount);
      } else if Drawable(c, levels[from], amount) {
        StopsExactlyWhen(b, Draw(c, levels[from], amount), levels, from + 1, amount);
        CannotPayLater(b, levels, from, amount);
      } else {
        assert CannotPay(b, levels, from, from, amount);
      }
    }
  }

  /** The reserve transaction finds room at every one of its levels, commits, and still raises. */
  ghost predicate BeginLeaks(g: Gateway, call: nat, command: Command, fault: Fault) {
    && call !in g.calls && call !in g.pending && fault.CommittedThenRaised?
    && var found := ApplicableLevels(g.budgets, command);
      && found.Ok? && found.value != [] && !Breaks(g.books, found.value, 0, command.amount)
      && forall j :: 0 <= j < |found.value| ==> Fits(g.books, found.value[j], command.amount)
  }

  /**
  The recovery transaction is not rolled back, its first contingent level pays, and either
  it raises after its commit or another contingent level cannot pay.
  */
  ghost predicate RecoveryLeaks(g: Gateway, call: nat, month: string, day: string, fault: Fault) {
    && call in g.pending && call !in g.calls && !fault.RolledBack?
    && var command := Later(g.pending[call], month, day); var found := ApplicableLevels(g.budgets, command);
      && found.Ok? && SomeFirstPays(g.books, found.value, 0, command.amount)
      && (fault.CommittedThenRaised? || SomeCannotPay(g.books, found.value, 0, command.amount))
  }

  ghost predicate Leaks(g: Gateway, a: Action) {
    match a
    case Begin(call, command, fault) => BeginLeaks(g, call, command, fault)
    case RecoverCall(call, month, day, fault) => RecoveryLeaks(g, call, month, day, fault)
    case _ => false
  }

  lemma AttemptedOkExactlyWhen(b: Books, levels: seq<Level>, amount: nat)
    requires Sound(b) && DistinctKeys(levels)
    ensures var outcome := Attempted(b, levels, amount).1;
      && (outcome.Ok? <==> !Breaks(b, levels, 0, amount) && forall j :: 0 <= j < |levels| ==> Fits(b, levels[j], amount))
      && (outcome.Ok? ==> |outcome.value| == |levels|)
  {
    BreaksExactlyWhen(b, levels, amount, [], b, []);
    StopsAtFirstExhausted(b, levels, amount, [], b, []);
    NothingHeld(b, levels, amount);
    ReserveHolds(b, levels, amount, [], b, []);
  }

  lemma BeginLeaksExactlyWhen(g: Gateway, call: nat, command: Command, fault: Fault)
    requires Inv(g) && Distinct(g)
    ensures Leaked(g, Begin(call, command, fault)) != [] <==> BeginLeaks(g, call, command, fault)
  {
    if ApplicableLevels(g.budgets, command).Ok? {
      LevelsComeFromBudgets(g.budgets, command);
      AttemptedOkExactlyWhen(g.books, ApplicableLevels(g.budgets, command).value, command.amount);
    }
  }

  lemma RecoveryLeaksExactlyWhen(g: Gateway, call: nat, month: string, day: string, fault: Fault)
    requires Distinct(g)
    ensures Leaked(g, RecoverCall(call, month, day, fault)) != [] <==> RecoveryLeaks(g, call, month, day, fault)
  {
    if call in g.pending && ApplicableLevels(g.budgets, Later(g.pending[call], month, day)).Ok? {
      var command := Later(g.pending[call], month, day);
      var levels := ApplicableLevels(g.budgets, command).value;
      LevelsComeFromBudgets(g.budgets, command);
      DrawsExactlyWhen(g.books, levels, 0, command.amount);
      StopsExactlyWhen(g.books, g.books, levels, 0, command.amount);
    }
  }

  lemma LeaksExactlyWhen(g: Gateway, a: Action)
    requires Inv(g) && Distinct(g)
    ensures Leaked(g, a) != [] <==> Leaks(g, a)
  {
    match a
    case Begin(call, command, fault) => BeginLeaksExactlyWhen(g, call, command, fault);
    case RecoverCall(call, month, day, fault) => RecoveryLeaksExactlyWhen(g, call, month, day, fault);
    case Upsert(_) =>
    case AdjustAllowance(_, _, _, _) =>
    case Return(_, _) =>
    case SettleCall(_, _) =>
    case ReleaseCall(_) =>
  }

  // ----- Whole runs -----

  /** The n-th action leaks the reservation. */
  ghost predicate LeakedAt(actions: seq<Action>, n: nat, x: Reservation) {
    n < |actions| && x in Leaked(Run(actions[..n]), actions[n])
  }

  ghost predicate SomeLeaked(actions: seq<Action>, x: Reservation) {
    exists n: nat :: LeakedAt(actions, n, x)
  }

  lemma LeakedAtLonger(actions: seq<Action>, n: nat, x: Reservation)
    requires actions != []
    ensures var k := |actions| - 1; var before, last := actions[..k], actions[k];
      LeakedAt(actions, n, x) <==> LeakedAt(before, n, x) || (n == k && x in Leaked(Run(before), last))
  {
    var before := actions[..|actions| - 1];
    if n < |before| { assert before[..n] == actions[..n] && before[n] == actions[n]; }
  }

  lemma LeakedLonger(actions: seq<Action>, x: Reservation)
    requires actions != []
    ensures var before, last := actions[..|actions| - 1], actions[|actions| - 1];
      SomeLeaked(actions, x) <==> SomeLeaked(before, x) || x in Leaked(Run(before), last)
  {
    if n: nat :| LeakedAt(actions, n, x) { LeakedAtLonger(actions, n, x); }
    var before := actions[..|actions| - 1];
    if n: nat :| LeakedAt(before, n, x) { LeakedAtLonger(actions, n, x); }
    LeakedAtLonger(actions, |actions| - 1, x);
  }

  /**
  In every run the open reservations that no call owns are exactly those that some
  transaction of the run leaked: once leaked, nothing settles or releases them, and nothing
  that a call got ever becomes one.
  */
  lemma {:induction false} OrphansAreTheLeaks(actions: seq<Action>, x: Reservation)
    ensures Orphan(Run(actions), x) <==> SomeLeaked(actions, x)
  {
    if actions != [] {
      var before := actions[..|actions| - 1];
      OrphansAreTheLeaks(before, x);
      RunKeepsInv(before);
      StepOrphans(Run(before), actions[|actions| - 1], x);
      LeakedLonger(actions, x);
    }
  }

  /** A transaction of a run leaks if and only if its guard, read off the state before it, says so. */
  lemma RunLeaksExactlyWhen(actions: seq<Action>, a: Action)
    ensures Leaked(Run(actions), a) != [] <==> Leaks(Run(actions), a)
  {
    RunKeepsInv(actions);
    RunKeepsDistinct(actions);
    LeaksExactlyWhen(Run(actions), a);
  }

  /** The guard held before the n-th action. */
  ghost predicate LeaksAt(actions: seq<Action>, n: nat) {
    n < |actions| && Leaks(Run(actions[..n]), actions[n])
  }

  /** Together: a run ends with an orphan if and only if the guard of one of its transactions held. */
  lemma OrphanedExactlyWhen(actions: seq<Action>)
    ensures (exists x :: Orphan(Run(actions), x)) <==> exists n: nat :: LeaksAt(actions, n)
  {
    if x :| Orphan(Run(actions), x) {
      OrphansAreTheLeaks(actions, x);
      var n: nat :| LeakedAt(actions, n, x);
      RunLeaksExactlyWhen(actions[..n], actions[n]);
      assert LeaksAt(actions, n);
    }
    if n: nat :| LeaksAt(actions, n) {
      RunLeaksExactlyWhen(actions[..n], actions[n]);
      var x := Leaked(Run(actions[..n]), actions[n])[0];
      assert LeakedAt(actions, n, x);
      OrphansAreTheLeaks(actions, x);
    }
  }

  /** So what is an orphan at some moment of a run is one at its end. */
  lemma {:induction false} OrphansStayOpen(actions: seq<Action>, n: nat, x: Reservation)
    requires n <= |actions| && Orphan(Run(actions[..n]), x)
    ensures Orphan(Run(actions), x)
    decreases |actions| - n
  {
    if n == |actions| {
      assert actions[..n] == actions;
    } else {
      assert actions[..n + 1][..n] == actions[..n];
      RunKeepsInv(actions[..n]);
      StepOrphans(Run(actions[..n]), actions[n], x);
      OrphansStayOpen(actions, n + 1, x);
    }
  }
}
