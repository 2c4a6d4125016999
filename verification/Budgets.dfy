/**
Budget levels, period counters and the append-only cost ledger of one tenant, with the
transactions that reserve, settle, release and adjust.  Amounts are micros.
*/
module Budgets {
  import opened Prelude

  datatype Key = Key(budget: nat, period: string)

  datatype Scope = TenantMonthly | AgentDaily | Execution

  datatype Budget = Budget(id: nat, scope: Scope, application: Option<string>, limit: nat, contingency: nat, contingent: bool)

  /** `month` and `day` are the period keys of the clock's moment. */
  datatype Command = Command(application: Option<string>, execution: Option<string>, amount: nat, month: string, day: string)

  datatype Level = Level(key: Key, limit: nat, contingency: nat, contingent: bool)

  datatype Counters = Counters(reserved: int, consumed: int, allowance: int, drawn: int)

  datatype Kind = RESERVE | SETTLE | RELEASE | REJECT | ADJUST

  datatype Entry = Entry(key: Key, kind: Kind, amount: nat, id: nat, contingency: bool)

  datatype Reservation = Reservation(key: Key, amount: nat, id: nat, contingency: bool)

  datatype Alert = Warning70 | Critical90

  /** `nextId` supplies new identifiers. */
  datatype Books = Books(counters: map<Key, Counters>, ledger: seq<Entry>, alerts: set<(Key, Alert)>, nextId: nat)

  datatype Error = Exceeded | StateUnknown | Unevaluable | CheckViolated | BudgetNotFound | NotAdjustable

  const ZERO := Counters(0, 0, 0, 0)

  /** A counter row that does not exist yet reads as its default. */
  function Row(b: Books, key: Key): Counters {
    if key in b.counters then b.counters[key] else ZERO
  }

  // ----- Levels -----

  function PeriodKey(scope: Scope, c: Command): Option<string> {
    match scope
    case TenantMonthly => Some(c.month)
    case AgentDaily => Some(c.day)
    case Execution => c.execution
  }

  predicate Skipped(budget: Budget, c: Command) {
    || (budget.scope.AgentDaily? && budget.application != c.application)
    || (budget.scope.Execution? && budget.application.Some? && budget.application != c.application)
  }

  /** The levels of a request; an execution budget without an execution fails closed. */
  function ApplicableLevels(budgets: seq<Budget>, c: Command): Result<seq<Level>, Error> {
    if budgets == [] then Ok([])
    else
      var last := budgets[|budgets| - 1];
      var before := ApplicableLevels(budgets[..|budgets| - 1], c);
      if before.Err? then before
      else if last.scope.Execution? && c.execution.None? then Err(Unevaluable)
      else if Skipped(last, c) then before
      else Ok(before.value + [Level(Key(last.id, PeriodKey(last.scope, c).value), last.limit, last.contingency, last.contingent)])
  }

  datatype Decision = Refuse | Admit(alert: Option<Alert>)

  function Evaluate(used: int, limit: int): Decision {
    if used > limit then Refuse
    else if limit <= 0 then Admit(None)
    else if 10 * used >= 9 * limit then Admit(Some(Critical90))
    else if 10 * used >= 7 * limit then Admit(Some(Warning70))
    else Admit(None)
  }

  // ----- The ledger -----

  predicate Matches(e: Entry, key: Key, id: nat, kind: Kind) {
    e.key == key && e.id == id && e.kind == kind
  }

  predicate Has(ledger: seq<Entry>, key: Key, id: nat, kind: Kind) {
    exists e :: e in ledger && Matches(e, key, id, kind)
  }

  /** The insert that its unique index may turn into a no-op. */
  function Append(ledger: seq<Entry>, e: Entry): seq<Entry> {
    if Has(ledger, e.key, e.id, e.kind) then ledger else ledger + [e]
  }

  predicate Closed(ledger: seq<Entry>, key: Key, id: nat) {
    Has(ledger, key, id, SETTLE) || Has(ledger, key, id, RELEASE)
  }

  // ----- Reserving -----

  function EnsureRow(b: Books, key: Key): Books {
    if key in b.counters then b else b.(counters := b.counters[key := ZERO])
  }

  predicate Fits(b: Books, level: Level, amount: nat) {
    Row(b, level.key).reserved + Row(b, level.key).consumed + amount <= level.limit + Row(b, level.key).allowance
  }

  function AlertOf(b: Books, level: Level, amount: nat): Option<Alert> {
    var row := Row(b, level.key);
    match Evaluate(row.reserved + row.consumed + amount, level.limit + row.allowance)
    case Refuse => None
    case Admit(alert) => alert
  }

  /** The level has room, and its alert row would carry the refused limit of zero. */
  predicate Unalertable(b: Books, level: Level, amount: nat) {
    level.limit == 0 && AlertOf(b, level, amount).Some?
  }

  /** An alert is reported the first time its row is inserted. */
  function Report(b: Books, level: Level, amount: nat, raised: seq<(Key, Alert)>): seq<(Key, Alert)> {
    var alert := AlertOf(b, level, amount);
    if alert.Some? && (level.key, alert.value) !in b.alerts then raised + [(level.key, alert.value)] else raised
  }

  function Hold(b: Books, level: Level, amount: nat): Books {
    var row := Row(b, level.key);
    var alert := AlertOf(b, level, amount);
    Books(b.counters[level.key := row.(reserved := row.reserved + amount)],
          Append(b.ledger, Entry(level.key, RESERVE, amount, b.nextId, false)),
          if alert.Some? then b.alerts + {(level.key, alert.value)} else b.alerts,
          b.nextId + 1)
  }

  datatype Attempt =
    | Secured(books: Books, entries: seq<Reservation>, raised: seq<(Key, Alert)>)
    | Refused(books: Books, entries: seq<Reservation>)
    | Broken

  /** Reserves the levels from the i-th on, stopping at the first that is exhausted. */
  function ReserveFrom(b: Books, levels: seq<Level>, i: nat, amount: nat, entries: seq<Reservation>, raised: seq<(Key, Alert)>): (attempt: Attempt)
    requires i == |entries| <= |levels|
    ensures attempt.Refused? ==> |attempt.entries| < |levels|
    decreases |levels| - i
  {
    if i == |levels| then Secured(b, entries, raised)
    else
      var level := levels[i];
      if !Fits(b, level, amount) then Refused(EnsureRow(b, level.key), entries)
      else if Unalertable(b, level, amount) then Broken
      else
        ReserveFrom(Hold(b, level, amount), levels, i + 1, amount, entries + [Reservation(level.key, amount, b.nextId, false)],
                    Report(b, level, amount, raised))
  }

  function Lower(b: Books, x: Reservation): map<Key, Counters> {
    if x.key in b.counters then b.counters[x.key := b.counters[x.key].(reserved := b.counters[x.key].reserved - x.amount)]
    else b.counters
  }

  function Compensate(b: Books, x: Reservation): Books {
    b.(counters := Lower(b, x), ledger := Append(b.ledger, Entry(x.key, RELEASE, x.amount, x.id, x.contingency)))
  }

  function CompensateFrom(b: Books, entries: seq<Reservation>, i: nat): Books
    requires i <= |entries|
    decreases |entries| - i
  {
    if i == |entries| then b else CompensateFrom(Compensate(b, entries[i]), entries, i + 1)
  }

  function Deny(b: Books, level: Level, amount: nat): Books {
    b.(ledger := Append(b.ledger, Entry(level.key, REJECT, amount, b.nextId, false)), nextId := b.nextId + 1)
  }

  // ----- The recovery path -----

  predicate Contingent(level: Level) {
    level.contingent && level.contingency > 0
  }

  function Share(level: Level, amount: nat): nat {
    if amount <= level.contingency then amount else level.contingency
  }

  predicate Drawable(b: Books, level: Level, amount: nat) {
    level.key in b.counters && b.counters[level.key].drawn + Share(level, amount) <= level.contingency
  }

  function Draw(b: Books, level: Level, amount: nat): Books
    requires level.key in b.counters
  {
    var row := b.counters[level.key];
    b.(counters := b.counters[level.key := row.(drawn := row.drawn + Share(level, amount))],
       ledger := Append(b.ledger, Entry(level.key, RESERVE, Share(level, amount), b.nextId, true)),
       nextId := b.nextId + 1)
  }

  /** Draws from every contingent level; a level that cannot pay ends it, keeping the earlier draws. */
  function DrawFrom(b: Books, levels: seq<Level>, i: nat, amount: nat, entries: seq<Reservation>): (Books, Option<seq<Reservation>>)
    requires i <= |levels|
    decreases |levels| - i
  {
    if i == |levels| then (b, if entries == [] then None else Some(entries))
    else if !Contingent(levels[i]) then DrawFrom(b, levels, i + 1, amount, entries)
    else if !Drawable(b, levels[i], amount) then (b, None)
    else
      DrawFrom(Draw(b, levels[i], amount), levels, i + 1, amount,
               entries + [Reservation(levels[i].key, Share(levels[i], amount), b.nextId, true)])
  }

  /** How a transaction ends: a database error may come before its commit took effect, or after. */
  datatype Fault = Fine | RolledBack | CommittedThenRaised

  /** What happens to the two transactions of a reservation. */
  datatype Outage = Outage(reserve: Fault, recover: Fault)

  const UP := Outage(Fine, Fine)

  function Recover(b: Books, levels: seq<Level>, amount: nat, fault: Fault): (Books, Result<seq<Reservation>, Error>) {
    var (books, drawn) := DrawFrom(b, levels, 0, amount, []);
    match fault
    case Fine => (books, if drawn.Some? then Ok(drawn.value) else Err(StateUnknown))
    case RolledBack => (b, Err(StateUnknown))
    case CommittedThenRaised => (books, Err(StateUnknown))
  }

  /** The reserve transaction on its own; a violated check rolls it back. */
  function Attempted(b: Books, levels: seq<Level>, amount: nat): (Books, Result<seq<Reservation>, Error>) {
    match ReserveFrom(b, levels, 0, amount, [], [])
    case Broken => (b, Err(CheckViolated))
    case Secured(books, entries, _) => (books, Ok(entries))
    case Refused(books, entries) =>
      (Deny(CompensateFrom(books, entries, 0), levels[|entries|], amount), Err(Exceeded))
  }

  /** The reserve transaction; any database error, even one raised after the commit, gives None and leads to the recovery. */
  function TryReserve(b: Books, budgets: seq<Budget>, c: Command, fault: Fault): (Books, Option<Result<seq<Reservation>, Error>>) {
    match ApplicableLevels(budgets, c)
    case Err(e) => (b, Some(Err(e)))
    case Ok(levels) =>
      var (books, outcome) := Attempted(b, levels, c.amount);
      if ReserveFrom(b, levels, 0, c.amount, [], []).Broken? || fault.RolledBack? then (b, None)
      else (books, if fault.Fine? then Some(outcome) else None)
  }

  /** The recovery transaction, which looks the levels up again. */
  function TryRecover(b: Books, budgets: seq<Budget>, c: Command, fault: Fault): (Books, Result<seq<Reservation>, Error>) {
    match ApplicableLevels(budgets, c)
    case Err(e) => (b, Err(e))
    case Ok(levels) => Recover(b, levels, c.amount, fault)
  }

  /** Both transactions with nothing between them. */
  function Reserve(b: Books, budgets: seq<Budget>, c: Command, outage: Outage): (Books, Result<seq<Reservation>, Error>) {
    var (books, outcome) := TryReserve(b, budgets, c, outage.reserve);
    if outcome.Some? then (books, outcome.value) else TryRecover(books, budgets, c, outage.recover)
  }

  // ----- Settling and releasing -----

  function Charge(x: Reservation, actual: Option<nat>): nat {
    if actual.Some? then actual.value else x.amount
  }

  /** One entry of a settlement or a release; None when a counter would go below zero. */
  function Close(b: Books, x: Reservation, kind: Kind, actual: Option<nat>): Option<Books> {
    var amount := if kind.SETTLE? then Charge(x, actual) else x.amount;
    if Has(b.ledger, x.key, x.id, kind) then Some(b)
    else if x.key in b.counters && b.counters[x.key].reserved < x.amount then None
    else
      var lowered := Lower(b, x);
      Some(b.(ledger := Append(b.ledger, Entry(x.key, kind, amount, x.id, x.contingency)),
              counters := if kind.SETTLE? && x.key in lowered
                then lowered[x.key := lowered[x.key].(consumed := lowered[x.key].consumed + amount)] else lowered))
  }

  function CloseFrom(b: Books, entries: seq<Reservation>, i: nat, kind: Kind, actual: Option<nat>): Option<Books>
    requires i <= |entries|
    decreases |entries| - i
  {
    if i == |entries| then Some(b)
    else
      match Close(b, entries[i], kind, actual)
      case None => None
      case Some(books) => CloseFrom(books, entries, i + 1, kind, actual)
  }

  /** The whole transaction: a violated check constraint undoes every entry. */
  function CloseAll(b: Books, entries: seq<Reservation>, kind: Kind, actual: Option<nat>): (Books, Result<(), Error>) {
    match CloseFrom(b, entries, 0, kind, actual)
    case None => (b, Err(CheckViolated))
    case Some(books) => (books, Ok(()))
  }

  function Adjust(b: Books, budget: Budget, delta: int, month: string, day: string): (Books, Result<(), Error>) {
    if budget.scope.Execution? then (b, Err(NotAdjustable))
    else
      var key := Key(budget.id, if budget.scope.TenantMonthly? then month else day);
      var row := Row(b, key);
      (Books(b.counters[key := row.(allowance := row.allowance + delta)],
             Append(b.ledger, Entry(key, ADJUST, if delta > 0 then delta else 0, b.nextId, false)), b.alerts, b.nextId + 1),
       Ok(()))
  }

  // ----- What the ledger says the counters are -----

  /** Reserved and neither settled nor released, contingency draws aside. */
  ghost function OpenSum(ledger: seq<Entry>, n: nat, key: Key): int
    requires n <= |ledger|
  {
    if n == 0 then 0
    else
      var e := ledger[n - 1];
      OpenSum(ledger, n - 1, key)
      + if e.key == key && e.kind.RESERVE? && !e.contingency && !Closed(ledger, key, e.id) then e.amount else 0
  }

  /** Contingency draws that were settled or released. */
  ghost function ReturnedDraws(ledger: seq<Entry>, n: nat, key: Key): int
    requires n <= |ledger|
  {
    if n == 0 then 0
    else
      var e := ledger[n - 1];
      ReturnedDraws(ledger, n - 1, key)
      + if e.key == key && e.kind.RESERVE? && e.contingency && Closed(ledger, key, e.id) then e.amount else 0
  }

  ghost function SettledSum(ledger: seq<Entry>, n: nat, key: Key): int
    requires n <= |ledger|
  {
    if n == 0 then 0
    else SettledSum(ledger, n - 1, key) + if ledger[n - 1].key == key && ledger[n - 1].kind.SETTLE? then ledger[n - 1].amount else 0
  }

  ghost function DrawnSum(ledger: seq<Entry>, n: nat, key: Key): int
    requires n <= |ledger|
  {
    if n == 0 then 0
    else
      var e := ledger[n - 1];
      DrawnSum(ledger, n - 1, key) + if e.key == key && e.kind.RESERVE? && e.contingency then e.amount else 0
  }

  /** The counters of one period agree with the ledger, up to contingency draws that came back. */
  ghost predicate RowAgrees(row: Counters, ledger: seq<Entry>, key: Key) {
    && row.reserved == OpenSum(ledger, |ledger|, key) - ReturnedDraws(ledger, |ledger|, key)
    && row.consumed == SettledSum(ledger, |ledger|, key)
    && row.drawn == DrawnSum(ledger, |ledger|, key)
  }

  ghost predicate Agrees(b: Books) {
    forall key :: RowAgrees(Row(b, key), b.ledger, key)
  }

  /** At most one reservation per identifier, and no identifier from the future. */
  ghost predicate Identified(b: Books) {
    && (forall i :: 0 <= i < |b.ledger| ==> b.ledger[i].id < b.nextId)
    && (forall i, j :: 0 <= i < j < |b.ledger| && b.ledger[i].kind.RESERVE? && b.ledger[j].kind.RESERVE? ==> b.ledger[i].id != b.ledger[j].id)
  }

  ghost predicate RowsExist(b: Books) {
    forall i :: 0 <= i < |b.ledger| && b.ledger[i].kind.RESERVE? ==> b.ledger[i].key in b.counters
  }

  ghost predicate Sound(b: Books) {
    Agrees(b) && Identified(b) && RowsExist(b)
  }

  // ----- Appending one entry -----

  lemma HasAfter(ledger: seq<Entry>, e: Entry, key: Key, id: nat, kind: Kind)
    ensures Has(ledger + [e], key, id, kind) <==> Has(ledger, key, id, kind) || Matches(e, key, id, kind)
  {
    if Has(ledger, key, id, kind) {
      var f :| f in ledger && Matches(f, key, id, kind);
      assert f in ledger + [e];
    }
    if Matches(e, key, id, kind) { assert e in ledger + [e]; }
  }

  lemma ClosedAfter(ledger: seq<Entry>, e: Entry, key: Key, id: nat)
    ensures Closed(ledger + [e], key, id) <==> Closed(ledger, key, id) || Matches(e, key, id, SETTLE) || Matches(e, key, id, RELEASE)
  {
    HasAfter(ledger, e, key, id, SETTLE);
    HasAfter(ledger, e, key, id, RELEASE);
  }

  /** SETTLE sums and draw sums grow by the appended entry alone. */
  lemma {:induction false} PlainSumsAfter(ledger: seq<Entry>, e: Entry, n: nat, key: Key)
    requires n <= |ledger|
    ensures SettledSum(ledger + [e], n, key) == SettledSum(ledger, n, key)
    ensures DrawnSum(ledger + [e], n, key) == DrawnSum(ledger, n, key)
  {
    if n > 0 { PlainSumsAfter(ledger, e, n - 1, key); }
  }

  /** An entry that closes nothing of this period leaves the open reservations alone. */
  lemma {:induction false} OpenSumsAfter(ledger: seq<Entry>, e: Entry, n: nat, key: Key)
    requires n <= |ledger|
    requires e.key != key || !(e.kind.SETTLE? || e.kind.RELEASE?) || Closed(ledger, key, e.id)
    ensures OpenSum(ledger + [e], n, key) == OpenSum(ledger, n, key)
    ensures ReturnedDraws(ledger + [e], n, key) == ReturnedDraws(ledger, n, key)
  {
    if n > 0 {
      OpenSumsAfter(ledger, e, n - 1, key);
      ClosedAfter(ledger, e, key, ledger[n - 1].id);
    }
  }

  /** Closing an open reservation takes its amount off the open sum, or adds a draw to the returned ones. */
  lemma {:induction false} OpenSumsClose(ledger: seq<Entry>, e: Entry, n: nat, k: nat)
    requires n <= |ledger| && k < |ledger|
    requires e.kind.SETTLE? || e.kind.RELEASE?
    requires Matches(ledger[k], e.key, e.id, RESERVE) && !Closed(ledger, e.key, e.id)
    requires forall i :: 0 <= i < |ledger| && ledger[i].kind.RESERVE? && i != k ==> ledger[i].id != e.id
    ensures OpenSum(ledger + [e], n, e.key)
         == OpenSum(ledger, n, e.key) - if k < n && !ledger[k].contingency then ledger[k].amount else 0
    ensures ReturnedDraws(ledger + [e], n, e.key)
         == ReturnedDraws(ledger, n, e.key) + if k < n && ledger[k].contingency then ledger[k].amount else 0
  {
    if n > 0 {
      OpenSumsClose(ledger, e, n - 1, k);
      ClosedAfter(ledger, e, e.key, ledger[n - 1].id);
    }
  }

  lemma NoClosersOf(b: Books)
    requires Identified(b)
    ensures forall key, kind :: !Has(b.ledger, key, b.nextId, kind)
  {}
}
