/** Every transaction of the budget service keeps the counters in agreement with the ledger. */
module BudgetLedger {
  import opened Prelude
  import opened Budgets

  predicate Closer(kind: Kind) {
    kind.SETTLE? || kind.RELEASE?
  }

  function Opposite(kind: Kind): Kind {
    if kind.SETTLE? then RELEASE else SETTLE
  }

  function ReserveEntry(x: Reservation): Entry {
    Entry(x.key, RESERVE, x.amount, x.id, x.contingency)
  }

  /** The reservation is on the ledger as it was handed out. */
  predicate Recorded(b: Books, x: Reservation) {
    ReserveEntry(x) in b.ledger
  }

  predicate SameMoney(r: Counters, s: Counters) {
    r.reserved == s.reserved && r.consumed == s.consumed && r.drawn == s.drawn
  }

  /** Adding to the counters of one period. */
  predicate Moved(r: Counters, s: Counters, reserved: int, consumed: int, drawn: int) {
    s.reserved == r.reserved + reserved && s.consumed == r.consumed + consumed && s.drawn == r.drawn + drawn
  }

  // ----- Appending one entry keeps the books sound -----

  lemma AppendedIdentified(b: Books, e: Entry, c: Books)
    requires Sound(b) && c.ledger == b.ledger + [e] && b.nextId <= c.nextId && e.id < c.nextId
    requires e.kind.RESERVE? ==> e.id == b.nextId && e.key in c.counters
    requires b.counters.Keys <= c.counters.Keys
    ensures Identified(c) && RowsExist(c)
  {}

  lemma OpenedAgrees(b: Books, e: Entry, r: Counters, s: Counters, key: Key)
    requires Sound(b) && !Closer(e.kind) && (e.kind.RESERVE? ==> e.id == b.nextId)
    requires RowAgrees(r, b.ledger, key)
    requires if e.kind.RESERVE? && key == e.key
      then Moved(r, s, if e.contingency then 0 else e.amount, 0, if e.contingency then e.amount else 0) else SameMoney(r, s)
    ensures RowAgrees(s, b.ledger + [e], key)
  {
    OpenSumsAfter(b.ledger, e, |b.ledger|, key);
    PlainSumsAfter(b.ledger, e, |b.ledger|, key);
    NoClosersOf(b);
    ClosedAfter(b.ledger, e, key, e.id);
  }

  lemma ClosedAgrees(b: Books, e: Entry, k: nat, r: Counters, s: Counters, key: Key)
    requires Sound(b) && Closer(e.kind) && k < |b.ledger| && Matches(b.ledger[k], e.key, e.id, RESERVE)
    requires !Closed(b.ledger, e.key, e.id) && RowAgrees(r, b.ledger, key)
    requires if key == e.key then Moved(r, s, 0 - b.ledger[k].amount, if e.kind.SETTLE? then e.amount else 0, 0) else SameMoney(r, s)
    ensures RowAgrees(s, b.ledger + [e], key)
  {
    PlainSumsAfter(b.ledger, e, |b.ledger|, key);
    if key == e.key { OpenSumsClose(b.ledger, e, |b.ledger|, k); } else { OpenSumsAfter(b.ledger, e, |b.ledger|, key); }
  }

  // ----- The steps of a reservation -----

  lemma HoldKeeps(b: Books, level: Level, amount: nat)
    requires Sound(b)
    ensures Sound(Hold(b, level, amount))
    ensures Hold(b, level, amount).ledger == b.ledger + [Entry(level.key, RESERVE, amount, b.nextId, false)]
  {
    var e := Entry(level.key, RESERVE, amount, b.nextId, false);
    var c := Hold(b, level, amount);
    NoClosersOf(b);
    AppendedIdentified(b, e, c);
    forall key ensures RowAgrees(Row(c, key), c.ledger, key) {
      assert RowAgrees(Row(b, key), b.ledger, key);
      OpenedAgrees(b, e, Row(b, key), Row(c, key), key);
    }
  }

  lemma DrawKeeps(b: Books, level: Level, amount: nat)
    requires Sound(b) && level.key in b.counters
    ensures Sound(Draw(b, level, amount))
    ensures Draw(b, level, amount).ledger == b.ledger + [Entry(level.key, RESERVE, Share(level, amount), b.nextId, true)]
  {
    var e := Entry(level.key, RESERVE, Share(level, amount), b.nextId, true);
    var c := Draw(b, level, amount);
    NoClosersOf(b);
    AppendedIdentified(b, e, c);
    forall key ensures RowAgrees(Row(c, key), c.ledger, key) {
      assert RowAgrees(Row(b, key), b.ledger, key);
      OpenedAgrees(b, e, Row(b, key), Row(c, key), key);
    }
  }

  /** Entries that move no money: a rejection or an adjustment. */
  lemma NoteKeeps(b: Books, e: Entry, c: Books)
    requires Sound(b) && (e.kind.REJECT? || e.kind.ADJUST?) && e.id < c.nextId && b.nextId <= c.nextId
    requires c.ledger == b.ledger + [e] && b.counters.Keys <= c.counters.Keys
    requires forall key :: SameMoney(Row(b, key), Row(c, key))
    ensures Sound(c)
  {
    AppendedIdentified(b, e, c);
    forall key ensures RowAgrees(Row(c, key), c.ledger, key) {
      assert RowAgrees(Row(b, key), b.ledger, key);
      assert SameMoney(Row(b, key), Row(c, key));
      OpenedAgrees(b, e, Row(b, key), Row(c, key), key);
    }
  }

  lemma EnsureRowKeeps(b: Books, key: Key)
    requires Sound(b)
    ensures Sound(EnsureRow(b, key))
  {
    forall k ensures RowAgrees(Row(EnsureRow(b, key), k), b.ledger, k) {
      assert RowAgrees(Row(b, k), b.ledger, k);
    }
  }

  /** Closing a recorded reservation that is still open. */
  lemma ClosingKeeps(b: Books, x: Reservation, e: Entry, c: Books)
    requires Sound(b) && Recorded(b, x) && !Closed(b.ledger, x.key, x.id)
    requires Closer(e.kind) && e.key == x.key && e.id == x.id
    requires c.ledger == b.ledger + [e] && c.nextId == b.nextId && c.counters.Keys == b.counters.Keys
    requires forall key :: key != x.key ==> Row(c, key) == Row(b, key)
    requires Moved(Row(b, x.key), Row(c, x.key), 0 - x.amount, if e.kind.SETTLE? then e.amount else 0, 0)
    ensures Sound(c)
  {
    var k :| 0 <= k < |b.ledger| && b.ledger[k] == ReserveEntry(x);
    AppendedIdentified(b, e, c);
    forall key ensures RowAgrees(Row(c, key), c.ledger, key) {
      assert RowAgrees(Row(b, key), b.ledger, key);
      ClosedAgrees(b, e, k, Row(b, key), Row(c, key), key);
    }
  }

  lemma RecordedHasRow(b: Books, x: Reservation)
    requires Sound(b) && Recorded(b, x)
    ensures x.key in b.counters && x.id < b.nextId
  {
    var k :| 0 <= k < |b.ledger| && b.ledger[k] == ReserveEntry(x);
  }

  lemma CompensateKeeps(b: Books, x: Reservation)
    requires Sound(b) && Recorded(b, x) && !Closed(b.ledger, x.key, x.id)
    ensures Sound(Compensate(b, x))
    ensures Compensate(b, x).ledger == b.ledger + [Entry(x.key, RELEASE, x.amount, x.id, x.contingency)]
  {
    RecordedHasRow(b, x);
    ClosingKeeps(b, x, Entry(x.key, RELEASE, x.amount, x.id, x.contingency), Compensate(b, x));
  }

  /** A settlement or release, first time or replayed, of a reservation that was not closed the other way. */
  lemma CloseKeeps(b: Books, x: Reservation, kind: Kind, actual: Option<nat>)
    requires Sound(b) && Recorded(b, x) && Closer(kind) && !Has(b.ledger, x.key, x.id, Opposite(kind))
    requires Close(b, x, kind, actual).Some?
    ensures Sound(Close(b, x, kind, actual).value)
  {
    if !Has(b.ledger, x.key, x.id, kind) {
      RecordedHasRow(b, x);
      var amount := if kind.SETTLE? then Charge(x, actual) else x.amount;
      ClosingKeeps(b, x, Entry(x.key, kind, amount, x.id, x.contingency), Close(b, x, kind, actual).value);
    }
  }

  /**
  A reservation that is closed a second way stays balanced exactly when its amount is zero:
  the ledger's unique key separates SETTLE from RELEASE.
  */
  lemma SecondClosingUnbalances(b: Books, x: Reservation, kind: Kind, actual: Option<nat>)
    requires Sound(b) && Recorded(b, x) && Closer(kind) && Close(b, x, kind, actual).Some?
    ensures Sound(Close(b, x, kind, actual).value) <==>
            !Has(b.ledger, x.key, x.id, Opposite(kind)) || Has(b.ledger, x.key, x.id, kind) || x.amount == 0
  {
    if !Has(b.ledger, x.key, x.id, Opposite(kind)) {
      CloseKeeps(b, x, kind, actual);
    } else if !Has(b.ledger, x.key, x.id, kind) {
      RecordedHasRow(b, x);
      var amount := if kind.SETTLE? then Charge(x, actual) else x.amount;
      var e := Entry(x.key, kind, amount, x.id, x.contingency);
      var c := Close(b, x, kind, actual).value;
      AppendedIdentified(b, e, c);
      forall key ensures RowAgrees(Row(c, key), c.ledger, key) <==> key != x.key || x.amount == 0 {
        assert RowAgrees(Row(b, key), b.ledger, key);
        OpenSumsAfter(b.ledger, e, |b.ledger|, key);
        PlainSumsAfter(b.ledger, e, |b.ledger|, key);
      }
      assert RowAgrees(Row(c, x.key), c.ledger, x.key) <==> x.amount == 0;
    }
  }
}
