/**
The per-tenant audit hash chain.  The hash and the canonical serialisation are parameters:
nothing is assumed of them beyond a fixed digest length, and theorems that need more name
the two inputs that would collide.
*/
module AuditChain {
  import opened Prelude

  datatype Event = Event(id: string, occurredAt: int, actor: string, authMethod: string, action: string, decision: string,
                         targetType: Option<string>, targetId: Option<string>, details: string)

  type Hash = string -> string

  type Canon = Event -> string

  datatype Row = Row(index: nat, event: Event, eventHash: string, prevHash: string)

  const DIGEST: nat := 64

  function Genesis(): string {
    seq(DIGEST, i => '0')
  }

  ghost predicate FixedLength(h: Hash) {
    forall s :: |h(s)| == DIGEST
  }

  function EventHash(h: Hash, canon: Canon, e: Event): string {
    h(canon(e))
  }

  function Joined(previous: string, current: string): string {
    previous + ":" + current
  }

  function ChainHash(h: Hash, previous: string, current: string): string {
    h(Joined(previous, current))
  }

  /** The head recomputed from the first n events. */
  function HeadAt(h: Hash, canon: Canon, rows: seq<Row>, n: nat): string
    requires n <= |rows|
  {
    if n == 0 then Genesis() else ChainHash(h, HeadAt(h, canon, rows, n - 1), EventHash(h, canon, rows[n - 1].event))
  }

  /** The row's stored hashes are those of its own event and of the chain before it. */
  predicate RowFits(h: Hash, canon: Canon, rows: seq<Row>, i: nat)
    requires i < |rows|
  {
    rows[i].eventHash == EventHash(h, canon, rows[i].event) && rows[i].prevHash == HeadAt(h, canon, rows, i)
  }

  predicate Linked(h: Hash, canon: Canon, rows: seq<Row>) {
    forall i: nat :: i < |rows| ==> RowFits(h, canon, rows, i)
  }

  function Head(h: Hash, canon: Canon, rows: seq<Row>): string {
    HeadAt(h, canon, rows, |rows|)
  }

  datatype Verdict = Valid(events: nat, head: string) | Broken(index: nat, expected: string, stored: string)

  /** The verdict names the first row that does not fit. */
  predicate FirstBroken(h: Hash, canon: Canon, rows: seq<Row>, i: nat, v: Verdict) {
    && i < |rows| && !RowFits(h, canon, rows, i) && (forall j: nat :: j < i ==> RowFits(h, canon, rows, j))
    && v == Broken(rows[i].index, HeadAt(h, canon, rows, i), rows[i].prevHash)
  }

  /** Recomputes the chain from the stored rows, which come ordered by chain index. */
  method VerifyChain(h: Hash, canon: Canon, rows: seq<Row>) returns (v: Verdict)
    ensures v.Valid? <==> Linked(h, canon, rows)
    ensures v.Valid? ==> v == Valid(|rows|, Head(h, canon, rows))
    ensures v.Broken? ==> exists i: nat :: FirstBroken(h, canon, rows, i, v)
  {
    var previous, count: nat := Genesis(), 0;
    while count < |rows|
      invariant count <= |rows| && previous == HeadAt(h, canon, rows, count)
      invariant forall j: nat :: j < count ==> RowFits(h, canon, rows, j)
    {
      var row := rows[count];
      var recomputed := EventHash(h, canon, row.event);
      if recomputed != row.eventHash || previous != row.prevHash {
        v := Broken(row.index, previous, row.prevHash);
        assert FirstBroken(h, canon, rows, count, v);
        return;
      }
      previous := ChainHash(h, previous, recomputed);
      count := count + 1;
    }
    return Valid(count, previous);
  }

  // ----- Heads of prefixes -----

  lemma {:induction false} HeadOfPrefix(h: Hash, canon: Canon, rows: seq<Row>, more: seq<Row>, n: nat)
    requires n <= |rows|
    ensures HeadAt(h, canon, rows + more, n) == HeadAt(h, canon, rows, n)
  {
    if n > 0 { HeadOfPrefix(h, canon, rows, more, n - 1); }
  }

  /** Every prefix of a verifying chain verifies: cut-off evidence is only visible against a known head. */
  lemma PrefixStillLinked(h: Hash, canon: Canon, rows: seq<Row>, n: nat)
    requires Linked(h, canon, rows) && n <= |rows|
    ensures Linked(h, canon, rows[..n]) && Head(h, canon, rows[..n]) == HeadAt(h, canon, rows, n)
  {
    assert rows[..n] + rows[n..] == rows;
    HeadOfPrefix(h, canon, rows[..n], rows[n..], n);
    forall i: nat | i < n ensures RowFits(h, canon, rows[..n], i) {
      assert RowFits(h, canon, rows, i);
      HeadOfPrefix(h, canon, rows[..n], rows[n..], i);
    }
  }

  lemma ExtendedLinked(h: Hash, canon: Canon, rows: seq<Row>, row: Row)
    requires Linked(h, canon, rows)
    requires row.eventHash == EventHash(h, canon, row.event) && row.prevHash == Head(h, canon, rows)
    ensures Linked(h, canon, rows + [row])
    ensures Head(h, canon, rows + [row]) == ChainHash(h, row.prevHash, row.eventHash)
  {
    forall i: nat | i < |rows| + 1 ensures RowFits(h, canon, rows + [row], i) {
      HeadOfPrefix(h, canon, rows, [row], i);
      if i < |rows| { assert RowFits(h, canon, rows, i); }
    }
    HeadOfPrefix(h, canon, rows, [row], |rows|);
  }

  // ----- Tamper evidence -----

  /** What a forger must have found: two inputs with one digest, or an input whose digest is the genesis. */
  datatype Break = NoBreak | Collision(x: string, y: string) | GenesisPreimage(x: string)

  predicate Breaks(h: Hash, b: Break) {
    match b
    case NoBreak => false
    case Collision(x, y) => x != y && h(x) == h(y)
    case GenesisPreimage(x) => h(x) == Genesis()
  }

  /** The string whose hash is the head after n > 0 events. */
  function HeadInput(h: Hash, canon: Canon, rows: seq<Row>, n: nat): string
    requires 0 < n <= |rows|
  {
    Joined(HeadAt(h, canon, rows, n - 1), EventHash(h, canon, rows[n - 1].event))
  }

  /** Walks two chains back from their heads to the first difference. */
  function FindBreak(h: Hash, canon: Canon, r: seq<Row>, m: nat, s: seq<Row>, n: nat): Break
    requires m <= |r| && n <= |s|
  {
    if m == 0 && n == 0 then NoBreak
    else if m == 0 then GenesisPreimage(HeadInput(h, canon, s, n))
    else if n == 0 then GenesisPreimage(HeadInput(h, canon, r, m))
    else if HeadInput(h, canon, r, m) != HeadInput(h, canon, s, n) then
      Collision(HeadInput(h, canon, r, m), HeadInput(h, canon, s, n))
    else if canon(r[m - 1].event) != canon(s[n - 1].event) then Collision(canon(r[m - 1].event), canon(s[n - 1].event))
    else FindBreak(h, canon, r, m - 1, s, n - 1)
  }

  /** The same events, as far as their canonical form tells. */
  predicate SameEvents(canon: Canon, r: seq<Row>, m: nat, s: seq<Row>, n: nat)
    requires m <= |r| && n <= |s|
  {
    m == n && forall i :: 0 <= i < m ==> canon(r[i].event) == canon(s[i].event)
  }

  lemma JoinedInjective(p: string, c: string, q: string, d: string)
    requires |p| == |q| && Joined(p, c) == Joined(q, d)
    ensures p == q && c == d
  {
    assert Joined(p, c)[..|p|] == p && Joined(q, d)[..|q|] == q;
    assert Joined(p, c)[|p| + 1..] == c && Joined(q, d)[|q| + 1..] == d;
  }

  lemma HeadLength(h: Hash, canon: Canon, rows: seq<Row>, n: nat)
    requires FixedLength(h) && n <= |rows|
    ensures |HeadAt(h, canon, rows, n)| == DIGEST
  {}

  /** Two chains with one head have the same events, or the walk back finds a broken hash. */
  lemma {:induction false} SameHeadSameEvents(h: Hash, canon: Canon, r: seq<Row>, m: nat, s: seq<Row>, n: nat)
    requires FixedLength(h) && m <= |r| && n <= |s|
    requires HeadAt(h, canon, r, m) == HeadAt(h, canon, s, n)
    ensures SameEvents(canon, r, m, s, n) || Breaks(h, FindBreak(h, canon, r, m, s, n))
  {
    if m > 0 && n > 0 && HeadInput(h, canon, r, m) == HeadInput(h, canon, s, n) {
      HeadLength(h, canon, r, m - 1);
      HeadLength(h, canon, s, n - 1);
      JoinedInjective(HeadAt(h, canon, r, m - 1), EventHash(h, canon, r[m - 1].event),
                      HeadAt(h, canon, s, n - 1), EventHash(h, canon, s[n - 1].event));
      SameHeadSameEvents(h, canon, r, m - 1, s, n - 1);
    }
  }

  ghost predicate Distinguishes(canon: Canon) {
    forall d, e :: canon(d) == canon(e) ==> d == e
  }

  /**
  Any row list that verifies to a known head is, row for row, the original chain: same
  length, same events, same stored hashes.  Otherwise a broken hash is on the table.
  */
  lemma TamperEvident(h: Hash, canon: Canon, original: seq<Row>, presented: seq<Row>)
    requires FixedLength(h) && Distinguishes(canon)
    requires Linked(h, canon, original) && Linked(h, canon, presented) && Head(h, canon, original) == Head(h, canon, presented)
    ensures
      || (|original| == |presented|
          && forall i :: 0 <= i < |original| ==> original[i].(index := presented[i].index) == presented[i])
      || Breaks(h, FindBreak(h, canon, original, |original|, presented, |presented|))
  {
    SameHeadSameEvents(h, canon, original, |original|, presented, |presented|);
    if SameEvents(canon, original, |original|, presented, |presented|) {
      EventsEqual(canon, original, presented);
      forall i: nat | i < |original| ensures original[i].(index := presented[i].index) == presented[i] {
        RowsEqual(h, canon, original, presented, i);
      }
    }
  }

  lemma EventsEqual(canon: Canon, r: seq<Row>, s: seq<Row>)
    requires Distinguishes(canon) && SameEvents(canon, r, |r|, s, |s|)
    ensures |r| == |s| && forall i :: 0 <= i < |r| ==> r[i].event == s[i].event
  {}

  lemma RowsEqual(h: Hash, canon: Canon, r: seq<Row>, s: seq<Row>, i: nat)
    requires i < |r| == |s| && Linked(h, canon, r) && Linked(h, canon, s)
    requires forall j :: 0 <= j < |r| ==> r[j].event == s[j].event
    ensures r[i].(index := s[i].index) == s[i]
  {
    assert RowFits(h, canon, r, i) && RowFits(h, canon, s, i);
    SameHeads(h, canon, r, s, i);
  }

  lemma {:induction false} SameHeads(h: Hash, canon: Canon, r: seq<Row>, s: seq<Row>, n: nat)
    requires n <= |r| && n <= |s| && forall i :: 0 <= i < n ==> r[i].event == s[i].event
    ensures HeadAt(h, canon, r, n) == HeadAt(h, canon, s, n)
  {
    if n > 0 { SameHeads(h, canon, r, s, n - 1); }
  }

  /** Cutting off the end of a chain changes its head, unless a hash is broken. */
  lemma TruncationShows(h: Hash, canon: Canon, rows: seq<Row>, n: nat)
    requires FixedLength(h) && Linked(h, canon, rows) && n <= |rows|
    ensures n < |rows| && Head(h, canon, rows[..n]) == Head(h, canon, rows)
      ==> Breaks(h, FindBreak(h, canon, rows[..n], n, rows, |rows|))
  {
    if Head(h, canon, rows[..n]) == Head(h, canon, rows) {
      SameHeadSameEvents(h, canon, rows[..n], n, rows, |rows|);
    }
  }
}
