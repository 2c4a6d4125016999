/** Appending audit events and sealing signed manifests over segments of the chain. */
module AuditManifest {
  import opened Prelude
  import opened AuditChain

  datatype Document = Document(index: nat, first: nat, last: nat, count: nat, head: string, createdAt: string)

  datatype Manifest = Manifest(document: Document, signature: string)

  type Sign = Document -> string

  datatype Trail = Trail(rows: seq<Row>, lastIndex: nat, lastHash: string, manifests: seq<Manifest>)

  function EmptyTrail(): Trail {
    Trail([], 0, Genesis(), [])
  }

  function AppendEvent(h: Hash, canon: Canon, t: Trail, e: Event): Trail {
    var current := EventHash(h, canon, e);
    t.(rows := t.rows + [Row(t.lastIndex + 1, e, current, t.lastHash)],
       lastIndex := t.lastIndex + 1, lastHash := ChainHash(h, t.lastHash, current))
  }

  // ----- Sealing -----

  function MaxLast(manifests: seq<Manifest>): nat {
    if manifests == [] then 0
    else
      var before, last := MaxLast(manifests[..|manifests| - 1]), manifests[|manifests| - 1].document.last;
      if last > before then last else before
  }

  function MaxIndex(manifests: seq<Manifest>): nat {
    if manifests == [] then 0
    else
      var before, last := MaxIndex(manifests[..|manifests| - 1]), manifests[|manifests| - 1].document.index;
      if last > before then last else before
  }

  /** The rows whose chain index is beyond the archived ones. */
  function Select(rows: seq<Row>, archived: nat): seq<Row> {
    if rows == [] then []
    else
      Select(rows[..|rows| - 1], archived)
      + if rows[|rows| - 1].index > archived then [rows[|rows| - 1]] else []
  }

  /** The rolling head over stored event hashes. */
  function Roll(h: Hash, start: string, rows: seq<Row>): string {
    if rows == [] then start else ChainHash(h, Roll(h, start, rows[..|rows| - 1]), rows[|rows| - 1].eventHash)
  }

  /** What a sealer read: the segment it is going to archive. */
  datatype Segment = Segment(first: nat, last: nat, count: nat, head: string)

  function ReadSegment(h: Hash, t: Trail): Option<Segment> {
    var rows := Select(t.rows, MaxLast(t.manifests));
    if rows == [] then None
    else Some(Segment(rows[0].index, rows[|rows| - 1].index, |rows|, Roll(h, rows[0].prevHash, rows)))
  }

  function Archive(t: Trail, s: Segment, sign: Sign, createdAt: string): Trail {
    var document := Document(MaxIndex(t.manifests) + 1, s.first, s.last, s.count, s.head, createdAt);
    t.(manifests := t.manifests + [Manifest(document, sign(document))])
  }

  /** The insert under an index read earlier; None when the primary key is taken. */
  function Insert(t: Trail, s: Segment, index: nat, sign: Sign, createdAt: string): Option<Trail> {
    var document := Document(index, s.first, s.last, s.count, s.head, createdAt);
    if exists m | m in t.manifests :: m.document.index == index then None
    else Some(t.(manifests := t.manifests + [Manifest(document, sign(document))]))
  }

  function Seal(h: Hash, t: Trail, sign: Sign, createdAt: string): Trail {
    match ReadSegment(h, t)
    case None => t
    case Some(s) => Archive(t, s, sign, createdAt)
  }

  // ----- Invariants -----

  predicate Indexed(rows: seq<Row>) {
    forall i :: 0 <= i < |rows| ==> rows[i].index == i + 1
  }

  predicate Chained(h: Hash, canon: Canon, t: Trail) {
    Linked(h, canon, t.rows) && Indexed(t.rows) && t.lastIndex == |t.rows| && t.lastHash == Head(h, canon, t.rows)
  }

  /** Where the k-th manifest has to begin. */
  function Begins(manifests: seq<Manifest>, k: nat): int
    requires k <= |manifests|
  {
    if k == 0 then 1 else manifests[k - 1].document.last + 1
  }

  predicate Covers(h: Hash, canon: Canon, t: Trail, k: nat)
    requires k < |t.manifests|
  {
    var d := t.manifests[k].document;
    && d.index == k + 1 && d.first == Begins(t.manifests, k) && d.first <= d.last <= |t.rows|
    && d.count == d.last - d.first + 1 && d.head == HeadAt(h, canon, t.rows, d.last)
  }

  predicate Tiled(h: Hash, canon: Canon, t: Trail) {
    forall k: nat :: k < |t.manifests| ==> Covers(h, canon, t, k)
  }

  predicate Signed(t: Trail, sign: Sign) {
    forall k :: 0 <= k < |t.manifests| ==> t.manifests[k].signature == sign(t.manifests[k].document)
  }

  ghost predicate Inv(h: Hash, canon: Canon, sign: Sign, t: Trail) {
    Chained(h, canon, t) && Tiled(h, canon, t) && Signed(t, sign)
  }

  lemma AppendKeepsInv(h: Hash, canon: Canon, sign: Sign, t: Trail, e: Event)
    requires Inv(h, canon, sign, t)
    ensures Inv(h, canon, sign, AppendEvent(h, canon, t, e))
  {
    var u := AppendEvent(h, canon, t, e);
    var row := u.rows[|t.rows|];
    ExtendedLinked(h, canon, t.rows, row);
    forall k: nat | k < |u.manifests| ensures Covers(h, canon, u, k) {
      assert Covers(h, canon, t, k);
      HeadOfPrefix(h, canon, t.rows, [row], t.manifests[k].document.last);
    }
  }

  // ----- What a sealer reads -----

  lemma {:induction false} SelectTail(rows: seq<Row>, n: nat)
    requires Indexed(rows)
    ensures Select(rows, n) == if n <= |rows| then rows[n..] else []
  {
    if rows != [] {
      var before := rows[..|rows| - 1];
      SelectTail(before, n);
      if n < |rows| { assert rows[n..] == before[n..] + [rows[|rows| - 1]]; }
    }
  }

  lemma RollNext(h: Hash, start: string, rows: seq<Row>, n: nat, m: nat)
    requires n < m <= |rows|
    ensures Roll(h, start, rows[n..m]) == ChainHash(h, Roll(h, start, rows[n..m - 1]), rows[m - 1].eventHash)
  {
    assert rows[n..m][..m - 1 - n] == rows[n..m - 1];
  }

  lemma {:induction false} RollIsHead(h: Hash, canon: Canon, rows: seq<Row>, n: nat, m: nat)
    requires Linked(h, canon, rows) && n <= m <= |rows|
    ensures Roll(h, HeadAt(h, canon, rows, n), rows[n..m]) == HeadAt(h, canon, rows, m)
  {
    if n < m {
      RollIsHead(h, canon, rows, n, m - 1);
      RollNext(h, HeadAt(h, canon, rows, n), rows, n, m);
      assert RowFits(h, canon, rows, m - 1);
    }
  }

  /** Archived indexes and manifest numbers both end with the last manifest. */
  lemma {:induction false} Maxima(h: Hash, canon: Canon, t: Trail, n: nat)
    requires Tiled(h, canon, t) && n <= |t.manifests|
    ensures MaxLast(t.manifests[..n]) == Begins(t.manifests, n) - 1
    ensures MaxIndex(t.manifests[..n]) == n
  {
    if n > 0 {
      assert Covers(h, canon, t, n - 1);
      Maxima(h, canon, t, n - 1);
      assert t.manifests[..n][..n - 1] == t.manifests[..n - 1];
    }
  }

  lemma MaximaAll(h: Hash, canon: Canon, t: Trail)
    requires Tiled(h, canon, t)
    ensures MaxLast(t.manifests) == Begins(t.manifests, |t.manifests|) - 1 <= |t.rows|
    ensures MaxIndex(t.manifests) == |t.manifests|
  {
    Maxima(h, canon, t, |t.manifests|);
    assert t.manifests[..|t.manifests|] == t.manifests;
    if |t.manifests| > 0 { assert Covers(h, canon, t, |t.manifests| - 1); }
  }

  /** A sealer reads everything after the last manifest, with the current head. */
  lemma SegmentRead(h: Hash, canon: Canon, t: Trail)
    requires Chained(h, canon, t) && Tiled(h, canon, t)
    ensures ReadSegment(h, t).Some? <==> MaxLast(t.manifests) < |t.rows|
    ensures ReadSegment(h, t).Some? ==>
      ReadSegment(h, t).value == Segment(MaxLast(t.manifests) + 1, |t.rows|, |t.rows| - MaxLast(t.manifests), t.lastHash)
  {
    MaximaAll(h, canon, t);
    var n := MaxLast(t.manifests);
    SelectTail(t.rows, n);
    if n < |t.rows| {
      assert RowFits(h, canon, t.rows, n);
      RollIsHead(h, canon, t.rows, n, |t.rows|);
      assert t.rows[n..|t.rows|] == t.rows[n..];
    }
  }

  /** The trail u came from t by appending events and archiving manifests. */
  predicate Grew(t: Trail, u: Trail) {
    |t.rows| <= |u.rows| && u.rows[..|t.rows|] == t.rows && |t.manifests| <= |u.manifests| && u.manifests[..|t.manifests|] == t.manifests
  }

  lemma LatestCovers(h: Hash, canon: Canon, u: Trail, v: Trail)
    requires Tiled(h, canon, u) && v.rows == u.rows && |v.manifests| == |u.manifests| + 1 && v.manifests[..|u.manifests|] == u.manifests
    ensures Tiled(h, canon, v) <==> Covers(h, canon, v, |u.manifests|)
  {
    forall k: nat | k < |u.manifests| ensures Covers(h, canon, v, k) {
      assert Covers(h, canon, u, k);
      assert v.manifests[k] == u.manifests[k];
      if k > 0 { assert v.manifests[k - 1] == u.manifests[k - 1]; }
    }
  }

  /**
  A sealer that read its segment in t and archives it in a later trail u keeps the manifests
  contiguous exactly when no other sealer archived in between.
  */
  lemma ArchiveKeepsTilingExactlyWhen(h: Hash, canon: Canon, sign: Sign, t: Trail, u: Trail, createdAt: string)
    requires Inv(h, canon, sign, t) && Inv(h, canon, sign, u) && Grew(t, u) && ReadSegment(h, t).Some?
    ensures Inv(h, canon, sign, Archive(u, ReadSegment(h, t).value, sign, createdAt)) <==> |u.manifests| == |t.manifests|
  {
    var v := Archive(u, ReadSegment(h, t).value, sign, createdAt);
    SegmentRead(h, canon, t);
    MaximaAll(h, canon, t);
    MaximaAll(h, canon, u);
    LatestCovers(h, canon, u, v);
    assert t.rows + u.rows[|t.rows|..] == u.rows;
    HeadOfPrefix(h, canon, t.rows, u.rows[|t.rows|..], |t.rows|);
    var n := |u.manifests|;
    if n > |t.manifests| {
      BeginsGrows(h, canon, u, |t.manifests|, n);
      if |t.manifests| > 0 { assert u.manifests[|t.manifests| - 1] == t.manifests[|t.manifests| - 1]; }
    } else {
      assert u.manifests == t.manifests;
    }
  }

  lemma IndexTakenExactlyWhen(h: Hash, canon: Canon, t: Trail, index: nat)
    requires Tiled(h, canon, t)
    ensures (exists m :: m in t.manifests && m.document.index == index) <==> 1 <= index <= |t.manifests|
  {
    if 1 <= index <= |t.manifests| {
      assert Covers(h, canon, t, index - 1);
      assert t.manifests[index - 1] in t.manifests;
    }
    if m :| m in t.manifests && m.document.index == index {
      var k: nat :| k < |t.manifests| && t.manifests[k] == m;
      assert Covers(h, canon, t, k);
    }
  }

  /**
  A sealer reads its segment in t, the manifest index in u, and inserts in v.  The insert is
  refused exactly when another sealer archived after the index was read.  One that goes
  through keeps the manifests contiguous exactly when no other sealer archived between the
  two reads; otherwise the segment is archived twice.
  */
  lemma InterleavedSealing(h: Hash, canon: Canon, sign: Sign, t: Trail, u: Trail, v: Trail, createdAt: string)
    requires Inv(h, canon, sign, t) && Inv(h, canon, sign, u) && Inv(h, canon, sign, v)
    requires Grew(t, u) && Grew(u, v) && ReadSegment(h, t).Some?
    ensures var outcome := Insert(v, ReadSegment(h, t).value, MaxIndex(u.manifests) + 1, sign, createdAt);
      && (outcome.None? <==> |u.manifests| < |v.manifests|)
      && (outcome.Some? ==> (Inv(h, canon, sign, outcome.value) <==> |t.manifests| == |u.manifests|))
  {
    MaximaAll(h, canon, u);
    MaximaAll(h, canon, v);
    IndexTakenExactlyWhen(h, canon, v, MaxIndex(u.manifests) + 1);
    if |u.manifests| == |v.manifests| {
      GrewThrough(t, u, v);
      ArchiveKeepsTilingExactlyWhen(h, canon, sign, t, v, createdAt);
    }
  }

  lemma GrewThrough(t: Trail, u: Trail, v: Trail)
    requires Grew(t, u) && Grew(u, v)
    ensures Grew(t, v)
  {
    assert v.rows[..|t.rows|] == v.rows[..|u.rows|][..|t.rows|];
    assert v.manifests[..|t.manifests|] == v.manifests[..|u.manifests|][..|t.manifests|];
  }

  lemma {:induction false} BeginsGrows(h: Hash, canon: Canon, t: Trail, m: nat, n: nat)
    requires Tiled(h, canon, t) && m <= n <= |t.manifests|
    ensures m < n ==> Begins(t.manifests, m) < Begins(t.manifests, n)
  {
    if m < n {
      BeginsGrows(h, canon, t, m, n - 1);
      assert Covers(h, canon, t, n - 1);
    }
  }

  lemma SealKeepsInv(h: Hash, canon: Canon, sign: Sign, t: Trail, createdAt: string)
    requires Inv(h, canon, sign, t)
    ensures Inv(h, canon, sign, Seal(h, t, sign, createdAt))
  {
    if ReadSegment(h, t).Some? { ArchiveKeepsTilingExactlyWhen(h, canon, sign, t, t, createdAt); }
  }

  lemma SealSealsAll(h: Hash, canon: Canon, sign: Sign, t: Trail, createdAt: string)
    requires Inv(h, canon, sign, t)
    ensures Inv(h, canon, sign, Seal(h, t, sign, createdAt))
    ensures ReadSegment(h, t).None? <==> MaxLast(t.manifests) == |t.rows|
  {
    SealKeepsInv(h, canon, sign, t, createdAt);
    SegmentRead(h, canon, t);
    MaximaAll(h, canon, t);
  }

  // ----- Runs -----

  datatype Action = Append(event: Event) | SealNow(createdAt: string)

  function Step(h: Hash, canon: Canon, sign: Sign, t: Trail, a: Action): Trail {
    match a
    case Append(event) => AppendEvent(h, canon, t, event)
    case SealNow(createdAt) => Seal(h, t, sign, createdAt)
  }

  function Run(h: Hash, canon: Canon, sign: Sign, actions: seq<Action>): Trail {
    if actions == [] then EmptyTrail() else Step(h, canon, sign, Run(h, canon, sign, actions[..|actions| - 1]), actions[|actions| - 1])
  }

  lemma {:induction false} RunKeepsInv(h: Hash, canon: Canon, sign: Sign, actions: seq<Action>)
    ensures Inv(h, canon, sign, Run(h, canon, sign, actions))
  {
    if actions != [] {
      var before := actions[..|actions| - 1];
      RunKeepsInv(h, canon, sign, before);
      match actions[|actions| - 1]
      case Append(event) => AppendKeepsInv(h, canon, sign, Run(h, canon, sign, before), event);
      case SealNow(createdAt) => SealKeepsInv(h, canon, sign, Run(h, canon, sign, before), createdAt);
    }
  }

  /** Every chain built by appends verifies, and its recomputed head is the stored one. */
  lemma AppendedChainVerifies(h: Hash, canon: Canon, sign: Sign, actions: seq<Action>)
    ensures var t := Run(h, canon, sign, actions);
      Linked(h, canon, t.rows) && Head(h, canon, t.rows) == t.lastHash && t.lastIndex == |t.rows|
  {
    RunKeepsInv(h, canon, sign, actions);
  }

  /**
  Manifests are contiguous from index 1 and disjoint, their counts are their lengths, and
  each head is the previous hash stored in the next event, or the current chain head.
  */
  lemma ManifestsTile(h: Hash, canon: Canon, sign: Sign, actions: seq<Action>, k: nat)
    requires k < |Run(h, canon, sign, actions).manifests|
    ensures var t := Run(h, canon, sign, actions); var d := t.manifests[k].document;
      && d.first == (if k == 0 then 1 else t.manifests[k - 1].document.last + 1) && d.first <= d.last <= |t.rows|
      && d.count == d.last - d.first + 1
      && d.head == if d.last < |t.rows| then t.rows[d.last].prevHash else t.lastHash
  {
    RunKeepsInv(h, canon, sign, actions);
    var t := Run(h, canon, sign, actions);
    assert Covers(h, canon, t, k);
    var last := t.manifests[k].document.last;
    if last < |t.rows| { assert RowFits(h, canon, t.rows, last); }
  }

  /** One event sealed by two overlapping sealers: the second, which read its rows before the first committed, archives it again. */
  lemma OverlapArchivesTwice(h: Hash, canon: Canon, sign: Sign, e: Event, at: string, t: Trail, u: Trail)
    requires t == Run(h, canon, sign, [Append(e)]) && u == Run(h, canon, sign, [Append(e)] + [SealNow(at)])
    ensures ReadSegment(h, t).Some?
    ensures var outcome := Insert(u, ReadSegment(h, t).value, MaxIndex(u.manifests) + 1, sign, at);
      && outcome.Some? && !Inv(h, canon, sign, outcome.value) && |outcome.value.manifests| == 2
      && outcome.value.manifests[0].document.first == outcome.value.manifests[1].document.first == 1
  {
    RunKeepsInv(h, canon, sign, [Append(e)]);
    RunKeepsInv(h, canon, sign, [Append(e)] + [SealNow(at)]);
    OneEvent(h, canon, sign, e, t);
    assert ([Append(e)] + [SealNow(at)])[..1] == [Append(e)];
    assert u == Seal(h, t, sign, at);
    SegmentRead(h, canon, t);
    InterleavedSealing(h, canon, sign, t, u, u, at);
  }

  lemma OneEvent(h: Hash, canon: Canon, sign: Sign, e: Event, t: Trail)
    requires t == Run(h, canon, sign, [Append(e)])
    ensures |t.rows| == 1 && t.manifests == []
  {
    assert [Append(e)][..0] == [];
    assert t == AppendEvent(h, canon, EmptyTrail(), e);
  }

  /** Rows that verify to the head of a manifest are the very events that were sealed, or a hash is broken. */
  lemma ManifestPinsEvents(h: Hash, canon: Canon, sign: Sign, actions: seq<Action>, k: nat, presented: seq<Row>)
    requires FixedLength(h) && k < |Run(h, canon, sign, actions).manifests|
    requires Linked(h, canon, presented) && Head(h, canon, presented) == Run(h, canon, sign, actions).manifests[k].document.head
    ensures var t := Run(h, canon, sign, actions); var last := t.manifests[k].document.last;
      && last <= |t.rows|
      && (SameEvents(canon, t.rows, last, presented, |presented|) || Breaks(h, FindBreak(h, canon, t.rows, last, presented, |presented|)))
  {
    RunKeepsInv(h, canon, sign, actions);
    var t := Run(h, canon, sign, actions);
    assert Covers(h, canon, t, k);
    SameHeadSameEvents(h, canon, t.rows, t.manifests[k].document.last, presented, |presented|);
  }

  // ----- The service -----

  method RollOver(h: Hash, start: string, rows: seq<Row>) returns (head: string)
    ensures head == Roll(h, start, rows)
  {
    head := start;
    var i := 0;
    while i < |rows|
      invariant 0 <= i <= |rows| && head == Roll(h, start, rows[..i])
    {
      assert rows[..i + 1][..i] == rows[..i];
      head := ChainHash(h, head, rows[i].eventHash);
      i := i + 1;
    }
    assert rows[..i] == rows;
  }

  class AuditTrail {
    const h: Hash
    const canon: Canon
    const sign: Sign
    var rows: seq<Row>
    var lastIndex: nat
    var lastHash: string
    var manifests: seq<Manifest>

    constructor (h: Hash, canon: Canon, sign: Sign)
      ensures this.h == h && this.canon == canon && this.sign == sign && View() == EmptyTrail()
    {
      this.h, this.canon, this.sign := h, canon, sign;
      rows, lastIndex, lastHash, manifests := [], 0, Genesis(), [];
    }

    function View(): Trail
      reads this
    {
      Trail(rows, lastIndex, lastHash, manifests)
    }

    /** Advances the locked head row and inserts the event with the hashes it was given. */
    method AppendToChain(e: Event)
      modifies this
      ensures View() == AppendEvent(h, canon, old(View()), e)
      ensures old(Inv(h, canon, sign, View())) ==> Inv(h, canon, sign, View())
    {
      if Inv(h, canon, sign, View()) { AppendKeepsInv(h, canon, sign, View(), e); }
      var previous, current := lastHash, EventHash(h, canon, e);
      lastIndex := lastIndex + 1;
      lastHash := ChainHash(h, previous, current);
      rows := rows + [Row(lastIndex, e, current, previous)];
    }

    method LastArchived() returns (last: nat, index: nat)
      ensures last == MaxLast(manifests) && index == MaxIndex(manifests)
    {
      last, index := 0, 0;
      var i := 0;
      while i < |manifests|
        invariant 0 <= i <= |manifests|
        invariant last == MaxLast(manifests[..i]) && index == MaxIndex(manifests[..i])
      {
        assert manifests[..i + 1][..i] == manifests[..i];
        var d := manifests[i].document;
        if d.last > last { last := d.last; }
        if d.index > index { index := d.index; }
        i := i + 1;
      }
      assert manifests[..i] == manifests;
    }

    method Unarchived(after: nat) returns (segment: seq<Row>)
      ensures segment == Select(rows, after)
    {
      segment := [];
      var i := 0;
      while i < |rows|
        invariant 0 <= i <= |rows| && segment == Select(rows[..i], after)
      {
        assert rows[..i + 1][..i] == rows[..i];
        if rows[i].index > after { segment := segment + [rows[i]]; }
        i := i + 1;
      }
      assert rows[..i] == rows;
    }

    /** Seals what is not yet archived; None when there is nothing. */
    method BuildAndArchive(createdAt: string) returns (record: Option<Manifest>)
      modifies this`manifests
      ensures View() == Seal(h, old(View()), sign, createdAt)
      ensures manifests == if record.Some? then old(manifests) + [record.value] else old(manifests)
      ensures old(Inv(h, canon, sign, View())) ==> Inv(h, canon, sign, View()) && (record.None? <==> MaxLast(old(manifests)) == |rows|)
    {
      if Inv(h, canon, sign, View()) { SealSealsAll(h, canon, sign, View(), createdAt); }
      var archived, index := LastArchived();
      var segment := Unarchived(archived);
      if segment == [] { return None; }
      var head := RollOver(h, segment[0].prevHash, segment);
      var document := Document(index + 1, segment[0].index, segment[|segment| - 1].index, |segment|, head, createdAt);
      var manifest := Manifest(document, sign(document));
      manifests := manifests + [manifest];
      return Some(manifest);
    }
  }

  /** Tampering is reported exactly when the chain does not recompute or a signature does not match. */
  method VerifyEvidence(h: Hash, canon: Canon, sign: Sign, rows: seq<Row>, manifests: seq<Manifest>)
    returns (chain: Verdict, signaturesValid: bool, tampered: bool)
    ensures chain.Valid? <==> Linked(h, canon, rows)
    ensures chain.Valid? ==> chain == Valid(|rows|, Head(h, canon, rows))
    ensures signaturesValid <==> Signed(Trail(rows, 0, "", manifests), sign)
    ensures tampered <==> !Linked(h, canon, rows) || !signaturesValid
  {
    chain := VerifyChain(h, canon, rows);
    signaturesValid := true;
    var i := 0;
    while i < |manifests| && signaturesValid
      invariant 0 <= i <= |manifests|
      invariant signaturesValid ==> forall k :: 0 <= k < i ==> manifests[k].signature == sign(manifests[k].document)
      invariant !signaturesValid ==> exists k :: 0 <= k < |manifests| && manifests[k].signature != sign(manifests[k].document)
    {
      if manifests[i].signature != sign(manifests[i].document) { signaturesValid := false; }
      i := i + 1;
    }
    tampered := !chain.Valid? || !signaturesValid;
  }
}
