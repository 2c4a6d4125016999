/** Validation evidence, and what accepting it means for the content. */
module MigrationEvidence {
  import opened Prelude
  import opened StorageAdapter
  import opened Fingerprint
  import opened MigrationExecutor

  datatype Evidence = Evidence(
    sourceCount: nat, targetCount: nat, sourceDigest: Bytes, targetDigest: Bytes,
    sourceVersion: nat, targetVersion: nat, vectorRecall: real)
  {
    predicate IsValid() {
      sourceCount == targetCount && sourceDigest == targetDigest
      && sourceVersion == targetVersion && vectorRecall >= 0.95
    }
  }

  /** What was measured on one adapter pair. */
  datatype Measure = Measure(source: Print, target: Print, recall: real)

  function Matching(source: Content, target: Content): set<Bytes> {
    set k | k in source && k in target && source[k] == target[k]
  }

  function Recall(source: Content, target: Content): real {
    if source == map[] then 1.0
    else
      assert source.Keys != {};
      |Matching(source, target)| as real / |source| as real
  }

  /** The target's own sequence is not comparable, so proven equal content takes the source's. */
  function TargetVersion(m: Measure): nat {
    if m.source.count == m.target.count && m.source.digest == m.target.digest
    then m.source.version else m.target.version
  }

  function Sum(values: seq<nat>): nat {
    if values == [] then 0 else Sum(values[..|values| - 1]) + values[|values| - 1]
  }

  function Max(values: seq<nat>): nat {
    if values == [] then 0
    else
      var rest := Max(values[..|values| - 1]);
      if values[|values| - 1] > rest then values[|values| - 1] else rest
  }

  /** Never above 1, which is where every recall starts. */
  function Min(values: seq<real>): real {
    if values == [] then 1.0
    else
      var rest := Min(values[..|values| - 1]);
      if values[|values| - 1] < rest then values[|values| - 1] else rest
  }

  function Concat(digests: seq<Bytes>): Bytes {
    if digests == [] then [] else Concat(digests[..|digests| - 1]) + digests[|digests| - 1]
  }

  function SourceDigests(ms: seq<Measure>): seq<Bytes> { seq(|ms|, i requires 0 <= i < |ms| => ms[i].source.digest) }
  function TargetDigests(ms: seq<Measure>): seq<Bytes> { seq(|ms|, i requires 0 <= i < |ms| => ms[i].target.digest) }
  function SourceCounts(ms: seq<Measure>): seq<nat> { seq(|ms|, i requires 0 <= i < |ms| => ms[i].source.count) }
  function TargetCounts(ms: seq<Measure>): seq<nat> { seq(|ms|, i requires 0 <= i < |ms| => ms[i].target.count) }
  function SourceVersions(ms: seq<Measure>): seq<nat> { seq(|ms|, i requires 0 <= i < |ms| => ms[i].source.version) }
  function TargetVersions(ms: seq<Measure>): seq<nat> { seq(|ms|, i requires 0 <= i < |ms| => TargetVersion(ms[i])) }
  function Recalls(ms: seq<Measure>): seq<real> { seq(|ms|, i requires 0 <= i < |ms| => ms[i].recall) }

  /** The evidence folded from the measures of all pairs. */
  function Collect(h: Hash, ms: seq<Measure>): Evidence {
    Evidence(Sum(SourceCounts(ms)), Sum(TargetCounts(ms)),
             h(Concat(SourceDigests(ms))), h(Concat(TargetDigests(ms))),
             Max(SourceVersions(ms)), Max(TargetVersions(ms)), Min(Recalls(ms)))
  }

  /** What `snapshot_tenant` returns. */
  datatype Snapshot = Snapshot(watermark: nat, content: Content)

  function Contents(snapshots: seq<Snapshot>): seq<Content> {
    seq(|snapshots|, i requires 0 <= i < |snapshots| => snapshots[i].content)
  }

  ghost predicate Measures(h: Hash, source: Snapshot, target: Snapshot, m: Measure) {
    && IsPrint(h, source.content, m.source) && m.source.version == source.watermark
    && IsPrint(h, target.content, m.target) && m.target.version == target.watermark
    && m.recall == Recall(source.content, target.content)
  }

  ghost predicate Collected(h: Hash, sources: seq<Snapshot>, targets: seq<Snapshot>, ms: seq<Measure>) {
    |ms| == |sources| == |targets| && forall i :: 0 <= i < |ms| ==> Measures(h, sources[i], targets[i], ms[i])
  }

  /** `e` is the evidence of these snapshots. */
  ghost predicate IsEvidence(h: Hash, sources: seq<Snapshot>, targets: seq<Snapshot>, e: Evidence) {
    |sources| == |targets| && exists ms: seq<Measure> :: Collected(h, sources, targets, ms) && e == Collect(h, ms)
  }

  method MeasurePair(h: Hash, source: Snapshot, target: Snapshot) returns (m: Measure)
    ensures Measures(h, source, target, m)
  {
    var s := TenantFingerprint(h, source.content, source.watermark);
    var t := TenantFingerprint(h, target.content, target.watermark);
    return Measure(s, t, Recall(source.content, target.content));
  }

  method ValidateAll(h: Hash, sources: seq<Snapshot>, targets: seq<Snapshot>)
    returns (evidence: Result<Evidence, Error>)
    requires |sources| == |targets|
    ensures evidence.Err? <==> sources == []
    ensures evidence.Ok? ==> IsEvidence(h, sources, targets, evidence.value)
  {
    if sources == [] { return Err(AdaptersUnavailable); }
    var ms: seq<Measure> := [];
    for i := 0 to |sources|
      invariant |ms| == i
      invariant forall j :: 0 <= j < i ==> Measures(h, sources[j], targets[j], ms[j])
    {
      var m := MeasurePair(h, sources[i], targets[i]);
      ms := ms + [m];
    }
    assert Collected(h, sources, targets, ms);
    return Ok(Collect(h, ms));
  }

  // ----- Soundness -----

  /** Digests of one length can be read back from their concatenation. */
  lemma {:induction false} ConcatInjective(a: seq<Bytes>, b: seq<Bytes>)
    requires |a| == |b| && Concat(a) == Concat(b)
    requires forall i :: 0 <= i < |a| ==> |a[i]| == DIGEST_LENGTH && |b[i]| == DIGEST_LENGTH
    ensures a == b
  {
    if a != [] {
      var n := |a| - 1;
      var whole := Concat(a);
      assert whole[|whole| - DIGEST_LENGTH..] == a[n] && whole[..|whole| - DIGEST_LENGTH] == Concat(a[..n]);
      assert whole[|whole| - DIGEST_LENGTH..] == b[n] && whole[..|whole| - DIGEST_LENGTH] == Concat(b[..n]);
      ConcatInjective(a[..n], b[..n]);
      assert a == a[..n] + [a[n]] && b == b[..n] + [b[n]];
    }
  }

  /** The encodings of these two contents are a collision of the hash. */
  ghost predicate PrintsCollide(h: Hash, a: Content, b: Content) {
    exists s, t :: IsItems(a, s) && IsItems(b, t) && Collides(h, Encode(s), Encode(t))
  }

  /** The joined digests of these snapshots are a collision of the hash. */
  ghost predicate DigestsCollide(h: Hash, sources: seq<Snapshot>, targets: seq<Snapshot>) {
    exists ms :: Collected(h, sources, targets, ms) && Collides(h, Concat(SourceDigests(ms)), Concat(TargetDigests(ms)))
  }

  /** One of the strings that validating these snapshots hashes collides with its counterpart. */
  ghost predicate HashBroken(h: Hash, sources: seq<Snapshot>, targets: seq<Snapshot>) {
    || DigestsCollide(h, sources, targets)
    || exists i :: 0 <= i < |sources| && i < |targets| && PrintsCollide(h, sources[i].content, targets[i].content)
  }

  lemma PrintSound(h: Hash, a: Content, b: Content, p: Print, q: Print)
    requires IsPrint(h, a, p) && IsPrint(h, b, q) && p.digest == q.digest
    requires ContentNulFree(a) && ContentNulFree(b)
    ensures a == b || PrintsCollide(h, a, b)
  {
    var s :| IsItems(a, s) && p.digest == h(Encode(s)) && p.count == |a|;
    var t :| IsItems(b, t) && q.digest == h(Encode(t)) && q.count == |b|;
    if Encode(s) != Encode(t) {
      assert Collides(h, Encode(s), Encode(t));
    } else {
      EncodeInjective(s, t);
      ItemsDetermineContent(a, b, s);
    }
  }

  lemma DigestLengths(h: Hash, source: Snapshot, target: Snapshot, m: Measure)
    requires FixedLength(h) && Measures(h, source, target, m)
    ensures |m.source.digest| == DIGEST_LENGTH && |m.target.digest| == DIGEST_LENGTH
  {}

  lemma SameJoinedDigests(h: Hash, sources: seq<Snapshot>, targets: seq<Snapshot>, ms: seq<Measure>)
    requires FixedLength(h) && Collected(h, sources, targets, ms) && Concat(SourceDigests(ms)) == Concat(TargetDigests(ms))
    ensures SourceDigests(ms) == TargetDigests(ms)
  {
    forall i | 0 <= i < |ms| ensures |SourceDigests(ms)[i]| == DIGEST_LENGTH && |TargetDigests(ms)[i]| == DIGEST_LENGTH {
      DigestLengths(h, sources[i], targets[i], ms[i]);
    }
    ConcatInjective(SourceDigests(ms), TargetDigests(ms));
  }

  /**
  Accepted evidence means equal content on every pair, given that no key or value holds a
  NUL byte.  The only other way is that two of the strings hashed for these very snapshots
  share a digest: the encodings of one pair, or the joined digests of all of them.
  */
  lemma ValidationSound(h: Hash, sources: seq<Snapshot>, targets: seq<Snapshot>, e: Evidence)
    requires FixedLength(h) && IsEvidence(h, sources, targets, e) && e.IsValid()
    requires forall i :: 0 <= i < |sources| ==> ContentNulFree(sources[i].content) && ContentNulFree(targets[i].content)
    ensures Contents(sources) == Contents(targets) || HashBroken(h, sources, targets)
  {
    var ms: seq<Measure> :| Collected(h, sources, targets, ms) && e == Collect(h, ms);
    var x, y := Concat(SourceDigests(ms)), Concat(TargetDigests(ms));
    if x != y {
      assert Collides(h, x, y);
    } else {
      SameJoinedDigests(h, sources, targets, ms);
      forall i | 0 <= i < |ms|
        ensures sources[i].content == targets[i].content || PrintsCollide(h, sources[i].content, targets[i].content)
      {
        assert SourceDigests(ms)[i] == TargetDigests(ms)[i];
        PrintSound(h, sources[i].content, targets[i].content, ms[i].source, ms[i].target);
      }
    }
  }

  // ----- Completeness -----

  lemma PrintComplete(h: Hash, content: Content, p: Print, q: Print)
    requires IsPrint(h, content, p) && IsPrint(h, content, q)
    ensures p.count == q.count && p.digest == q.digest
  {
    var s :| IsItems(content, s) && p.digest == h(Encode(s)) && p.count == |content|;
    var t :| IsItems(content, t) && q.digest == h(Encode(t)) && q.count == |content|;
    ItemsUnique(content, s, t);
  }

  lemma RecallOfEqual(content: Content)
    ensures Recall(content, content) == 1.0
  {
    if content != map[] {
      assert Matching(content, content) == content.Keys && content.Keys != {};
      var n := |content| as real;
      assert n != 0.0 && n / n == 1.0;
    }
  }

  lemma {:induction false} MinOfOnes(values: seq<real>)
    requires forall i :: 0 <= i < |values| ==> values[i] == 1.0
    ensures Min(values) == 1.0
  {
    if values != [] { MinOfOnes(values[..|values| - 1]); }
  }

  lemma EqualMeasure(h: Hash, content: Content, m: Measure)
    requires IsPrint(h, content, m.source) && IsPrint(h, content, m.target) && m.recall == Recall(content, content)
    ensures m.source.count == m.target.count && m.source.digest == m.target.digest && m.recall == 1.0
  {
    PrintComplete(h, content, m.source, m.target);
    RecallOfEqual(content);
  }

  lemma EqualMeasuresValid(h: Hash, ms: seq<Measure>)
    requires forall i :: 0 <= i < |ms| ==>
      ms[i].source.count == ms[i].target.count && ms[i].source.digest == ms[i].target.digest && ms[i].recall == 1.0
    ensures Collect(h, ms).IsValid()
  {
    assert SourceCounts(ms) == TargetCounts(ms) && SourceDigests(ms) == TargetDigests(ms);
    assert SourceVersions(ms) == TargetVersions(ms);
    MinOfOnes(Recalls(ms));
  }

  /** Equal content on every pair is always accepted. */
  lemma ValidationComplete(h: Hash, sources: seq<Snapshot>, targets: seq<Snapshot>, e: Evidence)
    requires IsEvidence(h, sources, targets, e) && Contents(sources) == Contents(targets)
    ensures e.IsValid()
  {
    var ms: seq<Measure> :| Collected(h, sources, targets, ms) && e == Collect(h, ms);
    forall i | 0 <= i < |ms|
      ensures ms[i].source.count == ms[i].target.count && ms[i].source.digest == ms[i].target.digest && ms[i].recall == 1.0
    {
      assert Contents(sources)[i] == Contents(targets)[i];
      EqualMeasure(h, sources[i].content, ms[i]);
    }
    EqualMeasuresValid(h, ms);
  }

  /** Any two lists of snapshots of one length have evidence. */
  lemma EvidenceExists(h: Hash, sources: seq<Snapshot>, targets: seq<Snapshot>) returns (e: Evidence)
    requires |sources| == |targets|
    ensures IsEvidence(h, sources, targets, e)
  {
    var ms := MeasuresExist(h, sources, targets);
    e := Collect(h, ms);
  }

  lemma {:induction false} MeasuresExist(h: Hash, sources: seq<Snapshot>, targets: seq<Snapshot>) returns (ms: seq<Measure>)
    requires |sources| == |targets|
    ensures Collected(h, sources, targets, ms)
  {
    if sources == [] { return []; }
    var n := |sources| - 1;
    var front := MeasuresExist(h, sources[..n], targets[..n]);
    var p := PrintExists(h, sources[n]);
    var q := PrintExists(h, targets[n]);
    ms := front + [Measure(p, q, Recall(sources[n].content, targets[n].content))];
    forall i | 0 <= i < |ms| ensures Measures(h, sources[i], targets[i], ms[i]) {
      if i < n { assert Measures(h, sources[..n][i], targets[..n][i], front[i]); }
    }
  }

  lemma PrintExists(h: Hash, s: Snapshot) returns (p: Print)
    ensures IsPrint(h, s.content, p) && p.version == s.watermark
  {
    var items := ItemsExist(s.content);
    p := Print(|s.content|, h(Encode(items)), s.watermark);
  }

  // ----- NUL bytes -----

  /** The middle field boundaries of one list are NUL bytes inside the values of the other. */
  function Misread(k1: Bytes, v1: Bytes, k2: Bytes, v2: Bytes, k3: Bytes, v3: Bytes, rest: seq<Item>): seq<Item> {
    [Item(k1, v1 + [0] + k2 + [0] + v2), Item(k3, v3)] + rest
  }

  function Reread(k1: Bytes, v1: Bytes, k2: Bytes, v2: Bytes, k3: Bytes, v3: Bytes, rest: seq<Item>): seq<Item> {
    [Item(k1, v1), Item(k2, v2 + [0] + k3 + [0] + v3)] + rest
  }

  lemma SameEncoding(k1: Bytes, v1: Bytes, k2: Bytes, v2: Bytes, k3: Bytes, v3: Bytes, rest: seq<Item>)
    ensures Encode(Misread(k1, v1, k2, v2, k3, v3, rest)) == Encode(Reread(k1, v1, k2, v2, k3, v3, rest))
  {
    var a, b := Misread(k1, v1, k2, v2, k3, v3, rest), Reread(k1, v1, k2, v2, k3, v3, rest);
    assert a[1..][1..] == rest && b[1..][1..] == rest;
    var tail := k3 + [0] + v3 + [0] + Encode(rest);
    assert Encode(a[1..]) == tail;
    assert Encode(b[1..]) == k2 + [0] + v2 + [0] + tail;
    assert Encode(a) == k1 + [0] + v1 + [0] + k2 + [0] + v2 + [0] + tail;
    assert Encode(b) == k1 + [0] + v1 + [0] + (k2 + [0] + v2 + [0] + tail);
  }

  lemma {:induction false} ItemsCount(content: Content, items: seq<Item>)
    requires IsItems(content, items)
    ensures |content| == |items|
  {
    if items == [] {
      assert content == map[];
    } else {
      RestItems(content, items);
      var smaller := content - {items[0].key};
      ItemsCount(smaller, items[1..]);
      assert content.Keys == smaller.Keys + {items[0].key};
      assert |content.Keys| == |smaller.Keys| + 1;
    }
  }

  lemma TwoFewer(content: Content, items: seq<Item>)
    requires IsItems(content, items) && |items| >= 2
    ensures IsItems(content - {items[0].key} - {items[1].key}, items[2..])
  {
    RestItems(content, items);
    RestItems(content - {items[0].key}, items[1..]);
    assert items[1..][1..] == items[2..] && items[1..][0] == items[1];
  }

  /** Contents that agree outside two entries each. */
  lemma MostlyMatching(a: Content, b: Content, s: seq<Item>, t: seq<Item>)
    requires IsItems(a, s) && IsItems(b, t) && |s| >= 40 && |t| >= 2 && s[2..] == t[2..]
    ensures Recall(a, b) >= 0.95
  {
    TwoFewer(a, s);
    TwoFewer(b, t);
    var common := a - {s[0].key} - {s[1].key};
    ItemsDetermineContent(common, b - {t[0].key} - {t[1].key}, s[2..]);
    ItemsCount(common, s[2..]);
    ItemsCount(a, s);
    CommonMatches(a, b, common);
    AtLeastNineteenTwentieths(|Matching(a, b)|, |a|);
  }

  lemma CommonMatches(a: Content, b: Content, common: Content)
    requires forall k :: k in common ==> k in a && k in b && a[k] == b[k]
    ensures |common| <= |Matching(a, b)|
  {
    SubsetSize(common.Keys, Matching(a, b));
  }

  lemma {:induction false} SubsetSize(s: set<Bytes>, t: set<Bytes>)
    requires s <= t
    ensures |s| <= |t|
  {
    if s != {} {
      var x :| x in s;
      SubsetSize(s - {x}, t - {x});
    }
  }

  lemma AtLeastNineteenTwentieths(matches: nat, size: nat)
    requires size >= 40 && matches >= size - 2
    ensures matches as real / size as real >= 0.95
  {
    var m, n := matches as real, size as real;
    assert m >= n * 0.95;
    assert m / n >= (n * 0.95) / n;
  }

  /**
  With NUL bytes validation is not sound, whatever the hash: these two contents differ and
  pass every check, the recall check included as soon as there are 38 more entries.
  */
  lemma NulBytesDefeatValidation(h: Hash, k1: Bytes, v1: Bytes, k2: Bytes, v2: Bytes, k3: Bytes, v3: Bytes, rest: seq<Item>,
                                 a: Snapshot, b: Snapshot, e: Evidence)
    requires |rest| >= 38
    requires IsItems(a.content, Misread(k1, v1, k2, v2, k3, v3, rest)) && IsItems(b.content, Reread(k1, v1, k2, v2, k3, v3, rest))
    requires IsEvidence(h, [a], [b], e)
    ensures e.IsValid() && a.content != b.content
  {
    var s, t := Misread(k1, v1, k2, v2, k3, v3, rest), Reread(k1, v1, k2, v2, k3, v3, rest);
    SameEncoding(k1, v1, k2, v2, k3, v3, rest);
    assert s[2..] == rest == t[2..];
    MostlyMatching(a.content, b.content, s, t);
    assert a.content[k1] == s[0].value && b.content[k1] == t[0].value;
    var ms: seq<Measure> :| Collected(h, [a], [b], ms) && e == Collect(h, ms);
    assert Measures(h, a, b, ms[0]);
    SamePrints(h, a.content, b.content, s, t, ms[0].source, ms[0].target);
    SingleMeasureValid(h, ms);
  }

  /** Entries under the one-byte keys from `first` to `first` + n - 1. */
  function Numbered(first: Byte, n: nat): seq<Item>
    requires first + n <= 256
  {
    seq(n, i requires 0 <= i < n => Item([first + i], []))
  }

  /** The content a list of entries spells out. */
  function Spelled(items: seq<Item>): Content {
    if items == [] then map[] else Spelled(items[..|items| - 1])[items[|items| - 1].key := items[|items| - 1].value]
  }

  lemma KeyInAppended(items: seq<Item>, n: nat, k: Bytes)
    requires n < |items| && (k == items[n].key || exists i :: 0 <= i < |items[..n]| && items[..n][i].key == k)
    ensures exists i :: 0 <= i < |items| && items[i].key == k
  {
    if k != items[n].key {
      var i :| 0 <= i < |items[..n]| && items[..n][i].key == k;
      assert items[i].key == k;
    }
  }

  lemma {:induction false} SpelledItems(items: seq<Item>)
    requires Ascending(items)
    ensures IsItems(Spelled(items), items)
  {
    if items != [] {
      var n := |items| - 1;
      SpelledItems(items[..n]);
      forall i | 0 <= i < |items|
        ensures items[i].key in Spelled(items) && Spelled(items)[items[i].key] == items[i].value
      {
        if i < n {
          LessTotal(items[i].key, items[n].key);
          assert items[..n][i] == items[i];
        }
      }
      forall k | k in Spelled(items) ensures exists i :: 0 <= i < |items| && items[i].key == k {
        if k != items[n].key { assert k in Spelled(items[..n]); }
        KeyInAppended(items, n, k);
      }
    }
  }

  lemma OneByteOrder(a: Byte, b: Byte)
    ensures Less([], [a]) && (Less([a], [b]) <==> a < b)
  {
    assert [a][1..] == [] && [b][1..] == [];
  }

  /** An empty key, a key of byte 1, and 38 keys after it are in order, whatever the values. */
  lemma FortyAscending(u: Bytes, v: Bytes)
    ensures Ascending([Item([], u), Item([1], v)] + Numbered(2, 38))
  {
    var items := [Item([], u), Item([1], v)] + Numbered(2, 38);
    forall i, j | 0 <= i < j < |items| ensures Less(items[i].key, items[j].key) {
      assert items[j].key == [j];
      OneByteOrder(i, j);
      if i > 0 { assert items[i].key == [i]; }
    }
  }

  /** So for every hash there are two contents of forty entries that differ and are accepted as equal. */
  lemma NulBytesExample(h: Hash) returns (a: Snapshot, b: Snapshot, e: Evidence)
    ensures IsEvidence(h, [a], [b], e) && e.IsValid() && a.content != b.content && |a.content| == |b.content| == 40
  {
    var rest := Numbered(2, 38);
    var s, t := Misread([], [], [1], [], [1], [], rest), Reread([], [], [1], [], [1], [], rest);
    FortyAscending(s[0].value, s[1].value);
    FortyAscending(t[0].value, t[1].value);
    SpelledItems(s);
    SpelledItems(t);
    a, b := Snapshot(0, Spelled(s)), Snapshot(0, Spelled(t));
    ItemsCount(a.content, s);
    ItemsCount(b.content, t);
    e := EvidenceExists(h, [a], [b]);
    NulBytesDefeatValidation(h, [], [], [1], [], [1], [], rest, a, b, e);
  }

  lemma SamePrints(h: Hash, a: Content, b: Content, s: seq<Item>, t: seq<Item>, p: Print, q: Print)
    requires IsItems(a, s) && IsItems(b, t) && Encode(s) == Encode(t) && |s| == |t|
    requires IsPrint(h, a, p) && IsPrint(h, b, q)
    ensures p.count == q.count && p.digest == q.digest
  {
    var s' :| IsItems(a, s') && p.digest == h(Encode(s')) && p.count == |a|;
    var t' :| IsItems(b, t') && q.digest == h(Encode(t')) && q.count == |b|;
    ItemsUnique(a, s, s');
    ItemsUnique(b, t, t');
    ItemsCount(a, s);
    ItemsCount(b, t);
  }

  lemma SingleMeasureValid(h: Hash, ms: seq<Measure>)
    requires |ms| == 1 && ms[0].source.count == ms[0].target.count && ms[0].source.digest == ms[0].target.digest
    requires ms[0].recall >= 0.95
    ensures Collect(h, ms).IsValid()
  {
    assert SourceCounts(ms) == TargetCounts(ms) && SourceDigests(ms) == TargetDigests(ms);
    assert SourceVersions(ms) == TargetVersions(ms);
    var recalls := Recalls(ms);
    assert recalls[0] == ms[0].recall && recalls[..0] == [] && Min(recalls[..0]) == 1.0;
    assert Min(recalls) == if recalls[0] < 1.0 then recalls[0] else 1.0;
  }
}
