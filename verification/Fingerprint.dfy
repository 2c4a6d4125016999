/**
Content fingerprints.  The hash is a parameter: wherever equal digests are read back as
equal content, the alternative names the two different encodings that share a digest.
*/
module Fingerprint {
  import opened Prelude
  import opened StorageAdapter

  type Hash = Bytes -> Bytes

  const DIGEST_LENGTH: nat := 64

  ghost predicate FixedLength(h: Hash) {
    forall x :: |h(x)| == DIGEST_LENGTH
  }

  ghost predicate Collides(h: Hash, x: Bytes, y: Bytes) {
    x != y && h(x) == h(y)
  }

  // ----- Keys in order -----

  predicate Less(a: Bytes, b: Bytes) {
    b != [] && (a == [] || a[0] < b[0] || (a[0] == b[0] && Less(a[1..], b[1..])))
  }

  lemma {:induction false} LessTransitive(a: Bytes, b: Bytes, c: Bytes)
    requires Less(a, b) && Less(b, c)
    ensures Less(a, c)
  {
    if a != [] && a[0] == b[0] && b[0] == c[0] { LessTransitive(a[1..], b[1..], c[1..]); }
  }

  lemma {:induction false} LessTotal(a: Bytes, b: Bytes)
    ensures Less(a, b) || a == b || Less(b, a)
    ensures !(Less(a, b) && Less(b, a)) && !Less(a, a)
  {
    if a != [] && b != [] {
      LessTotal(a[1..], b[1..]);
      if a[0] == b[0] && a[1..] == b[1..] { assert a == [a[0]] + a[1..] == b; }
    }
    LessIrreflexive(a);
  }

  lemma {:induction false} LessIrreflexive(a: Bytes)
    ensures !Less(a, a)
  {
    if a != [] { LessIrreflexive(a[1..]); }
  }

  datatype Item = Item(key: Bytes, value: Bytes)

  ghost predicate Ascending(items: seq<Item>) {
    forall i, j :: 0 <= i < j < |items| ==> Less(items[i].key, items[j].key)
  }

  /** `items` are the entries of the content in key order. */
  ghost predicate IsItems(content: Content, items: seq<Item>) {
    && Ascending(items)
    && (forall i :: 0 <= i < |items| ==> items[i].key in content && content[items[i].key] == items[i].value)
    && (forall k :: k in content ==> exists i :: 0 <= i < |items| && items[i].key == k)
  }

  /** The byte string that is hashed: key, NUL, value, NUL for each entry. */
  function Encode(items: seq<Item>): Bytes {
    if items == [] then []
    else items[0].key + [0] + items[0].value + [0] + Encode(items[1..])
  }

  ghost predicate NulFree(b: Bytes) {
    0 !in b
  }

  ghost predicate ItemsNulFree(items: seq<Item>) {
    forall i :: 0 <= i < |items| ==> NulFree(items[i].key) && NulFree(items[i].value)
  }

  ghost predicate ContentNulFree(content: Content) {
    forall k :: k in content ==> NulFree(k) && NulFree(content[k])
  }

  // ----- The encoding can be read back -----

  /** Up to the first NUL there is only one way to read. */
  lemma SplitAtNul(a: Bytes, x: Bytes, b: Bytes, y: Bytes)
    requires a + [0] + x == b + [0] + y && NulFree(a) && NulFree(b)
    ensures a == b && x == y
  {
    var whole := a + [0] + x;
    assert whole[|a|] == 0 && forall i :: 0 <= i < |a| ==> whole[i] == a[i] && a[i] in a;
    assert whole[|b|] == 0 && forall i :: 0 <= i < |b| ==> whole[i] == b[i] && b[i] in b;
    assert |a| == |b|;
    assert whole[..|a|] == a && whole[..|b|] == b;
    assert whole[|a| + 1..] == x && (b + [0] + y)[|b| + 1..] == y;
  }

  lemma {:induction false} EncodeInjective(s: seq<Item>, t: seq<Item>)
    requires ItemsNulFree(s) && ItemsNulFree(t) && Encode(s) == Encode(t)
    ensures s == t
  {
    if s != [] && t != [] {
      var x, y := s[0].value + [0] + Encode(s[1..]), t[0].value + [0] + Encode(t[1..]);
      assert Encode(s) == s[0].key + [0] + x && Encode(t) == t[0].key + [0] + y;
      SplitAtNul(s[0].key, x, t[0].key, y);
      SplitAtNul(s[0].value, Encode(s[1..]), t[0].value, Encode(t[1..]));
      EncodeInjective(s[1..], t[1..]);
      assert s == [s[0]] + s[1..] && t == [t[0]] + t[1..];
    }
  }

  lemma ItemsDetermineContent(a: Content, b: Content, items: seq<Item>)
    requires IsItems(a, items) && IsItems(b, items)
    ensures a == b
  {}

  lemma {:induction false} ItemsUnique(content: Content, s: seq<Item>, t: seq<Item>)
    requires IsItems(content, s) && IsItems(content, t)
    ensures s == t
  {
    if s != [] || t != [] {
      FirstItem(content, s, t);
      assert s[1..] == t[1..] by {
        RestItems(content, s);
        RestItems(content, t);
        ItemsUnique(content - {s[0].key}, s[1..], t[1..]);
      }
      assert s == [s[0]] + s[1..] && t == [t[0]] + t[1..];
    }
  }

  lemma FirstKey(content: Content, s: seq<Item>, t: seq<Item>)
    requires IsItems(content, s) && IsItems(content, t) && s != []
    ensures t != [] && (t[0].key == s[0].key || Less(t[0].key, s[0].key))
  {
    assert s[0].key in content;
    var i :| 0 <= i < |t| && t[i].key == s[0].key;
  }

  lemma FirstItem(content: Content, s: seq<Item>, t: seq<Item>)
    requires IsItems(content, s) && IsItems(content, t) && (s != [] || t != [])
    ensures s != [] && t != [] && s[0] == t[0]
  {
    if s != [] { FirstKey(content, s, t); }
    FirstKey(content, t, s);
    FirstKey(content, s, t);
    LessTotal(s[0].key, t[0].key);
  }

  lemma RestItems(content: Content, s: seq<Item>)
    requires IsItems(content, s) && s != []
    ensures IsItems(content - {s[0].key}, s[1..])
  {
    forall i | 0 <= i < |s[1..]| ensures s[1..][i].key != s[0].key {
      LessTotal(s[0].key, s[i + 1].key);
    }
    forall k | k in content && k != s[0].key
      ensures exists i :: 0 <= i < |s[1..]| && s[1..][i].key == k
    {
      var i :| 0 <= i < |s| && s[i].key == k;
      assert s[1..][i - 1].key == k;
    }
  }

  /** Every set of keys has a first one. */
  lemma {:induction false} LeastExists(keys: set<Bytes>) returns (least: Bytes)
    requires keys != {}
    ensures least in keys && forall k :: k in keys && k != least ==> Less(least, k)
  {
    var x :| x in keys;
    if keys == {x} { return x; }
    var y := LeastExists(keys - {x});
    LessTotal(x, y);
    if Less(x, y) {
      forall k | k in keys && k != x ensures Less(x, k) {
        if k != y { LessTransitive(x, y, k); }
      }
      return x;
    }
    return y;
  }

  lemma AscendingCons(first: Item, rest: seq<Item>)
    requires Ascending(rest) && forall i :: 0 <= i < |rest| ==> Less(first.key, rest[i].key)
    ensures Ascending([first] + rest)
  {
    var items := [first] + rest;
    forall i, j | 0 <= i < j < |items| ensures Less(items[i].key, items[j].key) {
      if i > 0 { assert items[i] == rest[i - 1] && items[j] == rest[j - 1]; } else { assert items[j] == rest[j - 1]; }
    }
  }

  lemma KeyInCons(first: Item, rest: seq<Item>, k: Bytes)
    requires k == first.key || exists i :: 0 <= i < |rest| && rest[i].key == k
    ensures exists i :: 0 <= i < |[first] + rest| && ([first] + rest)[i].key == k
  {
    var items := [first] + rest;
    if k == first.key {
      assert items[0].key == k;
    } else {
      var i :| 0 <= i < |rest| && rest[i].key == k;
      assert items[i + 1].key == k;
    }
  }

  lemma LeastFirst(content: Content, least: Bytes, rest: seq<Item>)
    requires least in content && forall k :: k in content && k != least ==> Less(least, k)
    requires IsItems(content - {least}, rest)
    ensures IsItems(content, [Item(least, content[least])] + rest)
  {
    var first := Item(least, content[least]);
    var items := [first] + rest;
    AscendingCons(first, rest);
    forall i | 0 <= i < |items| ensures items[i].key in content && content[items[i].key] == items[i].value {
      if i > 0 { assert items[i] == rest[i - 1]; }
    }
    forall k | k in content ensures exists i :: 0 <= i < |items| && items[i].key == k {
      if k != least { assert k in content - {least}; }
      KeyInCons(first, rest, k);
    }
  }

  /** Every content has its list of entries in key order. */
  lemma {:induction false} ItemsExist(content: Content) returns (items: seq<Item>)
    ensures IsItems(content, items)
    decreases |content|
  {
    if content == map[] { return []; }
    assert content.Keys != {};
    var least := LeastExists(content.Keys);
    var rest := ItemsExist(content - {least});
    LeastFirst(content, least, rest);
    return [Item(least, content[least])] + rest;
  }

  // ----- One adapter's fingerprint -----

  datatype Print = Print(count: nat, digest: Bytes, version: nat)

  ghost predicate IsPrint(h: Hash, content: Content, p: Print) {
    exists items :: IsItems(content, items) && p.digest == h(Encode(items)) && p.count == |content|
  }

  method LeastKey(keys: set<Bytes>) returns (least: Bytes)
    requires keys != {}
    ensures least in keys && forall k :: k in keys && k != least ==> Less(least, k)
  {
    least :| least in keys;
    var todo := keys - {least};
    while todo != {}
      invariant todo <= keys && least in keys && least !in todo
      invariant forall k :: k in keys - todo && k != least ==> Less(least, k)
    {
      var k :| k in todo;
      LessTotal(k, least);
      if Less(k, least) {
        forall j | j in keys - todo && j != least ensures Less(k, j) { LessTransitive(k, least, j); }
        least := k;
      }
      todo := todo - {k};
    }
  }

  method SortedItems(content: Content) returns (items: seq<Item>)
    ensures IsItems(content, items)
  {
    items := [];
    var todo := content.Keys;
    while todo != {}
      invariant todo <= content.Keys
      invariant Ascending(items)
      invariant forall i, k :: 0 <= i < |items| && k in todo ==> Less(items[i].key, k)
      invariant forall i :: 0 <= i < |items| ==> items[i].key in content && content[items[i].key] == items[i].value
      invariant forall k :: k in content && k !in todo ==> exists i :: 0 <= i < |items| && items[i].key == k
    {
      var k := LeastKey(todo);
      ghost var before := items;
      items := items + [Item(k, content[k])];
      todo := todo - {k};
      forall j | j in content && j !in todo
        ensures exists i :: 0 <= i < |items| && items[i].key == j
      {
        if j == k {
          assert items[|before|].key == j;
        } else {
          var i :| 0 <= i < |before| && before[i].key == j;
          assert items[i].key == j;
        }
      }
    }
  }

  /** The digest is fed one entry at a time. */
  method Digest(h: Hash, items: seq<Item>) returns (digest: Bytes)
    ensures digest == h(Encode(items))
  {
    var updated: Bytes := [];
    for i := 0 to |items|
      invariant updated + Encode(items[i..]) == Encode(items)
    {
      assert items[i..][1..] == items[i + 1..] && items[i..][0] == items[i];
      updated := updated + items[i].key + [0] + items[i].value + [0];
    }
    assert items[|items|..] == [] && updated == Encode(items);
    return h(updated);
  }

  /** The adapter is only read here, so its tenant content and watermark are passed by value. */
  method TenantFingerprint(h: Hash, content: Content, watermark: nat) returns (p: Print)
    ensures IsPrint(h, content, p) && p.version == watermark
  {
    var items := SortedItems(content);
    var digest := Digest(h, items);
    return Print(|content|, digest, watermark);
  }
}
