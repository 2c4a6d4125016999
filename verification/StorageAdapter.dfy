/** A tenant-prefixed store with a change feed, as the migration worker sees it. */
module StorageAdapter {
  import opened Prelude

  type Byte = b: int | 0 <= b < 256

  type Bytes = seq<Byte>

  /** Keys are held as their UTF-8 bytes. */
  type Objects = map<(string, Bytes), Bytes>

  type Content = map<Bytes, Bytes>

  /** One entry of the change feed; None is a deletion. */
  datatype Change = Change(sequence: nat, tenant: string, key: Bytes, value: Option<Bytes>)

  datatype Write = Write(key: Bytes, value: Option<Bytes>)

  datatype Store = Store(objects: Objects, watermark: nat, changes: seq<Change>)

  function ContentOf(objects: Objects, tenant: string): (content: Content)
    ensures forall k :: k in content <==> (tenant, k) in objects
    ensures forall k :: k in content ==> content[k] == objects[(tenant, k)]
  {
    map p | p in objects && p.0 == tenant :: p.1 := objects[p]
  }

  function Lookup(objects: Objects, tenant: string, key: Bytes): Option<Bytes> {
    if (tenant, key) in objects then Some(objects[(tenant, key)]) else None
  }

  /** Two stores hold the same for a tenant exactly when every key looks up the same. */
  lemma ContentByKey(a: Objects, b: Objects, tenant: string)
    ensures ContentOf(a, tenant) == ContentOf(b, tenant) <==> forall k :: Lookup(a, tenant, k) == Lookup(b, tenant, k)
  {
    var x, y := ContentOf(a, tenant), ContentOf(b, tenant);
    if x == y {
      forall k ensures Lookup(a, tenant, k) == Lookup(b, tenant, k) {
        assert k in x <==> k in y;
      }
    }
    if forall k :: Lookup(a, tenant, k) == Lookup(b, tenant, k) {
      forall k ensures k in x <==> k in y { assert Lookup(a, tenant, k) == Lookup(b, tenant, k); }
      forall k | k in x ensures x[k] == y[k] { assert Lookup(a, tenant, k) == Lookup(b, tenant, k); }
    }
  }

  lemma ContentIs(objects: Objects, tenant: string, content: Content)
    requires forall k :: k in content <==> (tenant, k) in objects
    requires forall k :: k in content ==> content[k] == objects[(tenant, k)]
    ensures content == ContentOf(objects, tenant)
  {}

  // ----- What the operations do -----

  function Put(s: Store, tenant: string, key: Bytes, value: Bytes): Store {
    Store(s.objects[(tenant, key) := value], s.watermark + 1,
          s.changes + [Change(s.watermark + 1, tenant, key, Some(value))])
  }

  /** The deletions of an erasure, in the order the keys were met. */
  function Deletions(sequence: nat, tenant: string, keys: seq<Bytes>): seq<Change> {
    if keys == [] then []
    else Deletions(sequence, tenant, keys[..|keys| - 1]) + [Change(sequence, tenant, keys[|keys| - 1], None)]
  }

  /** `keys` lists the tenant's keys in some order. */
  ghost predicate Enumerates(keys: seq<Bytes>, objects: Objects, tenant: string) {
    forall k :: k in keys <==> (tenant, k) in objects
  }

  function Without(objects: Objects, tenant: string): Objects {
    map p | p in objects && p.0 != tenant :: objects[p]
  }

  function Erase(s: Store, tenant: string, keys: seq<Bytes>): Store {
    Store(Without(s.objects, tenant), s.watermark + 1, s.changes + Deletions(s.watermark + 1, tenant, keys))
  }

  function ApplyOne(objects: Objects, tenant: string, w: Write): Objects {
    if w.value.None? then objects - {(tenant, w.key)} else objects[(tenant, w.key) := w.value.value]
  }

  function Apply(objects: Objects, tenant: string, writes: seq<Write>): Objects {
    if writes == [] then objects
    else ApplyOne(Apply(objects, tenant, writes[..|writes| - 1]), tenant, writes[|writes| - 1])
  }

  /** The tenant's part of the feed after a watermark. */
  function ChangesSince(changes: seq<Change>, tenant: string, watermark: nat): seq<Write> {
    if changes == [] then []
    else
      var c := changes[|changes| - 1];
      ChangesSince(changes[..|changes| - 1], tenant, watermark)
      + if c.tenant == tenant && c.sequence > watermark then [Write(c.key, c.value)] else []
  }

  // ----- The adapter itself -----

  class Adapter {
    var objects: Objects
    var watermark: nat
    var changes: seq<Change>

    ghost function View(): Store
      reads this
    {
      Store(objects, watermark, changes)
    }

    constructor ()
      ensures View() == Store(map[], 0, [])
    {
      objects, watermark, changes := map[], 0, [];
    }

    method PutObject(tenant: string, key: Bytes, value: Bytes)
      modifies this
      ensures View() == Put(old(View()), tenant, key, value)
    {
      objects := objects[(tenant, key) := value];
      watermark := watermark + 1;
      changes := changes + [Change(watermark, tenant, key, Some(value))];
    }

    /** The tenant's keys, each once, in no particular order. */
    method KeysOf(tenant: string) returns (order: seq<Bytes>)
      ensures Enumerates(order, objects, tenant)
      ensures forall i, j :: 0 <= i < j < |order| ==> order[i] != order[j]
    {
      order := [];
      var todo := set p | p in objects && p.0 == tenant;
      ghost var all := todo;
      while todo != {}
        invariant todo <= all
        invariant forall p :: p in todo ==> p.1 !in order
        invariant forall k :: k in order ==> (tenant, k) in all
        invariant forall p :: p in all - todo ==> p.1 in order
        invariant forall i, j :: 0 <= i < j < |order| ==> order[i] != order[j]
      {
        var p :| p in todo;
        order := order + [p.1];
        todo := todo - {p};
      }
    }

    method EraseTenant(tenant: string) returns (ghost keys: seq<Bytes>, count: nat)
      modifies this
      ensures Enumerates(keys, old(objects), tenant) && count == |keys|
      ensures forall i, j :: 0 <= i < j < |keys| ==> keys[i] != keys[j]
      ensures View() == Erase(old(View()), tenant, keys)
    {
      var order := KeysOf(tenant);
      ghost var all := set p | p in objects && p.0 == tenant;
      var i := 0;
      watermark := watermark + 1;
      while i < |order|
        invariant 0 <= i <= |order| && watermark == old(watermark) + 1
        invariant objects == old(objects) - (set p | p in all && p.1 in order[..i])
        invariant changes == old(changes) + Deletions(watermark, tenant, order[..i])
      {
        assert order[..i + 1][..i] == order[..i];
        objects := objects - {(tenant, order[i])};
        changes := changes + [Change(watermark, tenant, order[i], None)];
        i := i + 1;
      }
      assert order[..i] == order;
      return order, |order|;
    }

    /** Every object of the tenant under its bare key and nothing else, with the feed position it belongs to. */
    method SnapshotTenant(tenant: string) returns (at: nat, content: Content)
      ensures at == watermark
      ensures forall k :: k in content <==> (tenant, k) in objects
      ensures forall k :: k in content ==> content[k] == objects[(tenant, k)]
    {
      return watermark, map p | p in objects && p.0 == tenant :: p.1 := objects[p];
    }

    method ReadChangesSince(tenant: string, since: nat) returns (at: nat, writes: seq<Write>)
      ensures at == watermark && writes == ChangesSince(changes, tenant, since)
    {
      writes := [];
      for i := 0 to |changes|
        invariant writes == ChangesSince(changes[..i], tenant, since)
      {
        assert changes[..i + 1][..i] == changes[..i];
        var c := changes[i];
        if c.tenant == tenant && c.sequence > since { writes := writes + [Write(c.key, c.value)]; }
      }
      assert changes[..|changes|] == changes;
      at := watermark;
    }

    /** Copied data is written past the change feed. */
    method ApplyChanges(tenant: string, writes: seq<Write>)
      modifies this`objects
      ensures objects == Apply(old(objects), tenant, writes)
    {
      for i := 0 to |writes|
        invariant objects == Apply(old(objects), tenant, writes[..i])
      {
        assert writes[..i + 1][..i] == writes[..i];
        if writes[i].value.None? {
          objects := objects - {(tenant, writes[i].key)};
        } else {
          objects := objects[(tenant, writes[i].key) := writes[i].value.value];
        }
      }
      assert writes[..|writes|] == writes;
    }
  }
}
