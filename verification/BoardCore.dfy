/** The mutable board core (rust/telesthete/src/board.rs), against the operations in `Board`. */
module BoardObject {
  import opened BigEndian
  import Spec = Board

  class BoardCore {
    const actor: Spec.Text
    var entries: Spec.Entries
    var lamport: nat

    ghost function Value(): Spec.Replica
      reads this
    {
      Spec.Replica(actor, entries, lamport)
    }

    constructor (actor: Spec.Text)
      ensures Value() == Spec.New(actor)
    {
      this.actor := actor;
      entries, lamport := map[], 0;
    }

    method Set(key: Spec.Text, value: Spec.Value) returns (w: Spec.Write)
      modifies this
      ensures (Value(), w) == Spec.Set(old(Value()), key, value)
    {
      lamport := lamport + 1;
      var entry := Spec.Entry(value, Spec.Version(lamport, actor), false);
      w := Spec.WriteOf(key, entry);
      entries := entries[key := entry];
    }

    method Delete(key: Spec.Text) returns (w: Spec.Write)
      modifies this
      ensures (Value(), w) == Spec.Delete(old(Value()), key)
    {
      lamport := lamport + 1;
      var entry := Spec.Entry(Spec.Null, Spec.Version(lamport, actor), true);
      w := Spec.WriteOf(key, entry);
      entries := entries[key := entry];
    }

    /** The live value under a key, if any. */
    method Get(key: Spec.Text) returns (value: Option<Spec.Value>)
      ensures value == Spec.Get(entries, key)
    {
      if key !in entries || entries[key].deleted {
        return None;
      }
      return Some(entries[key].value);
    }

    /** All live pairs, collected one key at a time. */
    method Items() returns (items: map<Spec.Text, Spec.Value>)
      ensures items == Spec.Items(entries)
    {
      items := map[];
      var todo := entries.Keys;
      while todo != {}
        invariant todo <= entries.Keys && items == Spec.Items(entries - todo)
        decreases todo
      {
        var k :| k in todo;
        if !entries[k].deleted {
          items := items[k := entries[k].value];
        }
        assert entries - (todo - {k}) == (entries - todo)[k := entries[k]];
        todo := todo - {k};
      }
      assert entries - {} == entries;
    }

    method MergeEntry(w: Spec.Write) returns (changed: bool)
      modifies this
      ensures Value() == Spec.Merge(old(Value()), w)
      ensures changed <==> entries != old(entries)
    {
      lamport := Spec.Max(lamport, w.version.lamport);
      if w.key in entries {
        Spec.VersionOrder(w.version, entries[w.key].version);
        if Spec.NotNewer(w.version, entries[w.key].version) {
          return false;
        }
      }
      entries := entries[w.key := Spec.EntryOf(w)];
      assert w.key in entries && entries[w.key].version == w.version;
      return true;
    }

    /** The whole SNAPSHOT message, under one lock. */
    method MergeSnapshot(ws: seq<Spec.Write>)
      modifies this
      ensures Value() == Spec.MergeAll(old(Value()), ws)
    {
      var i := 0;
      while i < |ws|
        invariant 0 <= i <= |ws| && Value() == Spec.MergeAll(old(Value()), ws[..i])
      {
        var _ := MergeEntry(ws[i]);
        i := i + 1;
        assert ws[..i][..i - 1] == ws[..i - 1];
      }
      assert ws[..i] == ws;
    }

    /** The smallest of some keys, by one pass over them. */
    method LeastKey(keys: set<Spec.Text>) returns (k: Spec.Text)
      requires keys != {}
      ensures Spec.IsLeast(k, keys) && k == Spec.Least(keys)
    {
      k :| k in keys;
      var todo := keys - {k};
      while todo != {}
        invariant todo <= keys && k in keys - todo
        invariant forall j :: j in keys - todo && j != k ==> Spec.TextLess(k, j)
        decreases todo
      {
        var j :| j in todo;
        Spec.TextTotal(j, k);
        if Spec.TextLess(j, k) {
          forall i | i in keys - todo ensures i != j && Spec.TextLess(j, i) {
            if i != k { Spec.TextTransitive(j, k, i); }
          }
          k := j;
        }
        todo := todo - {j};
      }
      Spec.LeastUnique(k, Spec.Least(keys), keys);
    }

    /** Keys in the tree map's own order. */
    method Keys() returns (keys: seq<Spec.Text>)
      ensures keys == Spec.SortedKeys(entries.Keys)
    {
      keys := [];
      var todo := entries.Keys;
      while todo != {}
        invariant todo <= entries.Keys && keys + Spec.SortedKeys(todo) == Spec.SortedKeys(entries.Keys)
        decreases todo
      {
        var k := LeastKey(todo);
        assert Spec.SortedKeys(todo) == [k] + Spec.SortedKeys(todo - {k});
        assert keys + ([k] + Spec.SortedKeys(todo - {k})) == (keys + [k]) + Spec.SortedKeys(todo - {k});
        keys := keys + [k];
        todo := todo - {k};
      }
      assert keys + [] == keys;
    }

    method Digest(hash: Spec.Text -> Spec.Text) returns (count: nat, h: Spec.Text)
      ensures (count, h) == Spec.Digest(entries, hash)
    {
      var keys := Keys();
      Spec.SortedKeysAreKeys(entries.Keys);
      var preimage := [];
      var rest := keys;
      while rest != []
        invariant forall k :: k in rest ==> k in entries
        invariant preimage + Spec.Stamps(entries, rest) == Spec.Preimage(entries)
        decreases |rest|
      {
        var k := rest[0];
        assert k in rest && forall j :: j in rest[1..] ==> j in rest;
        var stamp := Spec.Stamp(k, entries[k].version, entries[k].deleted);
        assert preimage + (stamp + Spec.Stamps(entries, rest[1..]))
            == (preimage + stamp) + Spec.Stamps(entries, rest[1..]);
        preimage := preimage + stamp;
        rest := rest[1..];
      }
      assert preimage + [] == preimage;
      return |entries|, hash(preimage);
    }

    method Snapshot() returns (ws: seq<Spec.Write>)
      ensures Spec.IsSnapshot(ws, entries) && |ws| == |Spec.SortedKeys(entries.Keys)|
      ensures forall i :: 0 <= i < |ws| ==> ws[i].key == Spec.SortedKeys(entries.Keys)[i]
    {
      var keys := Keys();
      Spec.SortedKeysAreKeys(entries.Keys);
      ws := [];
      for i := 0 to |keys|
        invariant |ws| == i
        invariant forall j :: 0 <= j < i ==> ws[j].key == keys[j] && keys[j] in entries && EntryIs(ws[j], entries)
      {
        assert keys[i] in keys;
        ws := ws + [Spec.WriteOf(keys[i], entries[keys[i]])];
      }
      forall k | k in entries ensures Spec.WriteOf(k, entries[k]) in ws {
        var i :| 0 <= i < |keys| && keys[i] == k;
        assert EntryIs(ws[i], entries);
        assert ws[i] == Spec.WriteOf(k, entries[k]);
      }
    }

    static predicate EntryIs(w: Spec.Write, entries: Spec.Entries)
    {
      w.key in entries && Spec.EntryOf(w) == entries[w.key]
    }
  }
}
