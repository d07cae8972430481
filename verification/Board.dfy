/** The replicated last-writer-wins map: one replica's operations (rust/telesthete/src/board.rs). */
module Board {
  import opened BigEndian

  type Text = seq<byte>

  /** The string order of the source: byte by byte, a proper prefix first. */
  predicate TextLess(a: Text, b: Text)
  {
    b != [] && (a == [] || a[0] < b[0] || (a[0] == b[0] && TextLess(a[1..], b[1..])))
  }

  lemma {:induction false} TextIrreflexive(a: Text)
    ensures !TextLess(a, a)
  {
    if a != [] { TextIrreflexive(a[1..]); }
  }

  lemma {:induction false} TextTransitive(a: Text, b: Text, c: Text)
    requires TextLess(a, b) && TextLess(b, c)
    ensures TextLess(a, c)
  {
    if a != [] && b[0] == c[0] && a[0] == b[0] { TextTransitive(a[1..], b[1..], c[1..]); }
  }

  lemma {:induction false} TextTotal(a: Text, b: Text)
    ensures TextLess(a, b) || a == b || TextLess(b, a)
  {
    if a != [] && b != [] && a[0] == b[0] {
      TextTotal(a[1..], b[1..]);
      assert a == [a[0]] + a[1..] && b == [b[0]] + b[1..];
    }
  }

  datatype Value = Null | Json(text: Text)

  /** `(lamport, actor)`, compared as a pair. */
  datatype Version = Version(lamport: nat, actor: Text)

  predicate Older(v: Version, w: Version)
  {
    v.lamport < w.lamport || (v.lamport == w.lamport && TextLess(v.actor, w.actor))
  }

  predicate NotNewer(v: Version, w: Version)
  {
    v == w || Older(v, w)
  }

  lemma VersionOrder(v: Version, w: Version)
    ensures Older(v, w) || v == w || Older(w, v)
    ensures Older(v, w) ==> v != w && !Older(w, v)
  {
    TextTotal(v.actor, w.actor);
    TextIrreflexive(v.actor);
    if TextLess(v.actor, w.actor) && TextLess(w.actor, v.actor) {
      TextTransitive(v.actor, w.actor, v.actor);
    }
  }

  lemma OlderTransitive(u: Version, v: Version, w: Version)
    requires NotNewer(u, v) && NotNewer(v, w)
    ensures NotNewer(u, w)
  {
    if Older(u, v) && Older(v, w) && u.lamport == w.lamport {
      TextTransitive(u.actor, v.actor, w.actor);
    }
  }

  datatype Entry = Entry(value: Value, version: Version, deleted: bool)

  /** The SET payload: one write, local or relayed. */
  datatype Write = Write(key: Text, value: Value, version: Version, deleted: bool)

  function EntryOf(w: Write): Entry { Entry(w.value, w.version, w.deleted) }

  function WriteOf(key: Text, e: Entry): Write { Write(key, e.value, e.version, e.deleted) }

  type Entries = map<Text, Entry>

  datatype Replica = Replica(actor: Text, entries: Entries, lamport: nat)

  function New(actor: Text): Replica { Replica(actor, map[], 0) }

  /** A local write or delete: bump the clock, stamp the entry. */
  function LocalWrite(r: Replica, key: Text, value: Value, deleted: bool): (Replica, Write)
  {
    var w := Write(key, value, Version(r.lamport + 1, r.actor), deleted);
    (r.(lamport := r.lamport + 1, entries := r.entries[key := EntryOf(w)]), w)
  }

  function Set(r: Replica, key: Text, value: Value): (Replica, Write) { LocalWrite(r, key, value, false) }

  /** A delete leaves a tombstone, so that it spreads like any other write. */
  function Delete(r: Replica, key: Text): (Replica, Write) { LocalWrite(r, key, Null, true) }

  /** What a reader sees under a key: nothing if it was never written or its tombstone is what is left. */
  function Get(entries: Entries, key: Text): Option<Value>
  {
    if key in entries && !entries[key].deleted then Some(entries[key].value) else None
  }

  /** Everything a reader sees. */
  function Items(entries: Entries): map<Text, Value>
  {
    map k | k in entries && !entries[k].deleted :: entries[k].value
  }

  function Max(a: nat, b: nat): nat { if a < b then b else a }

  predicate Accepts(entries: Entries, w: Write)
  {
    w.key in entries ==> !NotNewer(w.version, entries[w.key].version)
  }

  /** The strictly newer write wins; the clock advances either way. */
  function Merge(r: Replica, w: Write): Replica
  {
    r.(lamport := Max(r.lamport, w.version.lamport),
       entries := if Accepts(r.entries, w) then r.entries[w.key := EntryOf(w)] else r.entries)
  }

  function MergeAll(r: Replica, ws: seq<Write>): Replica
  {
    if ws == [] then r else Merge(MergeAll(r, ws[..|ws| - 1]), ws[|ws| - 1])
  }

  // ---- Sorted iteration, digest and snapshot

  ghost predicate IsLeast(k: Text, keys: set<Text>)
  {
    k in keys && forall j :: j in keys && j != k ==> TextLess(k, j)
  }

  lemma {:induction false} LeastExists(keys: set<Text>)
    requires keys != {}
    ensures exists k :: IsLeast(k, keys)
    decreases keys
  {
    var k :| k in keys;
    if keys == {k} {
      assert IsLeast(k, keys);
    } else {
      LeastExists(keys - {k});
      var m :| IsLeast(m, keys - {k});
      TextTotal(k, m);
      if TextLess(k, m) {
        forall j | j in keys && j != k ensures TextLess(k, j) {
          if j != m { TextTransitive(k, m, j); }
        }
        assert IsLeast(k, keys);
      } else {
        assert IsLeast(m, keys);
      }
    }
  }

  lemma LeastUnique(j: Text, k: Text, keys: set<Text>)
    requires IsLeast(j, keys) && IsLeast(k, keys)
    ensures j == k
  {
    if j != k {
      TextTransitive(j, k, j);
      TextIrreflexive(j);
    }
  }

  ghost function Least(keys: set<Text>): (k: Text)
    requires keys != {}
    ensures IsLeast(k, keys)
  {
    LeastExists(keys);
    var k :| IsLeast(k, keys);
    k
  }

  /** All keys in ascending order, as the source's tree map iterates them. */
  ghost function SortedKeys(keys: set<Text>): seq<Text>
    decreases keys
  {
    if keys == {} then [] else [Least(keys)] + SortedKeys(keys - {Least(keys)})
  }

  /** `key || lamport (8 bytes) || actor || deleted`: no lengths, no value. */
  function Stamp(key: Text, version: Version, deleted: bool): Text
  {
    key + ToBytes(version.lamport, 8) + version.actor + [if deleted then 1 else 0]
  }

  ghost function Stamps(entries: Entries, keys: seq<Text>): Text
    requires forall k :: k in keys ==> k in entries
  {
    if keys == [] then []
    else
      var k := keys[0];
      Stamp(k, entries[k].version, entries[k].deleted) + Stamps(entries, keys[1..])
  }

  lemma {:induction false} SortedKeysAreKeys(keys: set<Text>)
    ensures forall k :: k in SortedKeys(keys) <==> k in keys
    decreases keys
  {
    if keys != {} {
      SortedKeysAreKeys(keys - {Least(keys)});
    }
  }

  ghost function Preimage(entries: Entries): Text
  {
    SortedKeysAreKeys(entries.Keys);
    Stamps(entries, SortedKeys(entries.Keys))
  }

  /** The digest under whatever hash is in use. */
  ghost function Digest(entries: Entries, hash: Text -> Text): (nat, Text)
  {
    (|entries|, hash(Preimage(entries)))
  }

  /** A DIGEST probe that differs from our own digest is answered with SYNC_REQ. */
  ghost predicate AsksForSync(entries: Entries, probe: (nat, Text), hash: Text -> Text)
  {
    probe != Digest(entries, hash)
  }

  ghost function Writes(entries: Entries): set<Write>
  {
    set k | k in entries :: WriteOf(k, entries[k])
  }

  /** A SNAPSHOT carries exactly the entries, tombstones included; here in any order and with any repeats. */
  ghost predicate IsSnapshot(ws: seq<Write>, entries: Entries)
  {
    && (forall i :: 0 <= i < |ws| ==> ws[i].key in entries && EntryOf(ws[i]) == entries[ws[i].key])
    && (forall k :: k in entries ==> WriteOf(k, entries[k]) in ws)
  }
}
