/** What a Board digest tells: always when two maps agree, and within one run exactly when the actor names allow it. */
module BoardDigest {
  import opened BigEndian
  import opened Board
  import opened BoardConvergence

  // ---- Equal versions, equal digests

  ghost predicate SameVersions(d: Entries, e: Entries)
  {
    d.Keys == e.Keys && forall k :: k in d ==> d[k].version == e[k].version && d[k].deleted == e[k].deleted
  }

  lemma {:induction false} SameStamps(d: Entries, e: Entries, keys: seq<Text>)
    requires SameVersions(d, e) && forall k :: k in keys ==> k in d
    ensures Stamps(d, keys) == Stamps(e, keys)
  {
    if keys != [] {
      assert keys[0] in keys && forall k :: k in keys[1..] ==> k in keys;
      SameStamps(d, e, keys[1..]);
    }
  }

  /** Equal version maps give equal digests, so a converged pair stays quiet. */
  lemma ConvergedPairIsQuiet(d: Entries, e: Entries, hash: Text -> Text)
    requires SameVersions(d, e)
    ensures Digest(d, hash) == Digest(e, hash) && !AsksForSync(d, Digest(e, hash), hash)
  {
    SortedKeysAreKeys(d.Keys);
    SameStamps(d, e, SortedKeys(d.Keys));
    assert |d| == |d.Keys| == |e.Keys| == |e|;
  }

  // ---- Stamps, taken apart

  lemma OneKey(m: Entries, k: Text)
    requires m.Keys == {k}
    ensures Preimage(m) == Stamp(k, m[k].version, m[k].deleted) && |m| == 1
  {
    assert SortedKeys({k}) == [k] by {
      assert Least({k}) == k;
      assert {k} - {k} == {};
    }
    var stamp := Stamp(k, m[k].version, m[k].deleted);
    assert Stamps(m, [k]) == stamp + Stamps(m, []) by { assert [k][1..] == []; }
    assert stamp + [] == stamp;
    assert |m| == |m.Keys|;
  }

  lemma {:induction false} SortedKeysCount(keys: set<Text>)
    ensures |SortedKeys(keys)| == |keys|
    decreases keys
  {
    if keys != {} { SortedKeysCount(keys - {Least(keys)}); }
  }

  /** The clock of a stamp that fits its eight bytes can be read back. */
  lemma ClockBytes(n: nat)
    requires n < U64_LIMIT
    ensures |ToBytes(n, 8)| == 8 && FromBytes(ToBytes(n, 8)) == n
  {
    CapacityOfHeaderFields();
    FromToBytes(n, 8);
  }

  lemma {:induction false} ZeroBytes(s: seq<byte>)
    ensures FromBytes(s) == 0 <==> forall i :: 0 <= i < |s| ==> s[i] == 0
  {
    if s != [] {
      ZeroBytes(s[..|s| - 1]);
      assert forall i :: 0 <= i < |s| - 1 ==> s[..|s| - 1][i] == s[i];
    }
  }

  // ---- One entry against one entry

  /** A key that goes on for `n` bytes where the other stops, under an actor that starts `n` bytes later, with the
      clock bytes shifted to match. */
  ghost predicate Overlap(j: Text, v: Version, k: Text, w: Version)
  {
    var n := |k| - |j|;
    && n > 0 && k[..|j|] == j
    && |v.actor| == |w.actor| + n && v.actor[n..] == w.actor
    && ToBytes(v.lamport, 8) + v.actor[..n] == k[|j|..] + ToBytes(w.lamport, 8)
  }

  /** Two stamps are the same bytes exactly when they say the same, or overlap one way or the other. */
  lemma StampsCoincide(j: Text, v: Version, c: bool, k: Text, w: Version, d: bool)
    requires v.lamport < U64_LIMIT && w.lamport < U64_LIMIT
    ensures Stamp(j, v, c) == Stamp(k, w, d)
       <==> c == d && ((j == k && v == w) || Overlap(j, v, k, w) || Overlap(k, w, j, v))
  {
    hide ToBytes, FromBytes;
    if |j| <= |k| {
      StampsCoincideOneWay(j, v, c, k, w, d);
    } else {
      StampsCoincideOneWay(k, w, d, j, v, c);
    }
  }

  lemma StampsCoincideOneWay(j: Text, v: Version, c: bool, k: Text, w: Version, d: bool)
    requires v.lamport < U64_LIMIT && w.lamport < U64_LIMIT && |j| <= |k|
    ensures Stamp(j, v, c) == Stamp(k, w, d) <==> c == d && ((j == k && v == w) || Overlap(j, v, k, w))
  {
    if Stamp(j, v, c) == Stamp(k, w, d) {
      StampParts(j, v, c, k, w, d);
    }
    if c == d && Overlap(j, v, k, w) {
      OverlapStamps(j, v, c, k, w);
    }
  }

  lemma StampParts(j: Text, v: Version, c: bool, k: Text, w: Version, d: bool)
    requires v.lamport < U64_LIMIT && w.lamport < U64_LIMIT && |j| <= |k| && Stamp(j, v, c) == Stamp(k, w, d)
    ensures c == d && ((j == k && v == w) || Overlap(j, v, k, w))
  {
    hide ToBytes, FromBytes;
    ClockBytes(v.lamport);
    ClockBytes(w.lamport);
    var s, n := Stamp(k, w, d), |k| - |j|;
    var t1, t2, x, tail := ToBytes(v.lamport, 8), ToBytes(w.lamport, 8), k[|j|..], w.actor + [if d then 1 else 0];
    assert k == k[..|j|] + x;
    assert j + (t1 + (v.actor + [if c then 1 else 0])) == s == k[..|j|] + (x + (t2 + tail));
    SameLength(j, t1 + (v.actor + [if c then 1 else 0]), k[..|j|], x + (t2 + tail));
    assert |v.actor| == |w.actor| + n;
    var y, z, b := v.actor[..n], v.actor[n..], [if c then 1 else 0];
    assert v.actor == y + z;
    assert t1 + ((y + z) + b) == (t1 + y) + (z + b);
    assert x + (t2 + tail) == (x + t2) + tail;
    SameLength(t1 + y, z + b, x + t2, tail);
    SameLength(z, b, w.actor, [if d then 1 else 0]);
    assert b[0] == [if d then 1 else 0][0];
    if n == 0 {
      SameLength(t1, y, t2, []);
    }
  }

  lemma OverlapStamps(j: Text, v: Version, c: bool, k: Text, w: Version)
    requires Overlap(j, v, k, w)
    ensures Stamp(j, v, c) == Stamp(k, w, c)
  {
    hide ToBytes;
    var n, b := |k| - |j|, [if c then 1 else 0];
    var t1, t2, y, x := ToBytes(v.lamport, 8), ToBytes(w.lamport, 8), v.actor[..n], k[|j|..];
    assert v.actor == y + w.actor && k == j + x;
    Regroup(j, t1, y, w.actor, b);
    RegroupLeft(j, x, t2, w.actor, b);
  }

  lemma Regroup(a: Text, b: Text, c: Text, d: Text, e: Text)
    ensures a + b + (c + d) + e == a + ((b + c) + (d + e))
  {
  }

  lemma RegroupLeft(a: Text, b: Text, c: Text, d: Text, e: Text)
    ensures (a + b) + c + d + e == a + ((b + c) + (d + e))
  {
  }

  /** Boards of one entry each: equal digests exactly when the entries carry the same version or overlap. */
  lemma OneEntryDigests(j: Text, x: Entry, k: Text, y: Entry, hash: Text -> Text)
    requires x.version.lamport < U64_LIMIT && y.version.lamport < U64_LIMIT
    requires hash(Preimage(map[j := x])) == hash(Preimage(map[k := y])) ==>
        Preimage(map[j := x]) == Preimage(map[k := y])
    ensures Digest(map[j := x], hash) == Digest(map[k := y], hash)
       <==> x.deleted == y.deleted && ((j == k && x.version == y.version)
                                       || Overlap(j, x.version, k, y.version) || Overlap(k, y.version, j, x.version))
  {
    hide Overlap, Preimage, Stamp;
    OneKey(map[j := x], j);
    OneKey(map[k := y], k);
    StampsCoincide(j, x.version, x.deleted, k, y.version, y.deleted);
  }

  // ---- Many entries, any two maps: a condition that suffices

  ghost predicate Clash(a: Text, b: Text)
  {
    a < b || b < a
  }

  /** No key of one is a proper prefix of a key of the other, likewise actors, and clocks fit their eight bytes. */
  ghost predicate Apart(d: Entries, e: Entries)
  {
    && (forall j, k :: j in d && k in e ==> !Clash(j, k) && !Clash(d[j].version.actor, e[k].version.actor))
    && (forall j :: j in d ==> d[j].version.lamport < U64_LIMIT)
    && (forall k :: k in e ==> e[k].version.lamport < U64_LIMIT)
  }

  /** Of two texts that start the same text, one starts the other. */
  lemma Prefixes(a: Text, x: Text, b: Text, y: Text)
    requires a + x == b + y
    ensures Clash(a, b) || (a == b && x == y)
  {
    if |a| <= |b| {
      assert a == (a + x)[..|a|] == b[..|a|];
    } else {
      assert b == (b + y)[..|b|] == a[..|b|];
    }
    if |a| == |b| {
      assert x == (a + x)[|a|..] && y == (b + y)[|b|..];
    }
  }

  lemma FirstStamp(j: Text, v: Version, c: bool, x: Text, k: Text, w: Version, d: bool, y: Text)
    requires v.lamport < U64_LIMIT && w.lamport < U64_LIMIT && !Clash(j, k) && !Clash(v.actor, w.actor)
    requires Stamp(j, v, c) + x == Stamp(k, w, d) + y
    ensures j == k && v == w && c == d && x == y
  {
    hide ToBytes, FromBytes, Clash;
    ClockBytes(v.lamport);
    ClockBytes(w.lamport);
    var b1, b2 := [if c then 1 else 0], [if d then 1 else 0];
    var t1, t2 := ToBytes(v.lamport, 8), ToBytes(w.lamport, 8);
    assert j + (t1 + (v.actor + (b1 + x))) == Stamp(j, v, c) + x;
    assert k + (t2 + (w.actor + (b2 + y))) == Stamp(k, w, d) + y;
    Prefixes(j, t1 + (v.actor + (b1 + x)), k, t2 + (w.actor + (b2 + y)));
    SameLength(t1, v.actor + (b1 + x), t2, w.actor + (b2 + y));
    Prefixes(v.actor, b1 + x, w.actor, b2 + y);
    SameLength(b1, x, b2, y);
    assert b1[0] == b2[0];
  }

  lemma SameLength(a: Text, x: Text, b: Text, y: Text)
    requires |a| == |b| && a + x == b + y
    ensures a == b && x == y
  {
    assert a == (a + x)[..|a|] && b == (b + y)[..|a|];
    assert x == (a + x)[|a|..] && y == (b + y)[|a|..];
  }

  lemma {:induction false} StampsDecode(d: Entries, e: Entries, js: seq<Text>, ks: seq<Text>)
    requires Apart(d, e) && |js| == |ks|
    requires (forall k :: k in js ==> k in d) && (forall k :: k in ks ==> k in e)
    requires Stamps(d, js) == Stamps(e, ks)
    ensures js == ks && forall k :: k in js ==> k in e && d[k].version == e[k].version && d[k].deleted == e[k].deleted
  {
    if js != [] {
      hide Stamp, Clash;
      var j, k := js[0], ks[0];
      assert j in js && k in ks;
      assert (forall x :: x in js[1..] ==> x in js) && (forall x :: x in ks[1..] ==> x in ks);
      FirstStamp(j, d[j].version, d[j].deleted, Stamps(d, js[1..]), k, e[k].version, e[k].deleted, Stamps(e, ks[1..]));
      StampsDecode(d, e, js[1..], ks[1..]);
      assert js == [j] + js[1..] && ks == [k] + ks[1..];
    }
  }

  /** Any two maps whose names do not run into each other: the digest decides whether the versions agree. */
  lemma PrefixFreeDigestDecides(d: Entries, e: Entries, hash: Text -> Text)
    requires Apart(d, e)
    requires hash(Preimage(d)) == hash(Preimage(e)) ==> Preimage(d) == Preimage(e)
    ensures Digest(d, hash) == Digest(e, hash) <==> SameVersions(d, e)
  {
    hide Apart, SameVersions, SortedKeys, Stamps;
    if SameVersions(d, e) {
      ConvergedPairIsQuiet(d, e, hash);
    }
    if Digest(d, hash) == Digest(e, hash) {
      SortedKeysAreKeys(d.Keys);
      SortedKeysAreKeys(e.Keys);
      SortedKeysCount(d.Keys);
      SortedKeysCount(e.Keys);
      StampsDecode(d, e, SortedKeys(d.Keys), SortedKeys(e.Keys));
      SameKeysSameVersions(d, e, SortedKeys(d.Keys));
    }
  }

  lemma SameKeysSameVersions(d: Entries, e: Entries, keys: seq<Text>)
    requires (forall k :: k in keys <==> k in d.Keys) && (forall k :: k in keys <==> k in e.Keys)
    requires forall k :: k in keys ==> k in e && k in d && d[k].version == e[k].version && d[k].deleted == e[k].deleted
    ensures SameVersions(d, e)
  {
    assert forall k :: k in d.Keys <==> k in e.Keys;
  }

  // ---- Two replicas of one run: the exact condition

  /** `long` is `short` with something in front that can pass for the end of a key and a clock that is not zero. */
  ghost predicate Confusable(long: Text, short: Text)
  {
    var n := |long| - |short|;
    && n > 0 && long[n..] == short
    && (n >= 8 ==> FromBytes(long[n - 8..n]) > 0)
  }

  ghost predicate NamesConfusable(actors: seq<Text>)
  {
    exists p, q :: 0 <= p < |actors| && 0 <= q < |actors| && Confusable(actors[p], actors[q])
  }

  /** Clocks start at one, fit their eight bytes, and carry names from the list. */
  ghost predicate Named(w: Write, actors: seq<Text>)
  {
    1 <= w.version.lamport && w.version.actor in actors
  }

  ghost predicate AllNamed(actors: seq<Text>, s: System)
  {
    && |s.replicas| == |actors| && (forall i :: 0 <= i < |actors| ==> s.replicas[i].actor == actors[i])
    && (forall w :: w in s.issued ==> Named(w, actors))
  }

  lemma {:induction false} RunNames(actors: seq<Text>, s: System, actions: seq<Action>, t: System)
    requires AllNamed(actors, s) && Run(s, actions, t)
    ensures AllNamed(actors, t)
    decreases |actions|
  {
    if actions != [] {
      var u :| Run(s, actions[..|actions| - 1], u)
        && |u.absorbed| == |u.replicas| && Possible(u, actions[|actions| - 1]) && t == Step(u, actions[|actions| - 1]);
      RunNames(actors, s, actions[..|actions| - 1], u);
    }
  }

  /** Clocks that have not overflowed. */
  ghost predicate ClocksFit(entries: Entries)
  {
    forall k :: k in entries ==> entries[k].version.lamport < U64_LIMIT
  }

  /** Read from the back: of two texts that end in stamps, the last stamps carry the same version. */
  lemma LastVersion(x: Text, j: Text, v: Version, c: bool, y: Text, k: Text, w: Version, d: bool)
    requires 1 <= v.lamport < U64_LIMIT && 1 <= w.lamport < U64_LIMIT
    requires !Confusable(v.actor, w.actor) && !Confusable(w.actor, v.actor)
    requires x + Stamp(j, v, c) == y + Stamp(k, w, d)
    ensures v == w && c == d
  {
    hide ToBytes, FromBytes;
    assert x + Stamp(j, v, c) == (x + j) + Stamp([], v, c);
    assert y + Stamp(k, w, d) == (y + k) + Stamp([], w, d);
    hide Stamp;
    if |v.actor| <= |w.actor| {
      LastParts(x + j, v, c, y + k, w, d);
    } else {
      LastParts(y + k, w, d, x + j, v, c);
    }
  }

  lemma StampEnd(x: Text, v: Version, c: bool, n: nat)
    requires n <= |v.actor|
    ensures x + Stamp([], v, c) == (x + ToBytes(v.lamport, 8) + v.actor[..n]) + (v.actor[n..] + [if c then 1 else 0])
  {
    hide ToBytes;
    var p, q := v.actor[..n], v.actor[n..];
    assert v.actor == p + q && [] + ToBytes(v.lamport, 8) == ToBytes(v.lamport, 8);
    var t, b := ToBytes(v.lamport, 8), [if c then 1 else 0];
    assert x + (t + (p + q) + b) == (x + t + p) + (q + b);
  }

  /** The shorter actor ends the longer one, and its clock is the eight bytes before it. */
  lemma LastParts(x: Text, v: Version, c: bool, y: Text, w: Version, d: bool)
    requires v.lamport < U64_LIMIT && w.lamport < U64_LIMIT && |v.actor| <= |w.actor|
    requires x + Stamp([], v, c) == y + Stamp([], w, d)
    ensures var n := |w.actor| - |v.actor|;
            && c == d && w.actor[n..] == v.actor
            && (n >= 8 ==> FromBytes(w.actor[n - 8..n]) == v.lamport)
            && (n == 0 ==> v == w)
  {
    hide ToBytes, FromBytes;
    ClockBytes(v.lamport);
    ClockBytes(w.lamport);
    var n, t1, t2 := |w.actor| - |v.actor|, ToBytes(v.lamport, 8), ToBytes(w.lamport, 8);
    var b1, b2, p, q := [if c then 1 else 0], [if d then 1 else 0], w.actor[..n], w.actor[n..];
    StampEnd(x, v, c, 0);
    StampEnd(y, w, d, n);
    assert x + t1 + v.actor[..0] == x + t1 && v.actor[0..] == v.actor;
    SameLength(x + t1, v.actor + b1, y + t2 + p, q + b2);
    SameLength(v.actor, b1, q, b2);
    assert b1[0] == b2[0];
    if n == 0 {
      assert y + t2 + p == y + t2;
      SameLength(x, t1, y, t2);
    } else if n >= 8 {
      var p1, p2 := p[..n - 8], p[n - 8..];
      assert p2 == w.actor[n - 8..n] && y + t2 + p == (y + t2 + p1) + p2;
      SameLength(x, t1, y + t2 + p1, p2);
    }
  }

  lemma {:induction false} StampsSnoc(entries: Entries, keys: seq<Text>)
    requires keys != [] && forall k :: k in keys ==> k in entries
    ensures var n := |keys| - 1;
            && (forall k :: k in keys[..n] ==> k in entries)
            && Stamps(entries, keys) == Stamps(entries, keys[..n]) + Stamp(keys[n], entries[keys[n]].version,
                 entries[keys[n]].deleted)
  {
    hide Stamp;
    var n := |keys| - 1;
    if n > 0 {
      assert forall k :: k in keys[1..] ==> k in keys;
      StampsSnoc(entries, keys[1..]);
      assert keys[1..][..n - 1] == keys[..n][1..];
    }
  }

  /** Both sides' stamps come from writes of one run whose names are not confusable. */
  ghost predicate OneRun(d: Entries, e: Entries, issued: set<Write>, actors: seq<Text>)
  {
    && Writes(d) <= issued && Writes(e) <= issued && ClocksFit(d) && ClocksFit(e)
    && UniqueVersions(issued) && (forall w :: w in issued ==> Named(w, actors)) && !NamesConfusable(actors)
  }

  /** The last entry is read back from the end of the stamps, and what is left are the stamps before it. */
  lemma LastEntryReadBack(d: Entries, e: Entries, js: seq<Text>, ks: seq<Text>, issued: set<Write>, actors: seq<Text>)
    requires (forall k :: k in js ==> k in d) && (forall k :: k in ks ==> k in e) && |js| == |ks| > 0
    requires OneRun(d, e, issued, actors) && Stamps(d, js) == Stamps(e, ks)
    ensures var n := |js| - 1;
            && js[n] == ks[n] && d[js[n]] == e[ks[n]]
            && (forall k :: k in js[..n] ==> k in d) && (forall k :: k in ks[..n] ==> k in e)
            && Stamps(d, js[..n]) == Stamps(e, ks[..n])
  {
    hide Stamps, OneRun, Stamp, Confusable;
    var n := |js| - 1;
    var j, k := js[n], ks[n];
    assert j in js && k in ks;
    StampsSnoc(d, js);
    StampsSnoc(e, ks);
    var v, w := WriteOf(j, d[j]), WriteOf(k, e[k]);
    FromOneRun(d, e, issued, actors, j, k);
    LastVersion(Stamps(d, js[..n]), j, v.version, v.deleted, Stamps(e, ks[..n]), k, w.version, w.deleted);
    Suffixes(Stamps(d, js[..n]), Stamps(e, ks[..n]), Stamp(j, v.version, v.deleted));
  }

  lemma FromOneRun(d: Entries, e: Entries, issued: set<Write>, actors: seq<Text>, j: Text, k: Text)
    requires OneRun(d, e, issued, actors) && j in d && k in e
    ensures var v, w := d[j].version, e[k].version;
            && 1 <= v.lamport < U64_LIMIT && 1 <= w.lamport < U64_LIMIT
            && !Confusable(v.actor, w.actor) && !Confusable(w.actor, v.actor)
            && (v == w ==> j == k && d[j] == e[k])
  {
    hide NamesConfusable, Confusable;
    var v, w := WriteOf(j, d[j]), WriteOf(k, e[k]);
    assert v in issued && w in issued;
    assert Named(v, actors) && Named(w, actors);
    NotConfusable(actors, v.version.actor, w.version.actor);
    if v.version == w.version { SameWrite(issued, v, w); }
  }

  /** Entries that all come from writes of one run, with names that are not confusable, are read back from their
      stamps. */
  lemma {:induction false} StampsReadBack(d: Entries, e: Entries, js: seq<Text>, ks: seq<Text>, issued: set<Write>,
                                          actors: seq<Text>)
    requires (forall k :: k in js ==> k in d) && (forall k :: k in ks ==> k in e) && |js| == |ks|
    requires OneRun(d, e, issued, actors) && Stamps(d, js) == Stamps(e, ks)
    ensures js == ks && forall k :: k in js ==> k in e && d[k] == e[k]
  {
    hide Stamps, OneRun;
    if js != [] {
      var n := |js| - 1;
      LastEntryReadBack(d, e, js, ks, issued, actors);
      StampsReadBack(d, e, js[..n], ks[..n], issued, actors);
      assert js == js[..n] + [js[n]] && ks == ks[..n] + [ks[n]];
    }
  }

  lemma NotConfusable(actors: seq<Text>, a: Text, b: Text)
    requires !NamesConfusable(actors) && a in actors && b in actors
    ensures !Confusable(a, b) && !Confusable(b, a)
  {
  }

  lemma SameWrite(issued: set<Write>, v: Write, w: Write)
    requires UniqueVersions(issued) && v in issued && w in issued && v.version == w.version
    ensures v == w
  {
  }

  lemma Suffixes(x: Text, y: Text, s: Text)
    requires x + s == y + s
    ensures x == y
  {
    assert x == (x + s)[..|x|] && y == (y + s)[..|x|];
  }

  /** What a run says about the entries two replicas hold. */
  lemma HeldWrites(actors: seq<Text>, t: System, i: nat)
    requires DistinctActors(actors) && Reachable(actors, t) && i < |t.replicas|
    ensures Writes(t.replicas[i].entries) <= t.issued && UniqueVersions(t.issued)
    ensures forall w :: w in t.issued ==> Named(w, actors)
  {
    SnapshotsCarryIssuedWrites(actors, t, i);
    ReachableInv(actors, t);
    var actions :| Run(Start(actors), actions, t);
    hide Run;
    RunNames(actors, Start(actors), actions, t);
  }

  /** Equal digests, equal boards, values included: for any two replicas of any run of these actors. */
  ghost predicate DigestsDecide(actors: seq<Text>, hash: Text -> Text)
  {
    forall t, i, j ::
      Reachable(actors, t) && 0 <= i < |t.replicas| && 0 <= j < |t.replicas| ==>
        Decided(t.replicas[i].entries, t.replicas[j].entries, hash)
  }

  /** Clocks in range and no hash collision given, the digest tells the two maps apart. */
  ghost predicate Decided(d: Entries, e: Entries, hash: Text -> Text)
  {
    ClocksFit(d) && ClocksFit(e) && (hash(Preimage(d)) == hash(Preimage(e)) ==> Preimage(d) == Preimage(e)) ==>
      (Digest(d, hash) == Digest(e, hash) <==> d == e)
  }

  lemma ClearNamesDecide(actors: seq<Text>, t: System, i: nat, j: nat, hash: Text -> Text)
    requires DistinctActors(actors) && Reachable(actors, t) && i < |t.replicas| && j < |t.replicas|
    requires !NamesConfusable(actors)
    ensures Decided(t.replicas[i].entries, t.replicas[j].entries, hash)
  {
    hide Reachable, NamesConfusable, UniqueVersions, Writes, ClocksFit, SortedKeys, Stamps;
    var d, e := t.replicas[i].entries, t.replicas[j].entries;
    HeldWrites(actors, t, i);
    HeldWrites(actors, t, j);
    if ClocksFit(d) && ClocksFit(e) && |d| == |e| && Preimage(d) == Preimage(e) {
      SortedKeysAreKeys(d.Keys);
      SortedKeysAreKeys(e.Keys);
      SortedKeysCount(d.Keys);
      SortedKeysCount(e.Keys);
      StampsReadBack(d, e, SortedKeys(d.Keys), SortedKeys(e.Keys), t.issued, actors);
      assert forall k :: k in d.Keys <==> k in e.Keys;
    }
  }

  // ---- Confusable names collide

  lemma ReachStep(actors: seq<Text>, s: System, a: Action)
    requires Reachable(actors, s) && |s.absorbed| == |s.replicas| && Possible(s, a)
    ensures Reachable(actors, Step(s, a))
  {
    var actions :| Run(Start(actors), actions, s);
    hide Step, Start, Possible;
    var more := actions + [a];
    assert more[..|more| - 1] == actions;
    assert Run(Start(actors), more, Step(s, a));
  }

  /** The replica after `n` writes to one key. */
  ghost function Rewritten(r: Replica, key: Text, n: nat): Replica
  {
    Replica(r.actor, r.entries[key := Entry(Null, Version(r.lamport + n, r.actor), false)], r.lamport + n)
  }

  lemma {:induction false} WriteMany(actors: seq<Text>, s: System, q: nat, key: Text, n: nat) returns (t: System)
    requires Reachable(actors, s) && |s.absorbed| == |s.replicas| && q < |s.replicas| && n >= 1
    ensures Reachable(actors, t) && |t.absorbed| == |t.replicas| == |s.replicas|
    ensures t.replicas == s.replicas[q := Rewritten(s.replicas[q], key, n)]
    decreases n
  {
    hide Reachable;
    var u := s;
    if n > 1 {
      u := WriteMany(actors, s, q, key, n - 1);
    }
    var a := Local(q, key, Null, false);
    ReachStep(actors, u, a);
    t := Step(u, a);
    assert t.replicas[q].entries == Rewritten(s.replicas[q], key, n).entries;
  }

  /** The key and clock under which the shorter name passes for the longer one's first write to `key`. */
  ghost function MimicKey(key: Text, long: Text, short: Text): Text
    requires Confusable(long, short)
  {
    key + (ToBytes(1, 8) + long[..|long| - |short|])[..|long| - |short|]
  }

  ghost function MimicClock(long: Text, short: Text): nat
    requires Confusable(long, short)
  {
    FromBytes((ToBytes(1, 8) + long[..|long| - |short|])[|long| - |short|..])
  }

  lemma MimicOverlaps(key: Text, long: Text, short: Text)
    requires Confusable(long, short)
    ensures 1 <= MimicClock(long, short) < U64_LIMIT
    ensures Overlap(key, Version(1, long), MimicKey(key, long, short), Version(MimicClock(long, short), short))
  {
    hide ToBytes, FromBytes;
    var n := |long| - |short|;
    var word := ToBytes(1, 8) + long[..n];
    CapacityOfHeaderFields();
    ToFromBytes(word[n..]);
    MimicClockPositive(long, short);
    assert word == word[..n] + word[n..];
    var k := MimicKey(key, long, short);
    assert k[..|key|] == key && k[|key|..] == word[..n];
  }

  lemma MimicClockPositive(long: Text, short: Text)
    requires Confusable(long, short)
    ensures MimicClock(long, short) >= 1
  {
    var n := |long| - |short|;
    var word := ToBytes(1, 8) + long[..n];
    if n >= 8 {
      hide ToBytes, FromBytes;
      assert word[n..] == long[n - 8..n];
    } else {
      assert ToBytes(1, 8) == ToBytes(0, 7) + [1];
      hide ToBytes, FromBytes;
      assert word[n..][7 - n] == word[7] == 1;
      ZeroBytes(word[n..]);
    }
  }

  /** Two replicas with confusable names, one write of one and some writes to one key by the other: their boards differ
      in the key they hold and have the same digest, under every hash. */
  lemma ConfusableCollide(actors: seq<Text>, p: nat, q: nat, key: Text, hash: Text -> Text) returns (t: System)
    requires p < |actors| && q < |actors| && Confusable(actors[p], actors[q])
    ensures Reachable(actors, t) && |t.replicas| == |actors|
    ensures t.replicas[p].entries == map[key := Entry(Null, Version(1, actors[p]), false)]
    ensures t.replicas[q].entries
         == map[MimicKey(key, actors[p], actors[q]) := Entry(Null,
             Version(MimicClock(actors[p], actors[q]), actors[q]), false)]
    ensures t.replicas[p].entries != t.replicas[q].entries
    ensures Preimage(t.replicas[p].entries) == Preimage(t.replicas[q].entries)
    ensures Digest(t.replicas[p].entries, hash) == Digest(t.replicas[q].entries, hash)
    ensures ClocksFit(t.replicas[p].entries) && ClocksFit(t.replicas[q].entries)
  {
    var k, clock := MimicKey(key, actors[p], actors[q]), MimicClock(actors[p], actors[q]);
    MimicOverlaps(key, actors[p], actors[q]);
    t := TwoWriters(actors, p, q, key, k, clock);
    hide Reachable, MimicKey, MimicClock, Confusable;
    OverlapCollides(key, Version(1, actors[p]), k, Version(clock, actors[q]), hash);
  }

  /** One write by `p`, then `n` writes by `q`, each to a key of its own, nothing exchanged. */
  lemma TwoWriters(actors: seq<Text>, p: nat, q: nat, j: Text, k: Text, n: nat) returns (t: System)
    requires p < |actors| && q < |actors| && p != q && n >= 1
    ensures Reachable(actors, t) && |t.replicas| == |actors|
    ensures t.replicas[p].entries == map[j := Entry(Null, Version(1, actors[p]), false)]
    ensures t.replicas[q].entries == map[k := Entry(Null, Version(n, actors[q]), false)]
  {
    var s := Start(actors);
    assert Run(s, [], s);
    hide Reachable;
    var u := WriteMany(actors, s, p, j, 1);
    t := WriteMany(actors, u, q, k, n);
  }

  lemma OverlapCollides(j: Text, v: Version, k: Text, w: Version, hash: Text -> Text)
    requires Overlap(j, v, k, w) && v.lamport < U64_LIMIT && w.lamport < U64_LIMIT
    ensures var d: Entries := map[j := Entry(Null, v, false)];
            var e: Entries := map[k := Entry(Null, w, false)];
            d != e && Preimage(d) == Preimage(e) && Digest(d, hash) == Digest(e, hash) && ClocksFit(d) && ClocksFit(e)
  {
    OverlapStamps(j, v, false, k, w);
    var d: Entries := map[j := Entry(Null, v, false)];
    var e: Entries := map[k := Entry(Null, w, false)];
    assert j in d && j !in e;
    hide Overlap, Preimage, Stamp;
    OneKey(d, j);
    OneKey(e, k);
  }

  /** Exactly when equal digests mean equal boards for all replicas of all runs: when no actor's name is another's with
      something in front, other than eight or more bytes that end in eight zeros. */
  lemma DigestsDecideExactly(actors: seq<Text>, hash: Text -> Text)
    requires DistinctActors(actors)
    ensures DigestsDecide(actors, hash) <==> !NamesConfusable(actors)
  {
    hide Reachable, Decided, Confusable;
    if NamesConfusable(actors) {
      var p, q :| 0 <= p < |actors| && 0 <= q < |actors| && Confusable(actors[p], actors[q]);
      var t := ConfusableCollide(actors, p, q, [], hash);
      NotDecided(t.replicas[p].entries, t.replicas[q].entries, hash);
    } else {
      forall t, i, j | Reachable(actors, t) && 0 <= i < |t.replicas| && 0 <= j < |t.replicas|
        ensures Decided(t.replicas[i].entries, t.replicas[j].entries, hash)
      {
        ClearNamesDecide(actors, t, i, j, hash);
      }
    }
  }

  lemma NotDecided(d: Entries, e: Entries, hash: Text -> Text)
    requires ClocksFit(d) && ClocksFit(e) && d != e && Preimage(d) == Preimage(e) && Digest(d, hash) == Digest(e, hash)
    ensures !Decided(d, e, hash)
  {
  }

  /** Anti-entropy with names that are not confusable: a replica answers another's DIGEST with a SYNC_REQ exactly while
      their boards differ, and the snapshots then exchanged make them equal, so that neither asks again. */
  lemma DivergedReplicasSync(actors: seq<Text>, t: System, i: nat, j: nat, fromI: seq<Write>, fromJ: seq<Write>,
                             hash: Text -> Text)
    requires DistinctActors(actors) && Reachable(actors, t) && i < |t.replicas| && j < |t.replicas|
    requires !NamesConfusable(actors) && ClocksFit(t.replicas[i].entries) && ClocksFit(t.replicas[j].entries)
    requires var x, y := Preimage(t.replicas[i].entries), Preimage(t.replicas[j].entries); hash(x) == hash(y) ==> x == y
    requires IsSnapshot(fromI, t.replicas[i].entries) && IsSnapshot(fromJ, t.replicas[j].entries)
    ensures var d, e := t.replicas[i].entries, t.replicas[j].entries;
            && (AsksForSync(d, Digest(e, hash), hash) <==> d != e)
            && var a, b := MergeAll(t.replicas[i], fromJ).entries, MergeAll(t.replicas[j], fromI).entries;
            a == b && !AsksForSync(a, Digest(b, hash), hash)
  {
    hide Reachable, NamesConfusable, ClocksFit, Preimage;
    ClearNamesDecide(actors, t, i, j, hash);
    hide Digest;
    SnapshotExchangeConverges(actors, t, i, j, fromI, fromJ, hash);
  }

  /** For one: actors `ab` and `b`. After one write of `k` by `ab` and 353 of `k\0` by `b`, with nothing exchanged,
      neither asks the other for a sync. */
  lemma DigestCollision(hash: Text -> Text) returns (t: System)
    ensures Reachable([[97, 98], [98]], t) && |t.replicas| == 2
    ensures t.replicas[0].entries == map[[107] := Entry(Null, Version(1, [97, 98]), false)]
    ensures t.replicas[1].entries == map[[107, 0] := Entry(Null, Version(353, [98]), false)]
    ensures Digest(t.replicas[0].entries, hash) == Digest(t.replicas[1].entries, hash)
    ensures !AsksForSync(t.replicas[0].entries, Digest(t.replicas[1].entries, hash), hash)
  {
    var actors: seq<Text> := [[97, 98], [98]];
    MimicValues();
    assert actors[0] == [97, 98] && actors[1] == [98];
    hide Reachable, Confusable, MimicKey, MimicClock, Preimage;
    t := ConfusableCollide(actors, 0, 1, [107], hash);
  }

  lemma MimicValues()
    ensures Confusable([97, 98], [98])
    ensures MimicKey([107], [97, 98], [98]) == [107, 0] && MimicClock([97, 98], [98]) == 353
  {
    var long: Text, short: Text := [97, 98], [98];
    assert long[1..] == short && long[..1] == [97];
    OneInEightBytes();
    SmallClock();
    hide ToBytes, FromBytes;
    var word := ToBytes(1, 8) + long[..1];
    assert word[..1] == [0] && word[1..] == [0, 0, 0, 0, 0, 0, 1, 97];
  }

  lemma OneInEightBytes()
    ensures ToBytes(1, 8) == [0, 0, 0, 0, 0, 0, 0, 1]
  {
    assert ToBytes(0, 4) == [0, 0, 0, 0] by { assert ToBytes(0, 2) == [0, 0]; }
    assert ToBytes(0, 6) == [0, 0, 0, 0, 0, 0];
    assert ToBytes(0, 7) == [0, 0, 0, 0, 0, 0, 0];
  }

  lemma SmallClock()
    ensures FromBytes([0, 0, 0, 0, 0, 0, 1, 97]) == 353
  {
    var s := [0, 0, 0, 0, 0, 0, 1, 97];
    assert s[..7] == [0, 0, 0, 0, 0, 0, 1] && s[..7][..6] == [0, 0, 0, 0, 0, 0];
    ZeroBytes(s[..7][..6]);
  }
}
