/** Replicas of one Board: versions are unique, and equal knowledge means equal maps. */
module BoardConvergence {
  import opened Sums
  import opened Board

  // ---- The reference: the latest write to each key among a set of writes

  ghost predicate IsLatest(entries: Entries, ws: set<Write>)
  {
    && (forall k :: k in entries ==> WriteOf(k, entries[k]) in ws)
    && (forall w :: w in ws ==> w.key in entries && NotNewer(w.version, entries[w.key].version))
  }

  ghost predicate UniqueVersions(ws: set<Write>)
  {
    forall v, w :: v in ws && w in ws && v.version == w.version ==> v == w
  }

  lemma LatestUnique(d: Entries, e: Entries, ws: set<Write>)
    requires IsLatest(d, ws) && IsLatest(e, ws) && UniqueVersions(ws)
    ensures d == e
  {
    assert d.Keys == e.Keys by {
      forall k | k in d ensures k in e { assert WriteOf(k, d[k]) in ws; }
      forall k | k in e ensures k in d { assert WriteOf(k, e[k]) in ws; }
    }
    forall k | k in d ensures d[k] == e[k] {
      var v, w := WriteOf(k, d[k]), WriteOf(k, e[k]);
      assert v in ws && w in ws;
      VersionOrder(v.version, w.version);
    }
  }

  lemma MergeLatest(r: Replica, w: Write, ws: set<Write>)
    requires IsLatest(r.entries, ws) && UniqueVersions(ws + {w})
    ensures IsLatest(Merge(r, w).entries, ws + {w})
  {
    var e := Merge(r, w).entries;
    if Accepts(r.entries, w) {
      if w.key in r.entries {
        VersionOrder(w.version, r.entries[w.key].version);
      }
      forall v | v in ws + {w} ensures v.key in e && NotNewer(v.version, e[v.key].version) {
        if v != w && v.key == w.key {
          OlderTransitive(v.version, r.entries[w.key].version, w.version);
        }
      }
    }
  }

  // ---- Runs of many replicas

  /** All replicas, every write ever issued, and what each replica has taken in. */
  datatype System = System(replicas: seq<Replica>, issued: set<Write>, absorbed: seq<set<Write>>)

  datatype Action =
    | Local(i: nat, key: Text, value: Value, deleted: bool)
    | Absorb(i: nat, write: Write)

  ghost predicate DistinctActors(actors: seq<Text>)
  {
    forall i, j :: 0 <= i < j < |actors| ==> actors[i] != actors[j]
  }

  ghost function Start(actors: seq<Text>): System
  {
    System(seq(|actors|, i requires 0 <= i < |actors| => New(actors[i])), {}, seq(|actors|, i => {}))
  }

  /** Any issued write may reach any replica, at any time and any number of times. */
  ghost predicate Possible(s: System, a: Action)
  {
    match a
    case Local(i, _, _, _) => i < |s.replicas|
    case Absorb(i, w) => i < |s.replicas| && w in s.issued
  }

  ghost function Step(s: System, a: Action): System
    requires |s.absorbed| == |s.replicas| && Possible(s, a)
  {
    match a
    case Local(i, key, value, deleted) =>
      var (r, w) := LocalWrite(s.replicas[i], key, value, deleted);
      System(s.replicas[i := r], s.issued + {w}, s.absorbed[i := s.absorbed[i] + {w}])
    case Absorb(i, w) =>
      s.(replicas := s.replicas[i := Merge(s.replicas[i], w)], absorbed := s.absorbed[i := s.absorbed[i] + {w}])
  }

  ghost predicate ClockCovers(r: Replica, ws: set<Write>)
  {
    forall w :: w in ws ==> w.version.lamport <= r.lamport
  }

  /** No write in the system carries `r`'s name and a clock value `r` has not reached. */
  ghost predicate OwnClock(r: Replica, issued: set<Write>)
  {
    forall w :: w in issued && w.version.actor == r.actor ==> w.version.lamport <= r.lamport
  }

  ghost predicate ReplicaOk(r: Replica, absorbed: set<Write>, issued: set<Write>)
  {
    absorbed <= issued && ClockCovers(r, absorbed) && OwnClock(r, issued) && IsLatest(r.entries, absorbed)
  }

  ghost predicate Inv(s: System)
  {
    && |s.absorbed| == |s.replicas|
    && (forall i, j :: 0 <= i < j < |s.replicas| ==> s.replicas[i].actor != s.replicas[j].actor)
    && UniqueVersions(s.issued)
    && (forall i :: 0 <= i < |s.replicas| ==> ReplicaOk(s.replicas[i], s.absorbed[i], s.issued))
  }

  lemma LocalReplica(r: Replica, absorbed: set<Write>, issued: set<Write>, key: Text, value: Value, deleted: bool)
    requires ReplicaOk(r, absorbed, issued) && UniqueVersions(issued)
    ensures var (t, w) := LocalWrite(r, key, value, deleted);
            && ReplicaOk(t, absorbed + {w}, issued + {w}) && UniqueVersions(issued + {w}) && t.actor == r.actor
  {
    var (t, w) := LocalWrite(r, key, value, deleted);
    forall v | v in absorbed + {w} ensures v.key in t.entries && NotNewer(v.version, t.entries[v.key].version) { }
  }

  lemma OtherReplica(r: Replica, absorbed: set<Write>, issued: set<Write>, w: Write)
    requires ReplicaOk(r, absorbed, issued) && w.version.actor != r.actor
    ensures ReplicaOk(r, absorbed, issued + {w})
  {
    hide IsLatest;
  }

  lemma AbsorbReplica(r: Replica, absorbed: set<Write>, issued: set<Write>, w: Write)
    requires ReplicaOk(r, absorbed, issued) && UniqueVersions(issued) && w in issued
    ensures ReplicaOk(Merge(r, w), absorbed + {w}, issued)
  {
    hide IsLatest;
    MergeLatest(r, w, absorbed);
  }

  lemma StepKeepsInv(s: System, a: Action)
    requires Inv(s) && Possible(s, a)
    ensures Inv(Step(s, a)) && |Step(s, a).replicas| == |s.replicas|
  {
    hide ReplicaOk, UniqueVersions, LocalWrite, Merge;
    var i := a.i;
    assert ReplicaOk(s.replicas[i], s.absorbed[i], s.issued);
    match a
    case Local(_, key, value, deleted) =>
      LocalReplica(s.replicas[i], s.absorbed[i], s.issued, key, value, deleted);
      var (t, w) := LocalWrite(s.replicas[i], key, value, deleted);
      LocalActor(s.replicas[i], key, value, deleted);
      forall j | 0 <= j < |s.replicas| && j != i ensures ReplicaOk(s.replicas[j], s.absorbed[j], s.issued + {w}) {
        OtherReplica(s.replicas[j], s.absorbed[j], s.issued, w);
      }
    case Absorb(_, w) =>
      AbsorbReplica(s.replicas[i], s.absorbed[i], s.issued, w);
      MergeActor(s.replicas[i], w);
  }

  lemma LocalActor(r: Replica, key: Text, value: Value, deleted: bool)
    ensures LocalWrite(r, key, value, deleted).1.version.actor == r.actor
  {
  }

  lemma MergeActor(r: Replica, w: Write)
    ensures Merge(r, w).actor == r.actor
  {
  }

  ghost predicate Run(s: System, actions: seq<Action>, t: System)
    decreases |actions|
  {
    if actions == [] then s == t
    else
      exists u :: Run(s, actions[..|actions| - 1], u)
        && |u.absorbed| == |u.replicas| && Possible(u, actions[|actions| - 1]) && t == Step(u, actions[|actions| - 1])
  }

  ghost predicate Reachable(actors: seq<Text>, t: System)
  {
    exists actions :: Run(Start(actors), actions, t)
  }

  lemma {:induction false} RunKeepsInv(s: System, actions: seq<Action>, t: System)
    requires Inv(s) && Run(s, actions, t)
    ensures Inv(t)
    decreases |actions|
  {
    hide Inv, Step;
    if actions != [] {
      var u :| Run(s, actions[..|actions| - 1], u)
        && |u.absorbed| == |u.replicas| && Possible(u, actions[|actions| - 1]) && t == Step(u, actions[|actions| - 1]);
      RunKeepsInv(s, actions[..|actions| - 1], u);
      StepKeepsInv(u, actions[|actions| - 1]);
    }
  }

  lemma ReachableInv(actors: seq<Text>, t: System)
    requires DistinctActors(actors) && Reachable(actors, t)
    ensures Inv(t)
  {
    assert Inv(Start(actors));
    hide Inv, Start, Run;
    var actions :| Run(Start(actors), actions, t);
    RunKeepsInv(Start(actors), actions, t);
  }

  // ---- The theorems

  /** In every run no two different writes share a version. */
  lemma VersionsIdentifyWrites(actors: seq<Text>, t: System, v: Write, w: Write)
    requires DistinctActors(actors) && Reachable(actors, t)
    requires v in t.issued && w in t.issued && v.version == w.version
    ensures v == w
  {
    hide Reachable;
    ReachableInv(actors, t);
  }

  /** A local write is newer than everything its replica holds. */
  lemma LocalWriteDominates(actors: seq<Text>, t: System, i: nat, key: Text, value: Value, deleted: bool, k: Text)
    requires DistinctActors(actors) && Reachable(actors, t) && i < |t.replicas| && k in t.replicas[i].entries
    ensures Older(t.replicas[i].entries[k].version, LocalWrite(t.replicas[i], key, value, deleted).1.version)
  {
    hide Reachable;
    ReachableInv(actors, t);
    assert ReplicaOk(t.replicas[i], t.absorbed[i], t.issued);
    assert WriteOf(k, t.replicas[i].entries[k]) in t.absorbed[i];
  }

  /** Replicas that have taken in the same writes, in whatever orders and with whatever repeats, hold the
      same map: for each key the latest of those writes, tombstones included. */
  lemma StrongConvergence(actors: seq<Text>, t: System, i: nat, j: nat)
    requires DistinctActors(actors) && Reachable(actors, t)
    requires i < |t.replicas| && j < |t.replicas| && |t.absorbed| == |t.replicas| && t.absorbed[i] == t.absorbed[j]
    ensures t.replicas[i].entries == t.replicas[j].entries
    ensures IsLatest(t.replicas[i].entries, t.absorbed[i])
  {
    hide Reachable;
    ReachableInv(actors, t);
    assert ReplicaOk(t.replicas[i], t.absorbed[i], t.issued) && ReplicaOk(t.replicas[j], t.absorbed[j], t.issued);
    LatestUnique(t.replicas[i].entries, t.replicas[j].entries, t.absorbed[i]);
  }

  // ---- Anti-entropy

  /** The later of the two entries for each key. */
  ghost function Join(d: Entries, e: Entries): Entries
  {
    map k | k in d.Keys + e.Keys ::
      if k !in e then d[k]
      else if k !in d then e[k]
      else if Older(d[k].version, e[k].version) then e[k] else d[k]
  }

  ghost function KeysNamed(ws: seq<Write>): set<Text>
  {
    set i | 0 <= i < |ws| :: ws[i].key
  }

  /** Taking in some of a snapshot joins in exactly the keys it named. */
  lemma {:induction false} MergeAllJoins(r: Replica, ws: seq<Write>, e: Entries)
    requires forall i :: 0 <= i < |ws| ==> ws[i].key in e && EntryOf(ws[i]) == e[ws[i].key]
    ensures MergeAll(r, ws).entries == Join(r.entries, Restrict(e, KeysNamed(ws)))
  {
    if ws == [] {
      assert Join(r.entries, Restrict(e, KeysNamed(ws))) == r.entries;
    } else {
      var before, w := ws[..|ws| - 1], ws[|ws| - 1];
      MergeAllJoins(r, before, e);
      KeysNamedSnoc(ws);
      assert Restrict(e, KeysNamed(ws)) == Restrict(e, KeysNamed(before))[w.key := EntryOf(w)];
      JoinStep(r, MergeAll(r, before), Restrict(e, KeysNamed(before)), w);
    }
  }

  lemma KeysNamedSnoc(ws: seq<Write>)
    requires ws != []
    ensures KeysNamed(ws) == KeysNamed(ws[..|ws| - 1]) + {ws[|ws| - 1].key}
  {
    var n := |ws| - 1;
    forall k | k in KeysNamed(ws[..n]) ensures k in KeysNamed(ws) {
      var i :| 0 <= i < n && ws[..n][i].key == k;
      assert ws[i].key == k;
    }
    forall k | k in KeysNamed(ws) ensures k in KeysNamed(ws[..n]) + {ws[n].key} {
      var i :| 0 <= i < |ws| && ws[i].key == k;
      if i < n { assert ws[..n][i].key == k; }
    }
  }

  lemma JoinStep(r: Replica, m: Replica, named: Entries, w: Write)
    requires m.entries == Join(r.entries, named)
    requires w.key in named ==> named[w.key] == EntryOf(w)
    ensures Merge(m, w).entries == Join(r.entries, named[w.key := EntryOf(w)])
  {
    var k := w.key;
    if k in m.entries {
      VersionOrder(m.entries[k].version, w.version);
      if k in r.entries { VersionOrder(r.entries[k].version, w.version); }
    }
    assert (named[k := EntryOf(w)]).Keys == named.Keys + {k};
  }

  /** A whole snapshot, in any order, yields the per-key join. */
  lemma SnapshotJoins(r: Replica, ws: seq<Write>, e: Entries)
    requires IsSnapshot(ws, e)
    ensures MergeAll(r, ws).entries == Join(r.entries, e)
  {
    MergeAllJoins(r, ws, e);
    forall k | k in e ensures k in KeysNamed(ws) {
      var i :| 0 <= i < |ws| && ws[i] == WriteOf(k, e[k]);
      assert ws[i].key == k;
    }
    assert Restrict(e, KeysNamed(ws)) == e;
  }

  /** Snapshots exchanged both ways, with no writes in between, leave two replicas of one run equal,
      and then neither answers the other's DIGEST with a SYNC_REQ. */
  lemma SnapshotExchangeConverges(actors: seq<Text>, t: System, i: nat, j: nat, fromI: seq<Write>, fromJ: seq<Write>,
                                  hash: Text -> Text)
    requires DistinctActors(actors) && Reachable(actors, t) && i < |t.replicas| && j < |t.replicas|
    requires IsSnapshot(fromI, t.replicas[i].entries) && IsSnapshot(fromJ, t.replicas[j].entries)
    ensures var a, b := MergeAll(t.replicas[i], fromJ).entries, MergeAll(t.replicas[j], fromI).entries;
            && a == b == Join(t.replicas[i].entries, t.replicas[j].entries)
            && !AsksForSync(a, Digest(b, hash), hash) && !AsksForSync(b, Digest(a, hash), hash)
  {
    hide Reachable;
    ReachableInv(actors, t);
    var d, e := t.replicas[i].entries, t.replicas[j].entries;
    SnapshotJoins(t.replicas[i], fromJ, e);
    SnapshotJoins(t.replicas[j], fromI, d);
    forall k | k in d && k in e && d[k].version == e[k].version ensures d[k] == e[k] {
      assert ReplicaOk(t.replicas[i], t.absorbed[i], t.issued) && ReplicaOk(t.replicas[j], t.absorbed[j], t.issued);
      assert WriteOf(k, d[k]) in t.issued && WriteOf(k, e[k]) in t.issued;
    }
    JoinCommutes(d, e);
  }

  lemma JoinCommutes(d: Entries, e: Entries)
    requires forall k :: k in d && k in e && d[k].version == e[k].version ==> d[k] == e[k]
    ensures Join(d, e) == Join(e, d)
  {
    forall k | k in d && k in e ensures Join(d, e)[k] == Join(e, d)[k] {
      VersionOrder(d[k].version, e[k].version);
    }
    assert d.Keys + e.Keys == e.Keys + d.Keys;
  }

  /** A relayed snapshot only ever carries issued writes, so absorbing one is a series of `Absorb` steps. */
  lemma SnapshotsCarryIssuedWrites(actors: seq<Text>, t: System, i: nat)
    requires DistinctActors(actors) && Reachable(actors, t) && i < |t.replicas|
    ensures Writes(t.replicas[i].entries) <= t.issued
  {
    hide Reachable;
    ReachableInv(actors, t);
    assert ReplicaOk(t.replicas[i], t.absorbed[i], t.issued);
  }
}
