/** What readers of a replicated Board see. */
module BoardReads {
  import opened BigEndian
  import opened Board
  import opened BoardConvergence

  // ---- Local writes

  /** A set stamps the key with a clock value one above the old one and the writer's name. The entry is live and carries
      the value; the broadcast write is that entry under that key; every other key, and the name, stay. */
  lemma SetStamps(r: Replica, key: Text, value: Value)
    ensures var (after, w) := Set(r, key, value);
            var e := Entry(value, Version(r.lamport + 1, r.actor), false);
            && after.entries == r.entries[key := e] && w == WriteOf(key, e)
            && after.lamport == r.lamport + 1 && after.actor == r.actor
            && Get(after.entries, key) == Some(value)
            && forall k :: k != key ==> Get(after.entries, k) == Get(r.entries, k)
  {
  }

  /** A delete does the same with a tombstone: the key then reads as absent. */
  lemma DeleteStamps(r: Replica, key: Text)
    ensures var (after, w) := Delete(r, key);
            var e := Entry(Null, Version(r.lamport + 1, r.actor), true);
            && after.entries == r.entries[key := e] && w == WriteOf(key, e)
            && after.lamport == r.lamport + 1 && after.actor == r.actor
            && Get(after.entries, key) == None
            && forall k :: k != key ==> Get(after.entries, k) == Get(r.entries, k)
  {
  }

  /** The pairs listed are exactly the keys that read as present, with what they read as. */
  lemma ItemsAreReads(entries: Entries, key: Text)
    ensures key in Items(entries) <==> Get(entries, key).Some?
    ensures key in Items(entries) ==> Get(entries, key) == Some(Items(entries)[key])
  {
  }

  // ---- Reads in every run

  /** `w` is the latest write of its key in `ws`. */
  ghost predicate LastOf(ws: set<Write>, w: Write)
  {
    w in ws && forall v :: v in ws && v.key == w.key ==> NotNewer(v.version, w.version)
  }

  /** In every run, what a replica reads under a key is the latest write of that key it has taken in: absent if that is
      a delete or if there is none, and otherwise its value. */
  lemma ReadsTheLatestWrite(actors: seq<Text>, t: System, i: nat, key: Text)
    requires DistinctActors(actors) && Reachable(actors, t)
    requires i < |t.replicas| && |t.absorbed| == |t.replicas|
    ensures var seen := Get(t.replicas[i].entries, key);
            && (forall w :: LastOf(t.absorbed[i], w) && w.key == key ==>
                  seen == if w.deleted then None else Some(w.value))
            && (seen.Some? ==>
                  exists w :: LastOf(t.absorbed[i], w) && w.key == key && !w.deleted && seen == Some(w.value))
  {
    hide Reachable;
    ReachableInv(actors, t);
    var r, ws := t.replicas[i], t.absorbed[i];
    assert ReplicaOk(r, ws, t.issued);
    forall w | LastOf(ws, w) && w.key == key ensures r.entries[key] == EntryOf(w) {
      HeldIsLatest(r.entries, ws, w);
    }
    if key in r.entries {
      assert LastOf(ws, WriteOf(key, r.entries[key]));
    }
  }

  lemma HeldIsLatest(entries: Entries, ws: set<Write>, w: Write)
    requires IsLatest(entries, ws) && UniqueVersions(ws) && LastOf(ws, w)
    ensures w.key in entries && entries[w.key] == EntryOf(w)
  {
    var held := WriteOf(w.key, entries[w.key]);
    assert held in ws;
    VersionOrder(held.version, w.version);
  }

  /** Once a delete is the latest write of a key that a replica has taken in, the key reads as absent, and an older
      write of it that arrives late does not bring it back. */
  lemma DeletesStick(actors: seq<Text>, t: System, i: nat, w: Write, late: Write)
    requires DistinctActors(actors) && Reachable(actors, t)
    requires i < |t.replicas| && |t.absorbed| == |t.replicas| && LastOf(t.absorbed[i], w) && w.deleted
    requires late in t.issued && late.key == w.key && NotNewer(late.version, w.version)
    ensures Get(t.replicas[i].entries, w.key) == None
    ensures Merge(t.replicas[i], late).entries == t.replicas[i].entries
  {
    hide Reachable;
    ReachableInv(actors, t);
    assert ReplicaOk(t.replicas[i], t.absorbed[i], t.issued);
    HeldIsLatest(t.replicas[i].entries, t.absorbed[i], w);
  }

  // ---- Clocks in every run

  /** The clock is the highest clock value among the writes taken in, or zero. */
  ghost predicate ClockExact(r: Replica, ws: set<Write>)
  {
    ClockCovers(r, ws) && (r.lamport == 0 || exists w :: w in ws && w.version.lamport == r.lamport)
  }

  ghost predicate ClocksExact(s: System)
  {
    |s.absorbed| == |s.replicas| && forall i :: 0 <= i < |s.replicas| ==> ClockExact(s.replicas[i], s.absorbed[i])
  }

  lemma LocalClock(r: Replica, ws: set<Write>, key: Text, value: Value, deleted: bool)
    requires ClockExact(r, ws)
    ensures var (t, w) := LocalWrite(r, key, value, deleted); ClockExact(t, ws + {w})
  {
    var (t, w) := LocalWrite(r, key, value, deleted);
    assert w in ws + {w};
  }

  lemma MergeClock(r: Replica, ws: set<Write>, w: Write)
    requires ClockExact(r, ws)
    ensures ClockExact(Merge(r, w), ws + {w})
  {
    if w.version.lamport >= r.lamport {
      assert w in ws + {w};
    } else {
      var v :| v in ws && v.version.lamport == r.lamport;
      assert v in ws + {w};
    }
  }

  lemma StepClocks(s: System, a: Action)
    requires ClocksExact(s) && Possible(s, a)
    ensures ClocksExact(Step(s, a))
  {
    hide ClockExact, LocalWrite, Merge;
    match a
    case Local(i, key, value, deleted) => LocalClock(s.replicas[i], s.absorbed[i], key, value, deleted);
    case Absorb(i, w) => MergeClock(s.replicas[i], s.absorbed[i], w);
  }

  lemma {:induction false} RunClocks(s: System, actions: seq<Action>, t: System)
    requires ClocksExact(s) && Run(s, actions, t)
    ensures ClocksExact(t)
    decreases |actions|
  {
    if actions != [] {
      hide ClockExact, Step;
      var n := |actions| - 1;
      var u :| Run(s, actions[..n], u) && |u.absorbed| == |u.replicas| && Possible(u, actions[n])
        && t == Step(u, actions[n]);
      RunClocks(s, actions[..n], u);
      StepClocks(u, actions[n]);
    }
  }

  /** In every run a replica's clock is exactly the highest clock value among the writes it has taken in. */
  lemma ClockIsHighestTakenIn(actors: seq<Text>, t: System, i: nat)
    requires Reachable(actors, t) && i < |t.replicas|
    ensures |t.absorbed| == |t.replicas| && ClockExact(t.replicas[i], t.absorbed[i])
  {
    assert ClocksExact(Start(actors));
    hide ClockExact, Start, Run;
    var actions :| Run(Start(actors), actions, t);
    RunClocks(Start(actors), actions, t);
  }
}
