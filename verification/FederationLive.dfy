/** Frames and band lists do get across: from every reachable mesh, over any link that is up. */
module FederationLive {
  import Registry
  import opened BigEndian
  import opened Federation
  import opened FederationTheorems

  // ---- Runs, one after the other

  lemma {:induction false} ExecAppend(m: Mesh, a: seq<Step>, b: seq<Step>)
    ensures Exec(m, a + b) == Exec(Exec(m, a), b)
    decreases |b|
  {
    hide Enabled, Next;
    if b == [] {
      assert a + b == a;
    } else {
      ExecAppend(m, a, b[..|b| - 1]);
      assert (a + b)[..|a + b| - 1] == a + b[..|b| - 1];
    }
  }

  lemma ExecOne(m: Mesh, s: Step)
    requires Enabled(m, s)
    ensures Exec(m, [s]) == Next(m, s)
  {
    hide Enabled, Next;
    assert [s][..0] == [];
    assert Exec(m, []) == m;
  }

  lemma ExecFirst(m: Mesh, s: Step, rest: seq<Step>)
    requires Enabled(m, s)
    ensures Exec(m, [s] + rest) == Exec(Next(m, s), rest)
  {
    hide Enabled, Next, Exec;
    ExecAppend(m, [s], rest);
    ExecOne(m, s);
  }

  // ---- Fanning out

  /** Items still on their way to end `e` of this hub. */
  function Pending(hub: Hub, e: EndId): nat
  {
    |hub.egress| + if hub.fan.Some? && e in hub.fan.value.todo then 1 else 0
  }

  /** The item waits to be handed out, is in hand with `e` still to come, or is on `e`'s queue. */
  ghost predicate OnItsWay(hub: Hub, end: End, e: EndId, item: Item)
  {
    item in hub.egress || (hub.fan.Some? && hub.fan.value.item == item && e in hub.fan.value.todo)
    || Relay(item) in end.queue
  }

  ghost predicate Light(msg: Msg)
  {
    Writable(Encode(msg))
  }

  /** Nothing on its way to `e`, or on its queue, is too long to be written. */
  ghost predicate AllLight(hub: Hub, end: End)
  {
    && (forall i :: 0 <= i < |hub.egress| ==> Light(Relay(hub.egress[i])))
    && (hub.fan.Some? ==> Light(Relay(hub.fan.value.item)))
    && (forall i :: 0 <= i < |end.queue| ==> Light(end.queue[i]))
  }

  /** A link of the hub that is active, whose far side has the band, and whose queue has room for what is coming. */
  ghost predicate Carrying(hub: Hub, end: End, e: EndId, item: Item)
  {
    && e in hub.links && end.active && item.band in end.wants && |end.queue| + Pending(hub, e) <= QUEUE_DEPTH
    && OnItsWay(hub, end, e, item) && AllLight(hub, end)
  }

  /** Fan-out touches nothing but queues on this side. */
  ghost predicate Quiet(m: Mesh, z: Mesh)
  {
    && z.hubs.Keys == m.hubs.Keys && z.ends.Keys == m.ends.Keys
    && z.sources == m.sources && z.deliveries == m.deliveries
    && (forall g :: g in m.hubs ==> z.hubs[g].bands == m.hubs[g].bands)
    && (forall x :: x in m.ends ==> z.ends[x] == m.ends[x].(queue := z.ends[x].queue))
  }

  lemma StartCarries(hub: Hub, end: End, e: EndId, item: Item)
    requires Carrying(hub, end, e, item) && hub.fan.None? && hub.egress != []
    ensures Carrying(FanStartAt(hub), end, e, item)
  {
    if item in hub.egress {
      var i :| 0 <= i < |hub.egress| && hub.egress[i] == item;
      if i > 0 { assert hub.egress[1..][i - 1] == item; }
    }
  }

  /** The hub after the next link of the snapshot has had the item. */
  ghost function Onward(hub: Hub): Hub
    requires hub.fan.Some?
  {
    if hub.fan.value.todo == [] then hub.(fan := None)
    else hub.(fan := Some(hub.fan.value.(todo := hub.fan.value.todo[1..])))
  }

  /** `end` after the hub has handed the item in hand to the next link, if that is `e`. */
  ghost function AfterHand(hub: Hub, end: End, e: EndId): End
    requires hub.fan.Some?
  {
    if hub.fan.value.todo != [] && hub.fan.value.todo[0] == e then Handed(end, hub.fan.value.item) else end
  }

  lemma HandCarries(hub: Hub, end: End, e: EndId, item: Item)
    requires Carrying(hub, end, e, item) && hub.fan.Some? && Distinct(hub.fan.value.todo)
    ensures Carrying(Onward(hub), AfterHand(hub, end, e), e, item)
    ensures AfterHand(hub, end, e) == end.(queue := AfterHand(hub, end, e).queue)
  {
    var fan, next, z := hub.fan.value, Onward(hub), AfterHand(hub, end, e);
    if fan.todo != [] {
      var rest := fan.todo[1..];
      assert fan.todo == [fan.todo[0]] + rest;
      assert e in fan.todo <==> e == fan.todo[0] || e in rest;
      assert fan.todo[0] !in rest;
      if fan.todo[0] == e {
        HandedWritable(end, fan.item);
      }
    }
  }

  lemma HandedWritable(end: End, item: Item)
    requires |end.queue| < QUEUE_DEPTH && Light(Relay(item)) && forall i :: 0 <= i < |end.queue| ==> Light(end.queue[i])
    ensures var z := Handed(end, item);
            && (forall i :: 0 <= i < |z.queue| ==> Light(z.queue[i])) && (forall x :: x in end.queue ==> x in z.queue)
            && (end.active && item.band in end.wants ==> Relay(item) in z.queue && |z.queue| == |end.queue| + 1)
            && |z.queue| <= |end.queue| + 1
  {
    hide Light;
    assert (end.queue + [Relay(item)])[|end.queue|] == Relay(item);
  }

  /** What the fan-out task does next, if there is anything to do. */
  function FanStep(hub: Hub, h: HubId): Step
  {
    if hub.fan.Some? then FanOne(h) else FanStart(h)
  }

  predicate Idle(hub: Hub)
  {
    hub.fan.None? && hub.egress == []
  }

  lemma TodoIsThere(m: Mesh, h: HubId)
    requires Inv(m) && h in m.hubs && m.hubs[h].fan.Some?
    ensures Distinct(m.hubs[h].fan.value.todo)
    ensures forall i :: 0 <= i < |m.hubs[h].fan.value.todo| ==> m.hubs[h].fan.value.todo[i] in m.ends
  {
    assert HubOk(h, m.hubs[h], Faces(m.ends), m.sources);
    assert Faces(m.ends).Keys == m.ends.Keys;
    hide HubsOk, FacesOk, EndsOk, DeliveriesOk, Faces, Paired, EgressOk;
  }

  lemma FanAdvances(m: Mesh, h: HubId, e: EndId, item: Item)
    requires Inv(m) && h in m.hubs && e in m.ends && Carrying(m.hubs[h], m.ends[e], e, item) && !Idle(m.hubs[h])
    ensures Enabled(m, FanStep(m.hubs[h], h))
    ensures var z := Next(m, FanStep(m.hubs[h], h));
            Inv(z) && Quiet(m, z) && h in z.hubs && e in z.ends && Carrying(z.hubs[h], z.ends[e], e, item)
            && z.hubs[h] == if m.hubs[h].fan.Some? then Onward(m.hubs[h]) else FanStartAt(m.hubs[h])
  {
    hide Inv, Carrying, Pending, OnItsWay, AllLight;
    var hub := m.hubs[h];
    if hub.fan.Some? {
      TodoIsThere(m, h);
      HandCarries(hub, m.ends[e], e, item);
    } else {
      StartCarries(hub, m.ends[e], e, item);
    }
    StepKeeps(m, FanStep(hub, h));
  }

  lemma QuietTwice(m: Mesh, z: Mesh, y: Mesh)
    requires Quiet(m, z) && Quiet(z, y)
    ensures Quiet(m, y)
  {
  }

  lemma QuietSelf(m: Mesh)
    ensures Quiet(m, m)
  {
  }

  /** The fan-out task, left to itself, puts the item on every such link's queue. */
  lemma {:induction false} FanReaches(m: Mesh, h: HubId, e: EndId, item: Item) returns (steps: seq<Step>)
    requires Inv(m) && h in m.hubs && e in m.ends && Carrying(m.hubs[h], m.ends[e], e, item)
    ensures var z := Exec(m, steps);
            && Inv(z) && Quiet(m, z) && e in z.ends
            && Relay(item) in z.ends[e].queue && forall i :: 0 <= i < |z.ends[e].queue| ==> Light(z.ends[e].queue[i])
    decreases |m.hubs[h].egress|, if m.hubs[h].fan.Some? then |m.hubs[h].fan.value.todo| + 1 else 0
  {
    if Idle(m.hubs[h]) {
      steps := [];
      Arrived(m.hubs[h], m.ends[e], e, item);
      QuietSelf(m);
      assert Exec(m, []) == m;
    } else {
      FanAdvances(m, h, e, item);
      var s := FanStep(m.hubs[h], h);
      var z := Next(m, s);
      hide Inv, Carrying, Quiet, Enabled, Next, Exec, Light;
      var rest := FanReaches(z, h, e, item);
      steps := [s] + rest;
      ExecFirst(m, s, rest);
      QuietTwice(m, z, Exec(z, rest));
    }
  }

  lemma Arrived(hub: Hub, end: End, e: EndId, item: Item)
    requires Carrying(hub, end, e, item) && Idle(hub)
    ensures Relay(item) in end.queue && forall i :: 0 <= i < |end.queue| ==> Light(end.queue[i])
  {
  }

  // ---- Writing

  /** Writing moves messages from `e`'s queue to the far side's inbox. */
  ghost predicate Wrote(m: Mesh, z: Mesh, e: EndId, f: EndId)
  {
    && z.hubs == m.hubs && z.sources == m.sources && z.deliveries == m.deliveries && e in z.ends && f in z.ends
    && f in m.ends && z.ends[f] == m.ends[f].(inbox := z.ends[f].inbox)
  }

  lemma WriteOne(m: Mesh, e: EndId)
    requires Inv(m) && e in m.ends && m.ends[e].open && m.ends[e].queue != [] && Light(m.ends[e].queue[0])
    ensures m.ends[e].far in m.ends && Enabled(m, Write(e))
    ensures var z, f := Next(m, Write(e)), m.ends[e].far;
            && Inv(z) && Wrote(m, z, e, f) && e in z.ends && f in z.ends && z.ends[e].open && z.ends[e].far == f
            && z.ends[e].queue == m.ends[e].queue[1..]
            && z.ends[f].inbox == m.ends[f].inbox + [Encode(m.ends[e].queue[0])]
  {
    FarIsThere(m, e);
    hide Inv, Encode;
    StepKeeps(m, Write(e));
    WriteEffect(m, e);
    hide WriteAt;
  }

  lemma FarIsThere(m: Mesh, e: EndId)
    requires Inv(m) && e in m.ends
    ensures m.ends[e].far in m.ends && m.ends[e].far != e
  {
    hide HubsOk, FacesOk, EndsOk, DeliveriesOk, Faces;
  }

  lemma WriteEffect(m: Mesh, e: EndId)
    requires Enabled(m, Write(e)) && m.ends[e].far != e
    ensures var z, f := WriteAt(m, e), m.ends[e].far;
            && Wrote(m, z, e, f) && z.ends[e].open && z.ends[e].far == f && z.ends[e].queue == m.ends[e].queue[1..]
            && z.ends[f].inbox == m.ends[f].inbox + [Encode(m.ends[e].queue[0])]
  {
    hide Encode;
  }

  /** A link that is up writes its queue in order, as far as message `i`. */
  lemma {:induction false} WriteReaches(m: Mesh, e: EndId, i: nat) returns (steps: seq<Step>)
    requires Inv(m) && e in m.ends && m.ends[e].open && i < |m.ends[e].queue|
    requires forall j :: 0 <= j <= i ==> Light(m.ends[e].queue[j])
    ensures m.ends[e].far in m.ends
    ensures var z, f := Exec(m, steps), m.ends[e].far;
            && Inv(z) && Wrote(m, z, e, f) && f in z.ends && z.ends[f].inbox != []
            && z.ends[f].inbox[|z.ends[f].inbox| - 1] == Encode(m.ends[e].queue[i])
    decreases i
  {
    hide Inv, Enabled, Next, Exec, Encode, Light, Wrote;
    WriteOne(m, e);
    var z := Next(m, Write(e));
    if i == 0 {
      steps := [Write(e)];
      ExecOne(m, Write(e));
    } else {
      assert forall j :: 0 <= j <= i - 1 ==> z.ends[e].queue[j] == m.ends[e].queue[j + 1];
      var rest := WriteReaches(z, e, i - 1);
      steps := [Write(e)] + rest;
      ExecFirst(m, Write(e), rest);
      WroteTwice(m, z, Exec(z, rest), e, m.ends[e].far);
    }
  }

  lemma WroteTwice(m: Mesh, z: Mesh, y: Mesh, e: EndId, f: EndId)
    requires Wrote(m, z, e, f) && Wrote(z, y, e, f)
    ensures Wrote(m, y, e, f)
  {
  }

  // ---- Reading

  /** Reading end `f` to the end of its inbox, with `last` the last message there. */
  ghost predicate TookIn(m: Mesh, z: Mesh, f: EndId, last: Wire)
    requires f in m.ends && m.ends[f].hub in m.hubs
  {
    && z.hubs == m.hubs && m.deliveries <= z.deliveries && f in z.ends && z.ends[f].inbox == []
    && (last.BandsMsg? ==> z.ends[f].wants == DecodeBands(last.payload))
    && (last.RelayMsg? && m.ends[f].active && DecodeRelay(last.payload).Some? ==>
          var (band, frame) := DecodeRelay(last.payload).value;
          Injected(m.hubs[m.ends[f].hub].bands, m.ends[f].hub, f, last.tag, band, frame) in z.deliveries)
  }

  lemma ReadOne(m: Mesh, f: EndId)
    requires Inv(m) && f in m.ends && m.ends[f].open && m.ends[f].inbox != []
    ensures m.ends[f].hub in m.hubs && Enabled(m, Read(f))
    ensures var z := Next(m, Read(f));
            && Inv(z) && z.hubs == m.hubs && m.deliveries <= z.deliveries
            && f in z.ends && z.ends[f].inbox == m.ends[f].inbox[1..]
            && z.ends[f].hub == m.ends[f].hub && z.ends[f].open && z.ends[f].active == m.ends[f].active
            && (|m.ends[f].inbox| == 1 ==> TookIn(m, z, f, m.ends[f].inbox[0]))
  {
    HubIsThere(m, f);
    hide Inv, DecodeBands, DecodeRelay, Injected;
    StepKeeps(m, Read(f));
    ReadEffect(m, f);
  }

  lemma HubIsThere(m: Mesh, f: EndId)
    requires Inv(m) && f in m.ends
    ensures m.ends[f].hub in m.hubs
  {
    assert Faces(m.ends)[f].hub == m.ends[f].hub && FaceOk(Faces(m.ends)[f], m.hubs, m.sources);
  }

  lemma ReadEffect(m: Mesh, f: EndId)
    requires Enabled(m, Read(f))
    ensures var z := ReadAt(m, f);
            && z.hubs == m.hubs && m.deliveries <= z.deliveries
            && f in z.ends && z.ends[f].inbox == m.ends[f].inbox[1..]
            && z.ends[f].hub == m.ends[f].hub && z.ends[f].open && z.ends[f].active == m.ends[f].active
            && (|m.ends[f].inbox| == 1 ==> TookIn(m, z, f, m.ends[f].inbox[0]))
  {
    hide DecodeBands, DecodeRelay, Injected;
    var z := ReadAt(m, f);
    assert |m.ends[f].inbox| == 1 ==> m.ends[f].inbox[1..] == [];
    var msg := m.ends[f].inbox[0];
    if msg.RelayMsg? && m.ends[f].active && DecodeRelay(msg.payload).Some? {
      assert z.deliveries[|m.deliveries|] in z.deliveries;
    }
  }

  lemma {:induction false} ReadReaches(m: Mesh, f: EndId) returns (steps: seq<Step>)
    requires Inv(m) && f in m.ends && m.ends[f].open && m.ends[f].inbox != []
    ensures m.ends[f].hub in m.hubs
    ensures TookIn(m, Exec(m, steps), f, m.ends[f].inbox[|m.ends[f].inbox| - 1])
    decreases |m.ends[f].inbox|
  {
    hide Inv, Enabled, Next, Exec, DecodeBands, DecodeRelay, Injected;
    ReadOne(m, f);
    var z := Next(m, Read(f));
    if |m.ends[f].inbox| == 1 {
      steps := [Read(f)];
      ExecOne(m, Read(f));
    } else {
      var rest := ReadReaches(z, f);
      steps := [Read(f)] + rest;
      ExecFirst(m, Read(f), rest);
    }
  }

  // ---- Across a link

  /** Both ends are up, and the far one takes frames. */
  ghost predicate Up(ends: map<EndId, End>, e: EndId)
  {
    e in ends && ends[e].open && ends[e].far in ends && ends[ends[e].far].open
  }

  lemma QueuedGetsThere(m: Mesh, e: EndId, i: nat) returns (steps: seq<Step>)
    requires Inv(m) && Up(m.ends, e) && i < |m.ends[e].queue|
    requires forall j :: 0 <= j <= i ==> Light(m.ends[e].queue[j])
    ensures m.ends[m.ends[e].far].hub in m.hubs
    ensures TookIn(m, Exec(m, steps), m.ends[e].far, Encode(m.ends[e].queue[i]))
  {
    hide Inv, Exec, Encode, Light, DecodeBands, DecodeRelay, Injected;
    var f := m.ends[e].far;
    var sent := WriteReaches(m, e, i);
    var z := Exec(m, sent);
    var taken := ReadReaches(z, f);
    steps := sent + taken;
    ExecAppend(m, sent, taken);
  }

  /** In every reachable mesh: a frame that its hub offers to its links, with a band that is wanted on link `e`, both
      ends up and active and its queues with room and nothing too long on them, is delivered twice: at its own hub to
      the peers `Forward` names, and at the far hub, the same bytes, to the peers `Inject` names there. */
  lemma FrameCrosses(hubs: set<HubId>, history: seq<Step>, h: HubId, key: Registry.PeerKey, band: BandId,
                     frame: Registry.Packet, e: EndId) returns (steps: seq<Step>)
    requires var m := Exec(Start(hubs), history);
             && h in m.hubs && band in m.hubs[h].bands && |frame| >= Registry.MIN_PACKET_LEN
             && Registry.RouteInfo(frame).value.kind != Registry.Route && Light(Relay(Item(band, frame, |m.sources|)))
             && Up(m.ends, e) && e in m.hubs[h].links && m.ends[e].active && band in m.ends[e].wants
             && m.ends[m.ends[e].far].active && AllLight(m.hubs[h], m.ends[e])
             && |m.ends[e].queue| + Pending(m.hubs[h], e) < QUEUE_DEPTH
    ensures var m := Exec(Start(hubs), history);
            var f := m.ends[e].far;
            && m.ends[f].hub in m.hubs
            && var deliveries := Exec(m, [Local(h, key, band, frame)] + steps).deliveries;
            && Delivery(|m.sources|, h, None, band, frame, Registry.Forward(m.hubs[h].bands, band, key, frame).1,
                        m.hubs[h].bands[band].Keys) in deliveries
            && var there := m.hubs[m.ends[f].hub].bands;
            Delivery(|m.sources|, m.ends[f].hub, Some(f), band, frame, Registry.Inject(there, band, frame),
                     Registry.PeersOf(there, band).Keys) in deliveries
  {
    var m := Exec(Start(hubs), history);
    RunKeepsInv(hubs, history);
    var local, item := Local(h, key, band, frame), Item(band, frame, |m.sources|);
    OfferedLocally(m, h, key, band, frame, e);
    StepKeeps(m, local);
    var z := Next(m, local);
    assert z == LocalFrame(m, h, key, band, frame);
    hide Inv, Exec, Carrying, AllLight, Light, LocalFrame, Pending;
    hide Registry.Forward, Registry.Inject, Registry.RouteInfo;
    assert Enabled(m, local);
    hide Enabled, Next;
    steps := ItemCrosses(z, h, e, item);
    ExecFirst(m, local, steps);
    assert z.deliveries <= Exec(z, steps).deliveries;
  }

  /** An item on its way at one hub is delivered at the other. */
  lemma ItemCrosses(z: Mesh, h: HubId, e: EndId, item: Item) returns (steps: seq<Step>)
    requires Inv(z) && h in z.hubs && Up(z.ends, e) && z.ends[z.ends[e].far].active && Light(Relay(item))
    requires Carrying(z.hubs[h], z.ends[e], e, item)
    ensures var f := z.ends[e].far;
            var after := Exec(z, steps).deliveries;
            && z.ends[f].hub in z.hubs && z.deliveries <= after
            && Injected(z.hubs[z.ends[f].hub].bands, z.ends[f].hub, f, item.tag, item.band, item.frame) in after
  {
    hide Inv, Exec, Carrying, Quiet, Light, Encode, DecodeRelay, DecodeBands, Injected;
    var fans := FanReaches(z, h, e, item);
    var y := Exec(z, fans);
    QuietDeliveries(z, y);
    QuietUp(z, y, e);
    QuietBands(z, y, e);
    var i :| 0 <= i < |y.ends[e].queue| && y.ends[e].queue[i] == Relay(item);
    var rest := QueuedGetsThere(y, e, i);
    steps := fans + rest;
    ExecAppend(z, fans, rest);
    Decodes(item);
  }

  lemma OfferedLocally(m: Mesh, h: HubId, key: Registry.PeerKey, band: BandId, frame: Registry.Packet, e: EndId)
    requires h in m.hubs && band in m.hubs[h].bands && |frame| >= Registry.MIN_PACKET_LEN
    requires Registry.RouteInfo(frame).value.kind != Registry.Route && Light(Relay(Item(band, frame, |m.sources|)))
    requires e in m.ends && e in m.hubs[h].links && m.ends[e].active && band in m.ends[e].wants
    requires AllLight(m.hubs[h], m.ends[e]) && |m.ends[e].queue| + Pending(m.hubs[h], e) < QUEUE_DEPTH
    ensures var z := LocalFrame(m, h, key, band, frame);
            && z.ends == m.ends && h in z.hubs && z.hubs.Keys == m.hubs.Keys
            && (forall g :: g in m.hubs ==> z.hubs[g].bands == m.hubs[g].bands)
            && Carrying(z.hubs[h], m.ends[e], e, Item(band, frame, |m.sources|))
            && Delivery(|m.sources|, h, None, band, frame, Registry.Forward(m.hubs[h].bands, band, key, frame).1,
                        m.hubs[h].bands[band].Keys) in z.deliveries
  {
    hide Light, Registry.Targets;
    var z := LocalFrame(m, h, key, band, frame);
    assert z.deliveries[|m.deliveries|] in z.deliveries;
    var item, egress := Item(band, frame, |m.sources|), m.hubs[h].egress;
    assert (egress + [item])[|egress|] == item;
  }

  lemma QuietDeliveries(z: Mesh, y: Mesh)
    requires Quiet(z, y)
    ensures y.deliveries == z.deliveries
  {
  }

  lemma QuietUp(z: Mesh, y: Mesh, e: EndId)
    requires Quiet(z, y) && Up(z.ends, e)
    ensures Up(y.ends, e) && y.ends[e].far == z.ends[e].far
  {
  }

  lemma QuietBands(z: Mesh, y: Mesh, e: EndId)
    requires Quiet(z, y) && Up(z.ends, e)
    ensures var f := z.ends[e].far;
            && y.ends[f].hub == z.ends[f].hub && y.ends[f].active == z.ends[f].active
            && (z.ends[f].hub in z.hubs <==> z.ends[f].hub in y.hubs)
            && (z.ends[f].hub in z.hubs ==> y.hubs[z.ends[f].hub].bands == z.hubs[z.ends[f].hub].bands)
  {
  }

  lemma Decodes(item: Item)
    requires Light(Relay(item))
    ensures Encode(Relay(item)).RelayMsg? && Encode(Relay(item)).tag == item.tag
    ensures DecodeRelay(Encode(Relay(item)).payload) == Some((item.band, item.frame))
  {
    hide DecodeRelay;
    RelayRoundTrip(item.band, item.frame);
  }

  /** Once a hub has advertised its bands on a link that is up, and its queue ahead has been written, the far side wants
      exactly those bands. */
  lemma BandsAreLearned(hubs: set<HubId>, history: seq<Step>, e: EndId, list: seq<BandId>) returns (steps: seq<Step>)
    requires var m := Exec(Start(hubs), history);
             && Up(m.ends, e) && Enabled(m, Advertise(e, list)) && |list| <= MAX_BANDS
             && |m.ends[e].queue| < QUEUE_DEPTH && forall i :: 0 <= i < |m.ends[e].queue| ==> Light(m.ends[e].queue[i])
    ensures var m := Exec(Start(hubs), history);
            var z := Exec(m, [Advertise(e, list)] + steps);
            m.ends[e].far in z.ends && z.ends[m.ends[e].far].wants == m.hubs[m.ends[e].hub].bands.Keys
  {
    var m := Exec(Start(hubs), history);
    var q := m.ends[e].queue;
    hide Inv, Next, Exec, Light, Up, EncodeBands, DecodeBands, Enabled;
    RunKeepsInv(hubs, history);
    var z := Next(m, Advertise(e, list));
    Advertises(m, e, list);
    ListIsLight(list);
    StepKeeps(m, Advertise(e, list));
    steps := QueuedGetsThere(z, e, |q|);
    ExecFirst(m, Advertise(e, list), steps);
    BandsRoundTrip(list);
  }

  lemma Advertises(m: Mesh, e: EndId, list: seq<BandId>)
    requires Up(m.ends, e) && Enabled(m, Advertise(e, list)) && |m.ends[e].queue| < QUEUE_DEPTH
    ensures var z := Next(m, Advertise(e, list));
            && Up(z.ends, e) && z.ends[e].far == m.ends[e].far
            && z.ends[e].queue == m.ends[e].queue + [Bands(EncodeBands(list))]
            && Members(list) == m.hubs[m.ends[e].hub].bands.Keys
  {
    hide EncodeBands;
  }

  lemma ListIsLight(list: seq<BandId>)
    ensures Light(Bands(EncodeBands(list)))
  {
    hide Join;
    assert |EncodeBands(list)| == 2 + |Advertised(list)| * Registry.BAND_ID_LEN;
  }
}
