/** One hop in any link graph, over every interleaving. */
module FederationTheorems {
  import Registry
  import opened BigEndian
  import opened Federation

  // ---- Tags in queues

  /** The tags of the RELAYs in a queue, in order. */
  ghost function Tags(queue: seq<Msg>): seq<nat>
  {
    if queue == [] then []
    else
      var last := queue[|queue| - 1];
      Tags(queue[..|queue| - 1]) + TagOf(last)
  }

  ghost function TagOf(msg: Msg): seq<nat>
  {
    if msg.Relay? then [msg.item.tag] else []
  }

  lemma TagsSnoc(queue: seq<Msg>, msg: Msg)
    ensures Tags(queue + [msg]) == Tags(queue) + TagOf(msg)
  {
    assert (queue + [msg])[..|queue|] == queue;
  }

  lemma {:induction false} TagsHead(queue: seq<Msg>)
    requires queue != []
    ensures Tags(queue) == TagOf(queue[0]) + Tags(queue[1..])
  {
    if |queue| > 1 {
      TagsHead(queue[..|queue| - 1]);
      assert queue[..|queue| - 1][1..] == queue[1..][..|queue| - 2];
    }
  }

  /** The same for messages on the wire. */
  ghost function WireTags(inbox: seq<Wire>): seq<nat>
  {
    if inbox == [] then [] else WireTags(inbox[..|inbox| - 1]) + WireTag(inbox[|inbox| - 1])
  }

  ghost function WireTag(w: Wire): seq<nat>
  {
    if w.RelayMsg? then [w.tag] else []
  }

  lemma WireTagsSnoc(inbox: seq<Wire>, w: Wire)
    ensures WireTags(inbox + [w]) == WireTags(inbox) + WireTag(w)
  {
    assert (inbox + [w])[..|inbox|] == inbox;
  }

  lemma {:induction false} WireTagsHead(inbox: seq<Wire>)
    requires inbox != []
    ensures WireTags(inbox) == WireTag(inbox[0]) + WireTags(inbox[1..])
  {
    if |inbox| > 1 {
      WireTagsHead(inbox[..|inbox| - 1]);
      assert inbox[..|inbox| - 1][1..] == inbox[1..][..|inbox| - 2];
    }
  }

  ghost predicate Increasing(tags: seq<nat>)
  {
    forall i, j :: 0 <= i < j < |tags| ==> tags[i] < tags[j]
  }

  ghost predicate Distinct(ids: seq<EndId>)
  {
    forall i, j :: 0 <= i < j < |ids| ==> ids[i] != ids[j]
  }

  // ---- What each hub and each link knows

  /** The part of an end that matters to fan-out: `pushed` is every RELAY ever queued on it. */
  datatype Face = Face(hub: HubId, active: bool, pushed: seq<nat>)

  ghost function FaceOf(end: End): Face
  {
    Face(end.hub, end.active, end.relayed + Tags(end.queue))
  }

  ghost function Faces(ends: map<EndId, End>): map<EndId, Face>
  {
    map e | e in ends :: FaceOf(ends[e])
  }

  ghost predicate From(item: Item, h: HubId, sources: seq<Source>)
  {
    item.tag < |sources| && sources[item.tag] == Source(h, item.band, item.frame)
  }

  ghost predicate EgressOk(h: HubId, egress: seq<Item>, fanned: int, sources: seq<Source>)
  {
    && fanned < |sources|
    && (forall i :: 0 <= i < |egress| ==> From(egress[i], h, sources) && fanned < egress[i].tag)
    && (forall i, j :: 0 <= i < j < |egress| ==> egress[i].tag < egress[j].tag)
  }

  ghost predicate LinksOk(h: HubId, links: seq<EndId>, faces: map<EndId, Face>)
  {
    Distinct(links) && forall i :: 0 <= i < |links| ==> links[i] in faces && faces[links[i]].hub == h
  }

  /** The item in hand has not been queued on any link still to come. */
  ghost predicate FanOk(h: HubId, fan: Option<Fanning>, fanned: int, faces: map<EndId, Face>, sources: seq<Source>)
  {
    fan.Some? ==>
      && From(fan.value.item, h, sources) && fan.value.item.tag == fanned && LinksOk(h, fan.value.todo, faces)
      && forall i, k :: 0 <= i < |fan.value.todo| && 0 <= k < |faces[fan.value.todo[i]].pushed| ==>
           faces[fan.value.todo[i]].pushed[k] < fanned
  }

  ghost predicate HubOk(h: HubId, hub: Hub, faces: map<EndId, Face>, sources: seq<Source>)
  {
    && EgressOk(h, hub.egress, hub.fanned, sources)
    && FanOk(h, hub.fan, hub.fanned, faces, sources)
    && LinksOk(h, hub.links, faces)
  }

  ghost predicate HubsOk(hubs: map<HubId, Hub>, faces: map<EndId, Face>, sources: seq<Source>)
  {
    forall h :: h in hubs ==> HubOk(h, hubs[h], faces, sources)
  }

  /** Each link is handed each tag at most once, in order, and only tags of frames its own hub sourced. */
  ghost predicate FaceOk(face: Face, hubs: map<HubId, Hub>, sources: seq<Source>)
  {
    && face.hub in hubs
    && Increasing(face.pushed)
    && (forall k :: 0 <= k < |face.pushed| ==>
          face.pushed[k] < |sources| && sources[face.pushed[k]].hub == face.hub
              && face.pushed[k] <= hubs[face.hub].fanned)
    && (!face.active ==> face.pushed == [])
  }

  ghost predicate FacesOk(faces: map<EndId, Face>, hubs: map<HubId, Hub>, sources: seq<Source>)
  {
    forall e :: e in faces ==> FaceOk(faces[e], hubs, sources)
  }

  ghost predicate MessagesOk(queue: seq<Msg>, h: HubId, sources: seq<Source>)
  {
    forall i :: 0 <= i < |queue| && queue[i].Relay? ==> From(queue[i].item, h, sources)
  }

  /** The two ends of a link know each other. */
  ghost predicate Paired(ends: map<EndId, End>)
  {
    forall e :: e in ends ==> ends[e].far != e && ends[e].far in ends && ends[ends[e].far].far == e
  }

  /** What an end has read or has yet to read is what the other end has written. */
  ghost predicate WireOk(read: seq<nat>, inbox: seq<Wire>, relayed: seq<nat>, farHub: HubId, sources: seq<Source>)
  {
    read + WireTags(inbox) == relayed && forall i :: 0 <= i < |inbox| ==> Carries(inbox[i], farHub, sources)
  }

  /** A RELAY on the wire is the encoding of the frame its tag stands for, short enough to be read back. */
  ghost predicate Carries(w: Wire, h: HubId, sources: seq<Source>)
  {
    w.RelayMsg? ==>
      && w.tag < |sources| && sources[w.tag].hub == h && |sources[w.tag].frame| < U32_LIMIT
      && w.payload == EncodeRelay(sources[w.tag].band, sources[w.tag].frame)
  }

  ghost predicate EndOk(end: End, ends: map<EndId, End>, sources: seq<Source>)
  {
    && MessagesOk(end.queue, end.hub, sources) && end.far in ends
    && WireOk(end.read, end.inbox, ends[end.far].relayed, ends[end.far].hub, sources)
  }

  ghost predicate EndsOk(ends: map<EndId, End>, sources: seq<Source>)
  {
    forall e :: e in ends ==> EndOk(ends[e], ends, sources)
  }

  // ---- What was delivered

  ghost predicate DeliveryOk(d: Delivery, ends: map<EndId, End>, sources: seq<Source>)
  {
    && d.tag < |sources| && d.band == sources[d.tag].band && d.frame == sources[d.tag].frame && d.peers <= d.members
    && match d.via
       case None => d.hub == sources[d.tag].hub
       case Some(e) =>
         && e in ends && ends[e].active && ends[e].hub == d.hub && d.tag in ends[e].read
         && ends[e].far in ends && ends[ends[e].far].hub == sources[d.tag].hub
  }

  /** A frame is delivered at most once where it was sourced, and at most once over each link. */
  ghost predicate OncePerPath(deliveries: seq<Delivery>)
  {
    forall i, j :: 0 <= i < j < |deliveries| ==>
      deliveries[i].tag != deliveries[j].tag || deliveries[i].via != deliveries[j].via
  }

  ghost predicate DeliveriesOk(deliveries: seq<Delivery>, ends: map<EndId, End>, sources: seq<Source>)
  {
    OncePerPath(deliveries) && forall i :: 0 <= i < |deliveries| ==> DeliveryOk(deliveries[i], ends, sources)
  }

  ghost predicate Inv(m: Mesh)
  {
    && HubsOk(m.hubs, Faces(m.ends), m.sources)
    && FacesOk(Faces(m.ends), m.hubs, m.sources)
    && Paired(m.ends)
    && EndsOk(m.ends, m.sources)
    && DeliveriesOk(m.deliveries, m.ends, m.sources)
  }

  // ---- More history

  lemma MoreSources(m: Mesh, s: Source)
    requires Inv(m)
    ensures Inv(m.(sources := m.sources + [s]))
  {
    var more := m.sources + [s];
    hide Faces, HubOk, FaceOk, EndOk, OncePerPath, DeliveryOk;
    forall h | h in m.hubs ensures HubOk(h, m.hubs[h], Faces(m.ends), more) {
      HubOkGrows(h, m.hubs[h], Faces(m.ends), m.sources, s);
    }
    forall e | e in Faces(m.ends) ensures FaceOk(Faces(m.ends)[e], m.hubs, more) {
      FaceOkGrows(Faces(m.ends)[e], m.hubs, m.sources, s);
    }
    forall e | e in m.ends ensures EndOk(m.ends[e], m.ends, more) {
      EndGrows(m.ends[e], m.ends, m.sources, s);
    }
    forall i | 0 <= i < |m.deliveries| ensures DeliveryOk(m.deliveries[i], m.ends, more) {
      DeliveryGrows(m.deliveries[i], m.ends, m.sources, s);
    }
  }

  lemma HubOkGrows(h: HubId, hub: Hub, faces: map<EndId, Face>, sources: seq<Source>, s: Source)
    requires HubOk(h, hub, faces, sources)
    ensures HubOk(h, hub, faces, sources + [s])
  {
    hide LinksOk;
  }

  lemma FaceOkGrows(face: Face, hubs: map<HubId, Hub>, sources: seq<Source>, s: Source)
    requires FaceOk(face, hubs, sources)
    ensures FaceOk(face, hubs, sources + [s])
  {
    hide Increasing;
  }

  lemma EndGrows(end: End, ends: map<EndId, End>, sources: seq<Source>, s: Source)
    requires EndOk(end, ends, sources)
    ensures EndOk(end, ends, sources + [s])
  {
    hide WireTags, EncodeRelay;
  }

  lemma DeliveryGrows(d: Delivery, ends: map<EndId, End>, sources: seq<Source>, s: Source)
    requires DeliveryOk(d, ends, sources)
    ensures DeliveryOk(d, ends, sources + [s])
  {
  }

  /** The same links, and no less read. */
  ghost predicate Extends(x: map<EndId, End>, y: map<EndId, End>)
  {
    forall e :: e in x ==>
      e in y && y[e].hub == x[e].hub && y[e].far == x[e].far && y[e].active == x[e].active && x[e].read <= y[e].read
  }

  lemma SameDeliveries(deliveries: seq<Delivery>, x: map<EndId, End>, y: map<EndId, End>, sources: seq<Source>)
    requires DeliveriesOk(deliveries, x, sources) && Extends(x, y)
    ensures DeliveriesOk(deliveries, y, sources)
  {
    hide OncePerPath;
  }

  lemma SamePairs(x: map<EndId, End>, y: map<EndId, End>)
    requires Paired(x) && Extends(x, y) && x.Keys == y.Keys
    ensures Paired(y)
  {
  }

  lemma ExtendsOne(ends: map<EndId, End>, e: EndId, next: End)
    requires e in ends && next.hub == ends[e].hub && next.far == ends[e].far && next.active == ends[e].active
        && ends[e].read <= next.read
    ensures Extends(ends, ends[e := next])
  {
  }

  /** A hub may change its registry, and nothing else, freely. */
  lemma HubKeeps(m: Mesh, h: HubId, hub: Hub)
    requires Inv(m) && h in m.hubs && HubOk(h, hub, Faces(m.ends), m.sources) && hub.fanned >= m.hubs[h].fanned
    ensures Inv(PutHub(m, h, hub))
  {
    hide Faces, HubOk, Increasing, EndsOk, DeliveriesOk;
    var hubs := m.hubs[h := hub];
    var faces := Faces(m.ends);
    assert HubsOk(hubs, faces, m.sources);
    assert FacesOk(faces, hubs, m.sources);
  }

  // ---- Steps

  lemma LocalKeeps(m: Mesh, h: HubId, key: Registry.PeerKey, band: BandId, frame: Registry.Packet)
    requires Inv(m) && h in m.hubs
    ensures Inv(LocalFrame(m, h, key, band, frame))
  {
    var s := Source(h, band, frame);
    MoreSources(m, s);
    var more := m.(sources := m.sources + [s]);
    var hub, tag := m.hubs[h], |m.sources|;
    var (bands, peers, federate) := Registry.Forward(hub.bands, band, key, frame);
    LocalTargets(hub.bands, band, key, frame);
    var next := hub.(bands := bands, egress := if federate then Offer(hub.egress, Item(band, frame, tag))
        else hub.egress);
    EgressGrows(h, hub.egress, hub.fanned, m.sources, s, next.egress);
    hide Registry.Forward, Faces, FacesOk, EndsOk, OncePerPath, LinksOk, FanOk, EgressOk;
    assert HubOk(h, next, Faces(m.ends), more.sources) by {
      assert HubOk(h, more.hubs[h], Faces(m.ends), more.sources);
    }
    HubKeeps(more, h, next);
    var d := Delivery(tag, h, None, band, frame, peers, Registry.PeersOf(hub.bands, band).Keys);
    assert forall i :: 0 <= i < |m.deliveries| ==> DeliveryOk(m.deliveries[i], m.ends, m.sources);
    OnceMore(m.deliveries, d);
    assert DeliveryOk(d, m.ends, more.sources);
  }

  lemma LocalTargets(bands: Registry.Bands, band: BandId, key: Registry.PeerKey, frame: Registry.Packet)
    ensures Registry.Forward(bands, band, key, frame).1 <= Registry.PeersOf(bands, band).Keys
  {
  }

  lemma EgressGrows(h: HubId, egress: seq<Item>, fanned: int, sources: seq<Source>, s: Source, next: seq<Item>)
    requires EgressOk(h, egress, fanned, sources) && s.hub == h
    requires next == egress || next == egress + [Item(s.band, s.frame, |sources|)]
    ensures EgressOk(h, next, fanned, sources + [s])
  {
  }

  lemma OnceMore(deliveries: seq<Delivery>, d: Delivery)
    requires OncePerPath(deliveries)
    requires forall i :: 0 <= i < |deliveries| ==> deliveries[i].tag != d.tag || deliveries[i].via != d.via
    ensures OncePerPath(deliveries + [d])
  {
  }

  /** Taking the next item: everything ever queued on the snapshot's links is older. */
  lemma FanStartKeeps(m: Mesh, h: HubId)
    requires Inv(m) && Enabled(m, FanStart(h))
    ensures Inv(PutHub(m, h, FanStartAt(m.hubs[h])))
  {
    var hub, faces := m.hubs[h], Faces(m.ends);
    var next := FanStartAt(hub);
    hide Faces, EndsOk, DeliveriesOk, Increasing;
    assert HubOk(h, hub, faces, m.sources);
    assert EgressOk(h, next.egress, next.fanned, m.sources);
    assert FanOk(h, next.fan, next.fanned, faces, m.sources) by {
      forall i, k | 0 <= i < |hub.links| && 0 <= k < |faces[hub.links[i]].pushed|
          ensures faces[hub.links[i]].pushed[k] < next.fanned {
        assert FaceOk(faces[hub.links[i]], m.hubs, m.sources);
      }
    }
    HubKeeps(m, h, next);
  }

  /** Only the face of `e` changes, and it may only gain tags. */
  lemma FacesAfter(ends: map<EndId, End>, e: EndId, end: End)
    ensures Faces(ends[e := end]) == Faces(ends)[e := FaceOf(end)]
  {
  }

  lemma FaceAt(ends: map<EndId, End>, e: EndId)
    requires e in ends
    ensures e in Faces(ends) && Faces(ends)[e] == FaceOf(ends[e])
  {
  }

  /** Replacing an end by one with the same face leaves fan-out as it was. */
  lemma SameFace(ends: map<EndId, End>, e: EndId, end: End)
    requires e in ends && FaceOf(end) == FaceOf(ends[e])
    ensures Faces(ends[e := end]) == Faces(ends)
  {
    FacesAfter(ends, e, end);
    assert Faces(ends)[e] == FaceOf(ends[e]);
  }

  /** Handing the item in hand to the next link of the snapshot. */
  lemma FanOneKeeps(m: Mesh, h: HubId)
    requires Inv(m) && Enabled(m, FanOne(h))
    ensures Inv(FanOneAt(m, h))
  {
    var hub, faces := m.hubs[h], Faces(m.ends);
    var fan := hub.fan.value;
    hide Faces, EndsOk, DeliveriesOk, Increasing, EgressOk, FaceOf, Distinct;
    assert HubOk(h, hub, faces, m.sources);
    if fan.todo == [] {
      HubKeeps(m, h, hub.(fan := None));
    } else {
      var e := fan.todo[0];
      var next := hub.(fan := Some(fan.(todo := fan.todo[1..])));
      TodoShrinks(h, hub, faces, m.sources);
      HubKeeps(m, h, next);
      var mid := PutHub(m, h, next);
      HandedKeeps(mid, h, e, fan.item);
    }
  }

  lemma TodoShrinks(h: HubId, hub: Hub, faces: map<EndId, Face>, sources: seq<Source>)
    requires HubOk(h, hub, faces, sources) && hub.fan.Some? && hub.fan.value.todo != []
    ensures var fan := hub.fan.value; HubOk(h, hub.(fan := Some(fan.(todo := fan.todo[1..]))), faces, sources)
    ensures hub.fan.value.todo[0] in faces && hub.fan.value.todo[0] !in hub.fan.value.todo[1..]
    ensures faces[hub.fan.value.todo[0]].hub == h
    ensures forall k :: 0 <= k < |faces[hub.fan.value.todo[0]].pushed| ==>
        faces[hub.fan.value.todo[0]].pushed[k] < hub.fanned
  {
    hide EgressOk;
    var todo := hub.fan.value.todo;
    assert forall i :: 0 <= i < |todo[1..]| ==> todo[1..][i] == todo[i + 1];
  }

  lemma HandedKeeps(m: Mesh, h: HubId, e: EndId, item: Item)
    requires Inv(m) && h in m.hubs && e in m.ends && m.ends[e].hub == h && From(item, h, m.sources)
    requires m.hubs[h].fan.Some? && m.hubs[h].fan.value.item == item && e !in m.hubs[h].fan.value.todo
    requires forall k :: 0 <= k < |FaceOf(m.ends[e]).pushed| ==> FaceOf(m.ends[e]).pushed[k] < item.tag
    ensures Inv(PutEnd(m, e, Handed(m.ends[e], item)))
  {
    var end := m.ends[e];
    var next := Handed(end, item);
    if next == end {
      assert m.ends[e := end] == m.ends;
    } else {
      var faces := Faces(m.ends);
      hide HubsOk, FacesOk, EndsOk, DeliveriesOk, Faces, From, Paired;
      FaceAt(m.ends, e);
      FacesAfter(m.ends, e, next);
      HandedFace(end, item);
      hide FaceOf;
      HandedFaces(m, faces, e, item, FaceOf(next));
      HandedHubs(m, faces, h, e, FaceOf(next));
      QueueGrows(end.queue, h, item, m.sources);
      QueueOnly(m, e, next);
    }
  }

  lemma HandedFace(end: End, item: Item)
    requires Handed(end, item) != end
    ensures var face, next := FaceOf(end), FaceOf(Handed(end, item));
            next == face.(pushed := face.pushed + [item.tag]) && next.active
    ensures Handed(end, item) == end.(queue := end.queue + [Relay(item)])
  {
    hide Tags;
    TagsSnoc(end.queue, Relay(item));
  }

  lemma QueueGrows(queue: seq<Msg>, h: HubId, item: Item, sources: seq<Source>)
    requires From(item, h, sources)
    ensures MessagesOk(queue, h, sources) ==> MessagesOk(queue + [Relay(item)], h, sources)
  {
  }

  /** An end whose queue changes harmlessly disturbs neither the wires nor the record of deliveries. */
  lemma QueueOnly(m: Mesh, e: EndId, next: End)
    requires Paired(m.ends) && EndsOk(m.ends, m.sources) && DeliveriesOk(m.deliveries, m.ends, m.sources) && e in m.ends
    requires next == m.ends[e].(queue := next.queue, open := next.open, wants := next.wants)
    requires MessagesOk(m.ends[e].queue, next.hub, m.sources) ==> MessagesOk(next.queue, next.hub, m.sources)
    ensures Paired(m.ends[e := next]) && EndsOk(m.ends[e := next], m.sources)
        && DeliveriesOk(m.deliveries, m.ends[e := next], m.sources)
  {
    hide Paired, EndsOk, DeliveriesOk, Extends, MessagesOk, WireOk;
    ExtendsOne(m.ends, e, next);
    SamePairs(m.ends, m.ends[e := next]);
    SameDeliveries(m.deliveries, m.ends, m.ends[e := next], m.sources);
    EndAt(m.ends, m.sources, e);
    ReplaceEnd(m.ends, m.sources, e, next);
  }

  lemma EndAt(ends: map<EndId, End>, sources: seq<Source>, e: EndId)
    requires EndsOk(ends, sources) && e in ends
    ensures EndOk(ends[e], ends, sources)
  {
    hide EndOk;
  }

  /** One end replaced by another that has written the same and has a good queue and wire of its own. */
  lemma ReplaceEnd(ends: map<EndId, End>, sources: seq<Source>, e: EndId, next: End)
    requires EndsOk(ends, sources) && e in ends
    requires next.hub == ends[e].hub && next.far == ends[e].far && next.relayed == ends[e].relayed
    requires EndOk(next, ends, sources)
    ensures EndsOk(ends[e := next], sources)
  {
    hide MessagesOk, WireOk;
    var after := ends[e := next];
    forall f | f in after ensures EndOk(after[f], after, sources) {
      assert f != e ==> EndOk(ends[f], ends, sources);
    }
  }

  lemma HandedFaces(m: Mesh, faces: map<EndId, Face>, e: EndId, item: Item, face: Face)
    requires FacesOk(faces, m.hubs, m.sources) && HubsOk(m.hubs, faces, m.sources) && e in faces
        && From(item, faces[e].hub, m.sources)
    requires m.hubs[faces[e].hub].fan.Some? && m.hubs[faces[e].hub].fan.value.item == item
    requires face == faces[e].(pushed := faces[e].pushed + [item.tag]) && face.active
    requires forall k :: 0 <= k < |faces[e].pushed| ==> faces[e].pushed[k] < item.tag
    ensures FacesOk(faces[e := face], m.hubs, m.sources)
  {
    assert FaceOk(faces[e], m.hubs, m.sources);
    assert HubOk(face.hub, m.hubs[face.hub], faces, m.sources);
    assert FaceOk(face, m.hubs, m.sources);
    hide FaceOk, HubsOk;
  }

  lemma HandedHubs(m: Mesh, faces: map<EndId, Face>, h: HubId, e: EndId, face: Face)
    requires HubsOk(m.hubs, faces, m.sources) && e in faces && faces[e].hub == h == face.hub
    requires h in m.hubs && m.hubs[h].fan.Some? && e !in m.hubs[h].fan.value.todo
    ensures HubsOk(m.hubs, faces[e := face], m.sources)
  {
    hide EgressOk, Distinct, From;
    forall g | g in m.hubs ensures HubOk(g, m.hubs[g], faces[e := face], m.sources) {
      assert HubOk(g, m.hubs[g], faces, m.sources);
      if m.hubs[g].fan.Some? {
        var todo := m.hubs[g].fan.value.todo;
        forall i | 0 <= i < |todo| ensures todo[i] != e {
          assert todo[i] in faces && faces[todo[i]].hub == g;
        }
      }
    }
  }

  /** Advertising, learning what the far side has, going down: fan-out does not notice. */
  lemma QuietEnd(m: Mesh, e: EndId, next: End)
    requires Inv(m) && e in m.ends && next == m.ends[e].(queue := next.queue, open := next.open, wants := next.wants)
    requires Tags(next.queue) == Tags(m.ends[e].queue)
    requires MessagesOk(m.ends[e].queue, next.hub, m.sources) ==> MessagesOk(next.queue, next.hub, m.sources)
    ensures Inv(PutEnd(m, e, next)) && Faces(m.ends[e := next]) == Faces(m.ends)
  {
    hide HubsOk, FacesOk, EndsOk, DeliveriesOk, Faces, Tags;
    SameFace(m.ends, e, next);
    QueueOnly(m, e, next);
  }

  lemma AdvertiseKeeps(m: Mesh, e: EndId, list: seq<BandId>)
    requires Inv(m) && Enabled(m, Advertise(e, list))
    ensures Inv(Next(m, Advertise(e, list)))
  {
    hide Inv, EncodeBands, Tags;
    var end := m.ends[e];
    TagsSnoc(end.queue, Bands(EncodeBands(list)));
    assert end == end.(queue := end.queue);
    QuietEnd(m, e, end.(queue := Offer(end.queue, Bands(EncodeBands(list)))));
  }

  lemma {:induction false} WithoutOk(links: seq<EndId>, e: EndId, h: HubId, faces: map<EndId, Face>)
    requires LinksOk(h, links, faces)
    ensures LinksOk(h, Without(links, e), faces) && forall f :: f in Without(links, e) ==> f in links
  {
    if links != [] {
      var last := links[|links| - 1];
      WithoutOk(links[..|links| - 1], e, h, faces);
      assert last !in Without(links[..|links| - 1], e);
    }
  }

  lemma EndDownKeeps(m: Mesh, e: EndId)
    requires Inv(m) && Enabled(m, EndDown(e))
    ensures Inv(Next(m, EndDown(e)))
  {
    hide Inv, Tags, Without;
    var h := m.ends[e].hub;
    var hub := m.hubs[h].(links := Without(m.hubs[h].links, e));
    UnlinkKeeps(m, h, e);
    var end := m.ends[e];
    assert end == end.(queue := end.queue);
    QuietEnd(PutHub(m, h, hub), e, end.(open := false));
  }

  lemma UnlinkKeeps(m: Mesh, h: HubId, e: EndId)
    requires Inv(m) && h in m.hubs
    ensures Inv(PutHub(m, h, m.hubs[h].(links := Without(m.hubs[h].links, e))))
  {
    var hub, faces := m.hubs[h], Faces(m.ends);
    assert HubOk(h, hub, faces, m.sources);
    hide Faces, EgressOk, FanOk, LinksOk, FacesOk, EndsOk, DeliveriesOk, Without, HubsOk, Paired;
    WithoutOk(hub.links, e, h, faces);
    HubKeeps(m, h, hub.(links := Without(hub.links, e)));
  }

  // ---- Wires

  /** The far end gets what this one writes; what was queued on either is unchanged. */
  lemma WriteKeeps(m: Mesh, e: EndId)
    requires Inv(m) && Enabled(m, Write(e))
    ensures Inv(WriteAt(m, e))
  {
    var end, f := m.ends[e], m.ends[e].far;
    assert f != e;
    var far := m.ends[f].(inbox := m.ends[f].inbox + [Encode(end.queue[0])]);
    var ends := m.ends[e := Written(end)][f := far];
    hide HubsOk, FacesOk, EndsOk, DeliveriesOk, Faces, FaceOf, Extends, Paired, Encode;
    WrittenShape(m.ends, e, f, far);
    SamePairs(m.ends, ends);
    SameDeliveries(m.deliveries, m.ends, ends, m.sources);
    WrittenEnds(m.ends, m.sources, e, f, far);
    assert WriteAt(m, e) == m.(ends := ends);
  }

  lemma WrittenShape(ends: map<EndId, End>, e: EndId, f: EndId, far: End)
    requires e in ends && f in ends && e != f && ends[e].queue != [] && far == ends[f].(inbox := far.inbox)
    ensures Faces(ends[e := Written(ends[e])][f := far]) == Faces(ends)
    ensures Extends(ends, ends[e := Written(ends[e])][f := far])
    ensures ends[e := Written(ends[e])][f := far].Keys == ends.Keys
  {
    var sent := ends[e := Written(ends[e])];
    WrittenFace(ends[e]);
    assert FaceOf(far) == FaceOf(sent[f]);
    hide Faces, FaceOf;
    SameFace(ends, e, Written(ends[e]));
    SameFace(sent, f, far);
  }

  lemma WrittenFace(end: End)
    requires end.queue != []
    ensures FaceOf(Written(end)) == FaceOf(end)
  {
    hide Tags;
    TagsHead(end.queue);
  }

  lemma WrittenEnds(ends: map<EndId, End>, sources: seq<Source>, e: EndId, f: EndId, far: End)
    requires Paired(ends) && EndsOk(ends, sources) && e in ends && ends[e].far == f
    requires ends[e].queue != [] && Writable(Encode(ends[e].queue[0]))
    requires far == ends[f].(inbox := ends[f].inbox + [Encode(ends[e].queue[0])])
    ensures EndsOk(ends[e := Written(ends[e])][f := far], sources)
  {
    var next := ends[e := Written(ends[e])][f := far];
    assert EndOk(ends[e], ends, sources) && EndOk(ends[f], ends, sources);
    forall g | g in next ensures EndOk(next[g], next, sources) {
      assert EndOk(ends[g], ends, sources);
      if g == f {
        hide EndsOk, Paired, From;
        WrittenWire(ends[f].read, ends[f].inbox, ends[e], sources);
      } else if g == e {
        hide EndsOk, From, WireOk;
      } else {
        hide EndsOk, MessagesOk, WireOk;
        assert ends[g].far != e && ends[g].far != f;
      }
    }
  }

  lemma WrittenWire(read: seq<nat>, inbox: seq<Wire>, end: End, sources: seq<Source>)
    requires WireOk(read, inbox, end.relayed, end.hub, sources) && MessagesOk(end.queue, end.hub, sources)
    requires end.queue != [] && Writable(Encode(end.queue[0]))
    ensures WireOk(read, inbox + [Encode(end.queue[0])], Written(end).relayed, end.hub, sources)
  {
    hide WireTags;
    WireTagsSnoc(inbox, Encode(end.queue[0]));
    assert Carries(Encode(end.queue[0]), end.hub, sources);
  }

  /** The end that has read the head of its inbox. */
  ghost function ReadNext(end: End): End
    requires end.inbox != []
  {
    var msg := end.inbox[0];
    end.(inbox := end.inbox[1..], read := end.read + WireTag(msg),
         wants := if msg.BandsMsg? then DecodeBands(msg.payload) else end.wants)
  }

  /** Reading queues nothing. */
  lemma ReadEnd(m: Mesh, e: EndId)
    requires Inv(m) && Enabled(m, Read(e))
    ensures Inv(PutEnd(m, e, ReadNext(m.ends[e])))
  {
    hide HubsOk, FacesOk, EndsOk, DeliveriesOk, Faces, FaceOf, Extends, Paired, EndOk, ReadNext;
    var next := ReadNext(m.ends[e]);
    ReadNextShape(m.ends[e]);
    EndAt(m.ends, m.sources, e);
    ReadNextOk(m.ends[e], m.ends, m.sources);
    ReplaceEnd(m.ends, m.sources, e, next);
    SameFace(m.ends, e, next);
    ExtendsOne(m.ends, e, next);
    SamePairs(m.ends, m.ends[e := next]);
    SameDeliveries(m.deliveries, m.ends, m.ends[e := next], m.sources);
  }

  lemma ReadNextShape(end: End)
    requires end.inbox != []
    ensures var next := ReadNext(end);
            && next == end.(inbox := next.inbox, read := next.read, wants := next.wants)
            && end.read <= next.read && FaceOf(next) == FaceOf(end)
  {
    hide DecodeBands, Tags;
  }

  lemma ReadNextOk(end: End, ends: map<EndId, End>, sources: seq<Source>)
    requires EndOk(end, ends, sources) && end.inbox != []
    ensures EndOk(ReadNext(end), ends, sources)
  {
    hide WireOk, MessagesOk, DecodeBands, WireTag;
    ReadWire(end.read, end.inbox, ends[end.far].relayed, ends[end.far].hub, sources);
  }

  lemma ReadKeeps(m: Mesh, e: EndId)
    requires Inv(m) && Enabled(m, Read(e))
    ensures Inv(ReadAt(m, e))
  {
    var end := m.ends[e];
    ReadEnd(m, e);
    if end.inbox[0].RelayMsg? && end.active {
      InjectionOk(m, e, ReadNext(end));
    }
    hide HubsOk, FacesOk, EndsOk, DeliveriesOk, Faces, Paired, Injected, DecodeBands, DecodeRelay;
    ReadUnfolds(m, e);
  }

  lemma ReadUnfolds(m: Mesh, e: EndId)
    requires Enabled(m, Read(e))
    ensures ReadAt(m, e) == PutEnd(m, e, ReadNext(m.ends[e])).(deliveries := ReadAt(m, e).deliveries)
    ensures var end := m.ends[e];
            if end.inbox[0].RelayMsg? && end.active && DecodeRelay(end.inbox[0].payload).Some? then
              var (band, frame) := DecodeRelay(end.inbox[0].payload).value;
              ReadAt(m, e).deliveries == m.deliveries + [Injected(m.hubs[end.hub].bands, end.hub, e, end.inbox[0].tag,
                  band, frame)]
            else ReadAt(m, e).deliveries == m.deliveries
  {
    hide Injected, DecodeBands, DecodeRelay;
    var end := m.ends[e];
    assert end.read + [] == end.read;
  }

  lemma ReadWire(read: seq<nat>, inbox: seq<Wire>, relayed: seq<nat>, farHub: HubId, sources: seq<Source>)
    requires WireOk(read, inbox, relayed, farHub, sources) && inbox != []
    ensures WireOk(read + WireTag(inbox[0]), inbox[1..], relayed, farHub, sources)
    ensures Carries(inbox[0], farHub, sources)
  {
    hide WireTags, Carries;
    WireTagsHead(inbox);
    assert read + (WireTag(inbox[0]) + WireTags(inbox[1..])) == (read + WireTag(inbox[0])) + WireTags(inbox[1..]);
  }

  lemma LinkTargets(bands: Registry.Bands, band: BandId, frame: Registry.Packet)
    ensures Registry.Inject(bands, band, frame) <= Registry.PeersOf(bands, band).Keys
  {
  }

  /** A tag read now was never read on this end before. */
  lemma ReadIsNew(m: Mesh, e: EndId)
    requires Inv(m) && Enabled(m, Read(e)) && m.ends[e].inbox[0].RelayMsg?
    ensures m.ends[e].inbox[0].tag !in m.ends[e].read
  {
    hide HubsOk, EndsOk, DeliveriesOk, Paired, WireTags, Carries;
    EndAt(m.ends, m.sources, e);
    var end, far := m.ends[e], m.ends[m.ends[e].far];
    assert Faces(m.ends)[end.far] == FaceOf(far);
    assert FaceOk(FaceOf(far), m.hubs, m.sources);
    hide FacesOk, Faces;
    WireTagsHead(end.inbox);
    var k, pushed := |end.read|, FaceOf(far).pushed;
    assert far.relayed[k] == end.inbox[0].tag == pushed[k];
    forall i | 0 <= i < k ensures end.read[i] != end.inbox[0].tag {
      assert far.relayed[i] == end.read[i] == pushed[i];
    }
  }

  /** What a RELAY read from a link carries is the frame its tag stands for, byte for byte. */
  lemma RelayIsSource(w: Wire, h: HubId, sources: seq<Source>)
    requires Carries(w, h, sources) && w.RelayMsg?
    ensures w.tag < |sources| && sources[w.tag].hub == h
    ensures DecodeRelay(w.payload) == Some((sources[w.tag].band, sources[w.tag].frame))
  {
    hide EncodeRelay, DecodeRelay;
    RelayRoundTrip(sources[w.tag].band, sources[w.tag].frame);
  }

  lemma InjectionOk(m: Mesh, e: EndId, next: End)
    requires Inv(m) && Enabled(m, Read(e)) && m.ends[e].inbox[0].RelayMsg? && m.ends[e].active
    requires next == m.ends[e].(inbox := next.inbox, read := m.ends[e].read + WireTag(m.ends[e].inbox[0]),
        wants := next.wants)
    requires DeliveriesOk(m.deliveries, m.ends[e := next], m.sources)
    ensures var end := m.ends[e];
            DecodeRelay(end.inbox[0].payload).Some? &&
            var (band, frame) := DecodeRelay(end.inbox[0].payload).value;
            DeliveriesOk(m.deliveries + [Injected(m.hubs[end.hub].bands, end.hub, e, end.inbox[0].tag, band, frame)],
                m.ends[e := next], m.sources)
  {
    var end, bands := m.ends[e], m.hubs[m.ends[e].hub].bands;
    var msg := end.inbox[0];
    assert end.far != e && end.far in m.ends;
    hide EndsOk, Paired, HubsOk, FacesOk, Faces, WireTags, DecodeRelay, EncodeRelay, Carries, OncePerPath, Injected,
        DeliveryOk;
    EndAt(m.ends, m.sources, e);
    hide MessagesOk;
    ReadWire(end.read, end.inbox, m.ends[end.far].relayed, m.ends[end.far].hub, m.sources);
    hide WireOk;
    RelayIsSource(msg, m.ends[end.far].hub, m.sources);
    var (band, frame) := DecodeRelay(msg.payload).value;
    InjectedOk(bands, end.hub, e, msg.tag, band, frame, m.ends[e := next], m.sources);
    ReadIsNew(m, e);
    forall i | 0 <= i < |m.deliveries|
      ensures m.deliveries[i].tag != msg.tag || m.deliveries[i].via != Some(e)
    {
      if m.deliveries[i].via == Some(e) { ViaWasRead(m.deliveries[i], m.ends, m.sources, e); }
    }
    OnceMore(m.deliveries, Injected(bands, end.hub, e, msg.tag, band, frame));
  }

  lemma ViaWasRead(d: Delivery, ends: map<EndId, End>, sources: seq<Source>, e: EndId)
    requires DeliveryOk(d, ends, sources) && d.via == Some(e)
    ensures e in ends && d.tag in ends[e].read
  {
  }

  lemma InjectedOk(bands: Registry.Bands, hub: HubId, e: EndId, tag: nat, band: BandId, frame: Registry.Packet,
                   ends: map<EndId, End>, sources: seq<Source>)
    requires tag < |sources| && sources[tag].band == band && sources[tag].frame == frame
    requires e in ends && ends[e].active && ends[e].hub == hub && tag in ends[e].read
    requires ends[e].far in ends && ends[ends[e].far].hub == sources[tag].hub
    ensures var d := Injected(bands, hub, e, tag, band, frame);
            DeliveryOk(d, ends, sources) && d.tag == tag && d.via == Some(e)
  {
    LinkTargets(bands, band, frame);
    hide Registry.Inject;
  }

  // ---- Links coming up

  lemma LinkUpKeeps(m: Mesh, e: EndId, f: EndId, h: HubId, g: HubId, here: bool, there: bool)
    requires Inv(m) && Enabled(m, LinkUp(e, f, h, g, here, there))
    ensures Inv(LinkUpAt(m, e, f, h, g, here, there))
  {
    var x, y := NewEnd(h, f, here), NewEnd(g, e, there);
    var ends, next := m.ends[e := x][f := y], LinkUpAt(m, e, f, h, g, here, there);
    hide EndsOk, Paired, DeliveriesOk, Extends, HubsOk, FacesOk, HubOk;
    NewEnds(m.ends, m.sources, e, f, x, y);
    NewPair(m.ends, e, f, x, y);
    SameDeliveries(m.deliveries, m.ends, ends, m.sources);
    LinkUpFaces(m.ends, e, f, x, y);
    hide Faces;
    LinkUpLists(m, e, f, h, g, here, there);
    LinkUpHubs(m, next.hubs, Faces(m.ends), e, f, Face(h, here, []), Face(g, there, []));
    NewFaces(m, Faces(m.ends), next.hubs, e, f, Face(h, here, []), Face(g, there, []));
    assert next.ends == ends;
  }

  lemma LinkUpFaces(ends: map<EndId, End>, e: EndId, f: EndId, x: End, y: End)
    requires e !in ends && f !in ends && x == NewEnd(x.hub, f, x.active) && y == NewEnd(y.hub, e, y.active)
    ensures Faces(ends[e := x][f := y]) == Faces(ends)[e := Face(x.hub, x.active, [])][f := Face(y.hub, y.active, [])]
    ensures e !in Faces(ends) && f !in Faces(ends)
  {
    assert FaceOf(x) == Face(x.hub, x.active, []) && FaceOf(y) == Face(y.hub, y.active, []);
    FacesAfter(ends, e, x);
    FacesAfter(ends[e := x], f, y);
  }

  lemma LinkUpLists(m: Mesh, e: EndId, f: EndId, h: HubId, g: HubId, here: bool, there: bool)
    requires h in m.hubs && g in m.hubs
    ensures var hubs := LinkUpAt(m, e, f, h, g, here, there).hubs;
            && hubs.Keys == m.hubs.Keys
            && forall k :: k in hubs ==>
                 hubs[k] == m.hubs[k].(links := m.hubs[k].links + (if h == k then [e] else [])
                                                + (if g == k then [f] else []))
  {
    var hubs := LinkUpAt(m, e, f, h, g, here, there).hubs;
    forall k | k in hubs
      ensures hubs[k] == m.hubs[k].(links := m.hubs[k].links + (if h == k then [e] else [])
                                     + (if g == k then [f] else []))
    {
      assert m.hubs[k].links + [] == m.hubs[k].links;
    }
  }

  lemma LinkUpHubs(m: Mesh, hubs: map<HubId, Hub>, faces: map<EndId, Face>, e: EndId, f: EndId, x: Face, y: Face)
    requires HubsOk(m.hubs, faces, m.sources) && e != f && e !in faces && f !in faces && hubs.Keys == m.hubs.Keys
    requires forall k :: k in hubs ==>
               hubs[k] == m.hubs[k].(links := m.hubs[k].links + (if x.hub == k then [e] else [])
                                              + (if y.hub == k then [f] else []))
    ensures HubsOk(hubs, faces[e := x][f := y], m.sources)
  {
    var after := faces[e := x][f := y];
    hide HubOk;
    forall k | k in hubs ensures HubOk(k, hubs[k], after, m.sources) {
      MoreFaces(k, m.hubs[k], faces, after, m.sources);
      LinkedHub(k, m.hubs[k], hubs[k], faces, after, m.sources, e, f);
    }
  }

  lemma NewEnds(ends: map<EndId, End>, sources: seq<Source>, e: EndId, f: EndId, x: End, y: End)
    requires EndsOk(ends, sources) && Paired(ends) && e != f && e !in ends && f !in ends
    requires x == NewEnd(x.hub, f, x.active) && y == NewEnd(y.hub, e, y.active)
    ensures EndsOk(ends[e := x][f := y], sources)
  {
    var after := ends[e := x][f := y];
    assert EndOk(x, after, sources) && EndOk(y, after, sources);
    forall g | g in ends ensures EndOk(ends[g], after, sources) {
      hide EndsOk, MessagesOk, WireOk;
      EndAt(ends, sources, g);
    }
    hide EndOk;
  }

  lemma NewPair(ends: map<EndId, End>, e: EndId, f: EndId, x: End, y: End)
    requires Paired(ends) && e != f && e !in ends && f !in ends && x.far == f && y.far == e
    ensures Paired(ends[e := x][f := y]) && Extends(ends, ends[e := x][f := y])
  {
  }

  lemma NewFaces(m: Mesh, faces: map<EndId, Face>, hubs: map<HubId, Hub>, e: EndId, f: EndId, x: Face, y: Face)
    requires FacesOk(faces, m.hubs, m.sources) && x.pushed == [] && y.pushed == [] && x.hub in hubs && y.hub in hubs
    requires hubs.Keys == m.hubs.Keys && forall k :: k in hubs ==> hubs[k].fanned == m.hubs[k].fanned
    ensures FacesOk(faces[e := x][f := y], hubs, m.sources)
  {
  }

  lemma MoreFaces(h: HubId, hub: Hub, faces: map<EndId, Face>, after: map<EndId, Face>, sources: seq<Source>)
    requires HubOk(h, hub, faces, sources) && forall e :: e in faces ==> e in after && after[e] == faces[e]
    ensures HubOk(h, hub, after, sources)
  {
    hide EgressOk, Distinct, From;
  }

  /** The hub's link list may have gained `e`, `f` or both. */
  lemma LinkedHub(h: HubId, was: Hub, hub: Hub, faces: map<EndId, Face>, after: map<EndId, Face>,
                  sources: seq<Source>, e: EndId, f: EndId)
    requires HubOk(h, was, faces, sources) && HubOk(h, was, after, sources)
    requires e != f && e !in faces && f !in faces && e in after && f in after
    requires hub == was.(links := hub.links)
    requires hub.links == was.links + (if after[e].hub == h then [e] else []) + (if after[f].hub == h then [f] else [])
    ensures HubOk(h, hub, after, sources)
  {
    hide EgressOk, FanOk;
    assert forall i :: 0 <= i < |was.links| ==> was.links[i] in faces;
  }

  // ---- Runs

  lemma StepKeeps(m: Mesh, s: Step)
    requires Inv(m) && Enabled(m, s)
    ensures Inv(Next(m, s))
  {
    hide Inv, LocalFrame, FanStartAt, FanOneAt, WriteAt, ReadAt, LinkUpAt;
    match s
    case Membership(h, bands) => MembershipKeeps(m, h, bands);
    case Local(h, key, band, frame) => LocalKeeps(m, h, key, band, frame);
    case FanStart(h) => FanStartKeeps(m, h);
    case FanOne(h) => FanOneKeeps(m, h);
    case Advertise(e, list) => AdvertiseKeeps(m, e, list);
    case Write(e) => WriteKeeps(m, e);
    case Read(e) => ReadKeeps(m, e);
    case LinkUp(e, f, h, g, here, there) => LinkUpKeeps(m, e, f, h, g, here, there);
    case EndDown(e) => EndDownKeeps(m, e);
  }

  lemma MembershipKeeps(m: Mesh, h: HubId, bands: Registry.Bands)
    requires Inv(m) && h in m.hubs
    ensures Inv(PutHub(m, h, m.hubs[h].(bands := bands)))
  {
    assert HubOk(h, m.hubs[h], Faces(m.ends), m.sources);
    hide HubsOk, FacesOk, EndsOk, DeliveriesOk, Faces, Paired, EgressOk, FanOk, LinksOk;
    HubKeeps(m, h, m.hubs[h].(bands := bands));
  }

  lemma {:induction false} RunKeepsInv(hubs: set<HubId>, steps: seq<Step>)
    ensures Inv(Exec(Start(hubs), steps))
  {
    if steps == [] {
      assert Faces(Start(hubs).ends) == map[];
    } else {
      hide Inv, Enabled;
      RunKeepsInv(hubs, steps[..|steps| - 1]);
      var before, last := Exec(Start(hubs), steps[..|steps| - 1]), steps[|steps| - 1];
      if Enabled(before, last) {
        StepKeeps(before, last);
      }
    }
  }

  /** `a` and `b` have had a link. */
  ghost predicate Linked(ends: map<EndId, End>, a: HubId, b: HubId)
  {
    exists e :: e in ends && ends[e].hub == b && ends[e].far in ends && ends[ends[e].far].hub == a
  }

  /** Any hubs, any links (cycles, parallel links and self-links included), any interleaving. A link writes each
      frame at most once, and only frames its own hub sourced, and none while revoked. Every delivery is of the
      bytes sourced, to peers then registered in the frame's band, at the hub that sourced the frame or one directly
      linked to it, and at most once per path. */
  lemma OneHop(hubs: set<HubId>, steps: seq<Step>)
    ensures var m := Exec(Start(hubs), steps);
            && (forall e :: e in m.ends ==>
                  && Increasing(m.ends[e].relayed)
                  && (forall k :: 0 <= k < |m.ends[e].relayed| ==>
                        m.ends[e].relayed[k] < |m.sources| && m.sources[m.ends[e].relayed[k]].hub == m.ends[e].hub)
                  && (!m.ends[e].active ==> m.ends[e].relayed == []))
            && OncePerPath(m.deliveries)
            && (forall i :: 0 <= i < |m.deliveries| ==>
                  var d := m.deliveries[i];
                  && d.tag < |m.sources| && d.band == m.sources[d.tag].band && d.frame == m.sources[d.tag].frame
                  && d.peers <= d.members
                  && (d.hub == m.sources[d.tag].hub || Linked(m.ends, m.sources[d.tag].hub, d.hub)))
  {
    RunKeepsInv(hubs, steps);
    var m := Exec(Start(hubs), steps);
    hide Exec, HubsOk, EndsOk, Paired, OncePerPath;
    forall e | e in m.ends
      ensures Increasing(m.ends[e].relayed)
      ensures forall k :: 0 <= k < |m.ends[e].relayed| ==>
                m.ends[e].relayed[k] < |m.sources| && m.sources[m.ends[e].relayed[k]].hub == m.ends[e].hub
      ensures !m.ends[e].active ==> m.ends[e].relayed == []
    {
      assert Faces(m.ends)[e] == FaceOf(m.ends[e]);
      RelayedIsPushed(m.ends[e], m.hubs, m.sources);
    }
    forall i | 0 <= i < |m.deliveries| && m.deliveries[i].via.Some?
      ensures m.deliveries[i].tag < |m.sources|
          && Linked(m.ends, m.sources[m.deliveries[i].tag].hub, m.deliveries[i].hub)
    {
      assert DeliveryOk(m.deliveries[i], m.ends, m.sources);
      var e := m.deliveries[i].via.value;
      assert e in m.ends && m.ends[e].hub == m.deliveries[i].hub;
    }
  }

  lemma RelayedIsPushed(end: End, hubs: map<HubId, Hub>, sources: seq<Source>)
    requires FaceOk(FaceOf(end), hubs, sources)
    ensures Increasing(end.relayed)
    ensures forall k :: 0 <= k < |end.relayed| ==> end.relayed[k] < |sources| && sources[end.relayed[k]].hub == end.hub
    ensures !end.active ==> end.relayed == []
  {
    var pushed := FaceOf(end).pushed;
    assert forall k :: 0 <= k < |end.relayed| ==> end.relayed[k] == pushed[k];
  }
}
