/** Hub federation (rust/telesthitium/src/federation.rs): link messages, and any number of linked hubs as one state
    machine. Every frame a local peer sends carries a tag, its place in the history, that no hub looks at. */
module Federation {
  import opened BigEndian
  import Registry

  type BandId = Registry.BandId
  type HubId = nat
  type EndId = nat

  const QUEUE_DEPTH := 4096
  const MAX_MSG := 4 * 1024 * 1024
  const MAX_BANDS := 0xFFFF

  // ---- BANDS and RELAY payloads

  function Join(bands: seq<BandId>): (s: seq<byte>)
    ensures |s| == |bands| * Registry.BAND_ID_LEN
  {
    if bands == [] then [] else Join(bands[..|bands| - 1]) + bands[|bands| - 1]
  }

  function Advertised(bands: seq<BandId>): (some: seq<BandId>)
    ensures |some| <= MAX_BANDS && some <= bands
  {
    if |bands| <= MAX_BANDS then bands else bands[..MAX_BANDS]
  }

  /** count(2) || band ids, at most 65535 of them. */
  function EncodeBands(bands: seq<BandId>): seq<byte>
  {
    ToBytes(|Advertised(bands)|, 2) + Join(Advertised(bands))
  }

  /** The complete ids among the first `count` that are there. */
  function Split(body: seq<byte>, count: nat): set<BandId>
    decreases count
  {
    if count == 0 || |body| < Registry.BAND_ID_LEN then {}
    else {body[..Registry.BAND_ID_LEN]} + Split(body[Registry.BAND_ID_LEN..], count - 1)
  }

  function DecodeBands(payload: seq<byte>): set<BandId>
  {
    if |payload| < 2 then {} else Split(payload[2..], FromBytes(payload[..2]))
  }

  /** band(16) || length(4) || frame. */
  function EncodeRelay(band: BandId, frame: Registry.Packet): seq<byte>
  {
    band + ToBytes(|frame| % U32_LIMIT, 4) + frame
  }

  function DecodeRelay(payload: seq<byte>): Option<(BandId, Registry.Packet)>
  {
    if |payload| < Registry.BAND_ID_LEN + 4 then None
    else
      var length := FromBytes(payload[Registry.BAND_ID_LEN..Registry.BAND_ID_LEN + 4]);
      if |payload| < Registry.BAND_ID_LEN + 4 + length then None
      else Some((payload[..Registry.BAND_ID_LEN], payload[Registry.BAND_ID_LEN + 4..Registry.BAND_ID_LEN + 4 + length]))
  }

  lemma RelayRoundTrip(band: BandId, frame: Registry.Packet)
    requires |frame| < U32_LIMIT
    ensures DecodeRelay(EncodeRelay(band, frame)) == Some((band, frame))
  {
    hide ToBytes, FromBytes, Capacity;
    CapacityOfHeaderFields();
    FromToBytes(|frame|, 4);
    var length := ToBytes(|frame|, 4);
    var payload := band + length + frame;
    assert payload == EncodeRelay(band, frame);
    assert payload[..Registry.BAND_ID_LEN] == band;
    assert payload[Registry.BAND_ID_LEN..Registry.BAND_ID_LEN + 4] == length;
    assert payload[Registry.BAND_ID_LEN + 4..Registry.BAND_ID_LEN + 4 + |frame|] == frame;
  }

  ghost function Members(bands: seq<BandId>): set<BandId>
  {
    set b | b in bands
  }

  lemma {:induction false} SplitJoin(bands: seq<BandId>)
    ensures Split(Join(bands), |bands|) == Members(bands)
  {
    if bands != [] {
      JoinHead(bands);
      var body := Join(bands);
      assert body[..Registry.BAND_ID_LEN] == bands[0] && body[Registry.BAND_ID_LEN..] == Join(bands[1..]);
      SplitJoin(bands[1..]);
      assert bands == [bands[0]] + bands[1..];
    }
  }

  lemma {:induction false} JoinHead(bands: seq<BandId>)
    requires bands != []
    ensures Join(bands) == bands[0] + Join(bands[1..])
  {
    if |bands| > 1 {
      JoinHead(bands[..|bands| - 1]);
      assert bands[..|bands| - 1][1..] == bands[1..][..|bands| - 2];
    }
  }

  /** What a hub reads from a BANDS message is the set of bands advertised: all of them up to 65535. */
  lemma BandsRoundTrip(bands: seq<BandId>)
    ensures DecodeBands(EncodeBands(bands)) == Members(Advertised(bands))
    ensures |bands| <= MAX_BANDS ==> DecodeBands(EncodeBands(bands)) == Members(bands)
  {
    var few := Advertised(bands);
    CapacityOfHeaderFields();
    FromToBytes(|few|, 2);
    SplitJoin(few);
    var payload := EncodeBands(bands);
    assert payload[..2] == ToBytes(|few|, 2) && payload[2..] == Join(few);
  }

  // ---- Linked hubs

  datatype Item = Item(band: BandId, frame: Registry.Packet, tag: nat)

  /** What waits in a link's queue. */
  datatype Msg = Bands(payload: seq<byte>) | Relay(item: Item)

  /** What goes over the link; the tag is history. */
  datatype Wire = BandsMsg(payload: seq<byte>) | RelayMsg(payload: seq<byte>, tag: nat)

  function Encode(msg: Msg): Wire
  {
    match msg
    case Bands(payload) => BandsMsg(payload)
    case Relay(item) => RelayMsg(EncodeRelay(item.band, item.frame), item.tag)
  }

  /** A longer message ends the writer, so what is behind it in the queue is never written. */
  predicate Writable(w: Wire)
  {
    1 + |w.payload| <= MAX_MSG
  }

  /** An item the fan-out task is handing to the links of its snapshot that are still to come. */
  datatype Fanning = Fanning(item: Item, todo: seq<EndId>)

  datatype Hub = Hub(
    bands: Registry.Bands,
    egress: seq<Item>,
    fan: Option<Fanning>,
    links: seq<EndId>,
    fanned: int)                 // history: tag of the last item taken from `egress`, or -1

  /** One end of a link: `relayed` and `read` record the tags of the RELAYs it has written and read. */
  datatype End = End(
    hub: HubId,
    far: EndId,
    open: bool,
    active: bool,
    wants: set<BandId>,
    queue: seq<Msg>,
    inbox: seq<Wire>,
    relayed: seq<nat>,
    read: seq<nat>)

  datatype Source = Source(hub: HubId, band: BandId, frame: Registry.Packet)

  /** A frame queued to peers of one hub, and who was registered in its band there at that moment. */
  datatype Delivery = Delivery(tag: nat, hub: HubId, via: Option<EndId>, band: BandId, frame: Registry.Packet,
                               peers: set<Registry.PeerKey>, members: set<Registry.PeerKey>)

  datatype Mesh = Mesh(hubs: map<HubId, Hub>, ends: map<EndId, End>, sources: seq<Source>, deliveries: seq<Delivery>)

  datatype Step =
    | Membership(h: HubId, bands: Registry.Bands)                                   // peers come, go, declare, expire
    | Local(h: HubId, key: Registry.PeerKey, band: BandId, frame: Registry.Packet)  // a local peer's frame
    | FanStart(h: HubId)
    | FanOne(h: HubId)
    | Advertise(e: EndId, list: seq<BandId>)
    | Write(e: EndId)
    | Read(e: EndId)
    | LinkUp(e: EndId, f: EndId, h: HubId, g: HubId, activeHere: bool, activeThere: bool)
    | EndDown(e: EndId)

  function Offer<T>(queue: seq<T>, item: T): seq<T>
  {
    if |queue| < QUEUE_DEPTH then queue + [item] else queue
  }

  ghost predicate Enabled(m: Mesh, s: Step)
  {
    match s
    case Membership(h, _) => h in m.hubs
    case Local(h, _, _, _) => h in m.hubs
    case FanStart(h) => h in m.hubs && m.hubs[h].fan.None? && m.hubs[h].egress != []
    case FanOne(h) => h in m.hubs && m.hubs[h].fan.Some?
        && (m.hubs[h].fan.value.todo != [] ==> m.hubs[h].fan.value.todo[0] in m.ends)
    case Advertise(e, list) => e in m.ends && m.ends[e].open && m.ends[e].hub in m.hubs
        && (forall b :: b in list <==> b in m.hubs[m.ends[e].hub].bands)
    case Write(e) => e in m.ends && m.ends[e].open && m.ends[e].queue != [] && Writable(Encode(m.ends[e].queue[0]))
        && m.ends[e].far in m.ends
    case Read(e) => e in m.ends && m.ends[e].open && m.ends[e].inbox != [] && m.ends[e].hub in m.hubs
    case LinkUp(e, f, h, g, _, _) => e != f && e !in m.ends && f !in m.ends && h in m.hubs && g in m.hubs
    case EndDown(e) => e in m.ends && m.ends[e].hub in m.hubs
  }

  function PutHub(m: Mesh, h: HubId, hub: Hub): Mesh
  {
    m.(hubs := m.hubs[h := hub])
  }

  function PutEnd(m: Mesh, e: EndId, end: End): Mesh
  {
    m.(ends := m.ends[e := end])
  }

  /** A local frame: delivered here, and offered to the fan-out task with a fresh tag. */
  function LocalFrame(m: Mesh, h: HubId, key: Registry.PeerKey, band: BandId, frame: Registry.Packet): Mesh
    requires h in m.hubs
  {
    var hub, tag := m.hubs[h], |m.sources|;
    var (bands, peers, federate) := Registry.Forward(hub.bands, band, key, frame);
    var members := Registry.PeersOf(hub.bands, band).Keys;
    PutHub(m, h, hub.(bands := bands, egress := if federate then Offer(hub.egress, Item(band, frame, tag))
        else hub.egress))
      .(sources := m.sources + [Source(h, band, frame)],
        deliveries := m.deliveries + [Delivery(tag, h, None, band, frame, peers, members)])
  }

  function FanStartAt(hub: Hub): Hub
    requires hub.egress != []
  {
    hub.(egress := hub.egress[1..], fan := Some(Fanning(hub.egress[0], hub.links)), fanned := hub.egress[0].tag)
  }

  /** Hand the item to one link, if it is active and its far side has the band. */
  function Handed(end: End, item: Item): End
  {
    if end.active && item.band in end.wants then end.(queue := Offer(end.queue, Relay(item))) else end
  }

  function FanOneAt(m: Mesh, h: HubId): Mesh
    requires Enabled(m, FanOne(h))
  {
    var hub := m.hubs[h];
    var fan := hub.fan.value;
    if fan.todo == [] then PutHub(m, h, hub.(fan := None))
    else PutEnd(PutHub(m, h, hub.(fan := Some(fan.(todo := fan.todo[1..])))), fan.todo[0],
        Handed(m.ends[fan.todo[0]], fan.item))
  }

  function Written(end: End): End
    requires end.queue != []
  {
    end.(queue := end.queue[1..], relayed := if end.queue[0].Relay? then end.relayed + [end.queue[0].item.tag]
        else end.relayed)
  }

  function WriteAt(m: Mesh, e: EndId): Mesh
    requires Enabled(m, Write(e))
  {
    var end := m.ends[e];
    var sent := PutEnd(m, e, Written(end));
    PutEnd(sent, end.far, sent.ends[end.far].(inbox := sent.ends[end.far].inbox + [Encode(end.queue[0])]))
  }

  /** A RELAY read from an active link is injected here and goes no further. */
  function ReadAt(m: Mesh, e: EndId): Mesh
    requires Enabled(m, Read(e))
  {
    var end := m.ends[e];
    var msg, rest := end.inbox[0], end.(inbox := end.inbox[1..]);
    match msg
    case BandsMsg(payload) => PutEnd(m, e, rest.(wants := DecodeBands(payload)))
    case RelayMsg(payload, tag) =>
      var taken := PutEnd(m, e, rest.(read := end.read + [tag]));
      if !end.active || DecodeRelay(payload).None? then taken
      else
        var (band, frame) := DecodeRelay(payload).value;
        taken.(deliveries := m.deliveries + [Injected(m.hubs[end.hub].bands, end.hub, e, tag, band, frame)])
  }

  /** A frame from end `e`, handed to the peers of this hub. */
  function Injected(bands: Registry.Bands, hub: HubId, e: EndId, tag: nat, band: BandId,
                    frame: Registry.Packet): Delivery
  {
    Delivery(tag, hub, Some(e), band, frame, Registry.Inject(bands, band, frame), Registry.PeersOf(bands, band).Keys)
  }

  function NewEnd(hub: HubId, far: EndId, active: bool): End
  {
    End(hub, far, true, active, {}, [], [], [], [])
  }

  function Without(links: seq<EndId>, e: EndId): seq<EndId>
  {
    if links == [] then []
    else
      var rest := Without(links[..|links| - 1], e);
      if links[|links| - 1] == e then rest else rest + [links[|links| - 1]]
  }

  function LinkUpAt(m: Mesh, e: EndId, f: EndId, h: HubId, g: HubId, activeHere: bool, activeThere: bool): Mesh
    requires h in m.hubs && g in m.hubs
  {
    var one := PutHub(m, h, m.hubs[h].(links := m.hubs[h].links + [e]));
    var two := PutHub(one, g, one.hubs[g].(links := one.hubs[g].links + [f]));
    PutEnd(PutEnd(two, e, NewEnd(h, f, activeHere)), f, NewEnd(g, e, activeThere))
  }

  ghost function Next(m: Mesh, s: Step): Mesh
    requires Enabled(m, s)
  {
    match s
    case Membership(h, bands) => PutHub(m, h, m.hubs[h].(bands := bands))
    case Local(h, key, band, frame) => LocalFrame(m, h, key, band, frame)
    case FanStart(h) => PutHub(m, h, FanStartAt(m.hubs[h]))
    case FanOne(h) => FanOneAt(m, h)
    case Advertise(e, list) => PutEnd(m, e, m.ends[e].(queue := Offer(m.ends[e].queue, Bands(EncodeBands(list)))))
    case Write(e) => WriteAt(m, e)
    case Read(e) => ReadAt(m, e)
    case LinkUp(e, f, h, g, here, there) => LinkUpAt(m, e, f, h, g, here, there)
    case EndDown(e) =>
      var hub := m.hubs[m.ends[e].hub];
      PutEnd(PutHub(m, m.ends[e].hub, hub.(links := Without(hub.links, e))), e, m.ends[e].(open := false))
  }

  function NewHub(): Hub
  {
    Hub(map[], [], None, [], -1)
  }

  function Start(hubs: set<HubId>): Mesh
  {
    Mesh(map h | h in hubs :: NewHub(), map[], [], [])
  }

  /** Any interleaving; a step that is not possible when its turn comes does nothing. */
  ghost function Exec(m: Mesh, steps: seq<Step>): Mesh
  {
    if steps == [] then m
    else
      var before, last := Exec(m, steps[..|steps| - 1]), steps[|steps| - 1];
      if Enabled(before, last) then Next(before, last) else before
  }
}
