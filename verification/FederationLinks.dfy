/** The mutable link handles and the loops around them, against the operations in `Federation`. */
module FederationObject {
  import opened BigEndian
  import Registry
  import Spec = Federation

  class LinkHandle {
    const active: bool
    var wants: set<Spec.BandId>
    var queue: seq<Spec.Msg>

    constructor (active: bool)
      ensures this.active == active && wants == {} && queue == []
    {
      this.active := active;
      wants, queue := {}, [];
    }

    /** A BANDS message: the ids that are all there, up to the stated count. */
    method OnBands(payload: seq<byte>)
      modifies `wants
      ensures wants == Spec.DecodeBands(payload)
    {
      wants := {};
      if |payload| < 2 {
        return;
      }
      var count := FromBytes(payload[..2]);
      var off, n := 2, 0;
      while n < count && off + Registry.BAND_ID_LEN <= |payload|
        invariant 0 <= n <= count && 2 <= off <= |payload|
        invariant wants + Spec.Split(payload[off..], count - n) == Spec.Split(payload[2..], count)
        decreases count - n
      {
        ghost var body := payload[off..];
        assert body[..Registry.BAND_ID_LEN] == payload[off..off + Registry.BAND_ID_LEN];
        assert body[Registry.BAND_ID_LEN..] == payload[off + Registry.BAND_ID_LEN..];
        wants := wants + {payload[off..off + Registry.BAND_ID_LEN]};
        off := off + Registry.BAND_ID_LEN;
        n := n + 1;
      }
    }

    /** Our bands, queued for the far side. */
    method Advertise(bands: seq<Spec.BandId>)
      modifies `queue
      ensures queue == Spec.Offer(old(queue), Spec.Bands(Spec.EncodeBands(bands)))
    {
      var body := [];
      var few := if |bands| < Spec.MAX_BANDS then |bands| else Spec.MAX_BANDS;
      var i := 0;
      while i < few
        invariant 0 <= i <= few && body == Spec.Join(bands[..i])
      {
        assert bands[..i + 1][..i] == bands[..i];
        body := body + bands[i];
        i := i + 1;
      }
      assert bands[..few] == Spec.Advertised(bands);
      var payload := ToBytes(few, 2) + body;
      if |queue| < Spec.QUEUE_DEPTH {
        queue := queue + [Spec.Bands(payload)];
      }
    }
  }

  /** One locally sourced frame, handed once to every active link whose far side has its band. */
  method FanOut(item: Spec.Item, links: seq<LinkHandle>)
    requires forall i, j :: 0 <= i < j < |links| ==> links[i] != links[j]
    modifies links
    ensures forall i :: 0 <= i < |links| ==> links[i].wants == old(links[i].wants)
    ensures forall i :: 0 <= i < |links| ==>
              links[i].queue == if links[i].active && item.band in links[i].wants
                                then Spec.Offer(old(links[i].queue), Spec.Relay(item)) else old(links[i].queue)
  {
    var n := 0;
    while n < |links|
      invariant 0 <= n <= |links| && forall i :: 0 <= i < |links| ==> links[i].wants == old(links[i].wants)
      invariant forall i :: n <= i < |links| ==> links[i].queue == old(links[i].queue)
      invariant forall i :: 0 <= i < n ==>
                  links[i].queue == if links[i].active && item.band in links[i].wants
                                    then Spec.Offer(old(links[i].queue), Spec.Relay(item)) else old(links[i].queue)
    {
      var h := links[n];
      if h.active && item.band in h.wants && |h.queue| < Spec.QUEUE_DEPTH {
        h.queue := h.queue + [Spec.Relay(item)];
      }
      n := n + 1;
    }
  }
}
