/** Reassembly of an ordered stream: whole messages, one after the other, as a Channel delivers them. */
module ReassemblyOrder {
  import opened BigEndian
  import opened Fragments
  import opened Sums
  import opened Reassembly
  import opened ReassemblyInvariant
  import opened ReassemblyTheorems

  /** A message and the random id its sender drew for it. Ids need not differ. */
  datatype Message = Message(fid: FragmentId, payload: Payload)

  ghost predicate Sendable(msgs: seq<Message>, size: nat)
  {
    forall m :: m in msgs ==> Fragmentable(m.payload, size)
  }

  /** Every chunk of every message, in order. */
  ghost function Chunks(msgs: seq<Message>, size: nat): seq<seq<byte>>
    requires Sendable(msgs, size)
  {
    if msgs == [] then [] else Fragment(msgs[0].payload, size, msgs[0].fid) + Chunks(msgs[1..], size)
  }

  /** How many messages the first `n` chunks complete. */
  ghost function Completed(msgs: seq<Message>, size: nat, n: nat): (k: nat)
    requires Sendable(msgs, size)
    ensures k <= |msgs|
  {
    if msgs == [] then 0
    else
      var total := PieceCount(|msgs[0].payload|, size);
      if n < total then 0 else 1 + Completed(msgs[1..], size, n - total)
  }

  ghost function Payloads(msgs: seq<Message>): (p: seq<Payload>)
    ensures |p| == |msgs| && forall i :: 0 <= i < |msgs| ==> p[i] == msgs[i].payload
  {
    seq(|msgs|, i requires 0 <= i < |msgs| => msgs[i].payload)
  }

  /** The answers that carry a message, in order. */
  ghost function Given(outs: seq<Option<Payload>>): seq<Payload>
  {
    if outs == [] then []
    else Given(outs[..|outs| - 1]) + (match outs[|outs| - 1] case None => [] case Some(p) => [p])
  }

  ghost predicate WithinTimeout(inputs: seq<Input>, since: Instant)
  {
    forall k :: 0 <= k < |inputs| ==> since <= inputs[k].now <= since + DEFAULT_TIMEOUT
  }

  /** No message is still incomplete when the reassembly timeout has passed since its first chunk. */
  ghost predicate Timely(msgs: seq<Message>, size: nat, inputs: seq<Input>)
    requires Sendable(msgs, size)
  {
    msgs == [] || inputs == [] ||
    var total := PieceCount(|msgs[0].payload|, size);
    if |inputs| < total then WithinTimeout(inputs, inputs[0].now)
    else WithinTimeout(inputs[..total], inputs[0].now) && Timely(msgs[1..], size, inputs[total..])
  }

  ghost predicate CarriesChunks(inputs: seq<Input>, chunks: seq<seq<byte>>)
  {
    |inputs| <= |chunks| && forall k :: 0 <= k < |inputs| ==> inputs[k].raw == chunks[k]
  }

  lemma {:induction false} FeedAllAppend(s: State, a: seq<Input>, b: seq<Input>)
    ensures FeedAll(s, a + b) == (FeedAll(FeedAll(s, a).0, b).0, FeedAll(s, a).1 + FeedAll(FeedAll(s, a).0, b).1)
  {
    hide Feed;
    if b == [] {
      assert a + b == a;
      assert FeedAll(s, a).1 + [] == FeedAll(s, a).1;
    } else {
      var n := |b| - 1;
      FeedAllAppend(s, a, b[..n]);
      assert (a + b)[..|a + b| - 1] == a + b[..n] && (a + b)[|a + b| - 1] == b[n];
      var t := FeedAll(s, a).0;
      var out := Feed(FeedAll(t, b[..n]).0, b[n].raw, b[n].now).1;
      assert FeedAll(s, a).1 + FeedAll(t, b[..n]).1 + [out] == FeedAll(s, a).1 + FeedAll(t, b).1;
    }
  }

  lemma {:induction false} GivenAppend(a: seq<Option<Payload>>, b: seq<Option<Payload>>)
    ensures Given(a + b) == Given(a) + Given(b)
  {
    if b == [] {
      assert a + b == a;
    } else {
      GivenAppend(a, b[..|b| - 1]);
      assert (a + b)[..|a + b| - 1] == a + b[..|b| - 1];
    }
  }

  /** `0, 1, .., n-1`. */
  ghost function Counting(n: nat): (ix: seq<nat>)
    ensures |ix| == n && forall k :: 0 <= k < n ==> ix[k] == k
  {
    if n == 0 then [] else Counting(n - 1) + [n - 1]
  }

  lemma FullBelow(n: nat, total: nat)
    requires n < total
    ensures Below(n) + {n} == Below(n + 1)
    ensures Below(n + 1) == Below(total) <==> n + 1 == total
  {
    BelowCard(n + 1);
    BelowCard(total);
  }

  /** Chunks in order: all held until the last, which gives the message back. */
  lemma {:induction false} InOrderHeld(n: nat, total: nat)
    requires n <= total && total > 0
    ensures Held(Counting(n), total) == if n == total then {} else Below(n)
  {
    if n > 0 {
      InOrderHeld(n - 1, total);
      assert Counting(n)[..n - 1] == Counting(n - 1);
      FullBelow(n - 1, total);
    }
  }

  lemma {:induction false} InOrderAnswers(n: nat, total: nat, payload: Payload)
    requires n <= total && total > 0
    ensures Given(Answers(Counting(n), total, payload)) == if n == total then [payload] else []
  {
    hide Held;
    if n > 0 {
      InOrderAnswers(n - 1, total, payload);
      InOrderHeld(n - 1, total);
      assert Counting(n)[..n - 1] == Counting(n - 1);
      FullBelow(n - 1, total);
      var a := Answers(Counting(n), total, payload);
      assert a[..n - 1] == Answers(Counting(n - 1), total, payload);
    }
  }

  lemma CarriesInOrder(inputs: seq<Input>, m: Message, size: nat, since: Instant)
    requires Fragmentable(m.payload, size) && WithinTimeout(inputs, since)
    requires CarriesChunks(inputs, Fragment(m.payload, size, m.fid))
    ensures Carries(inputs, Counting(|inputs|), m.payload, size, m.fid, since)
  {
    hide Fragment, PieceCount;
  }

  /** The first `inputs` of one message, from an empty reassembler. */
  lemma OneMessage(s: State, m: Message, size: nat, inputs: seq<Input>, since: Instant)
    requires Fragmentable(m.payload, size) && Holding(s, m.payload, size, m.fid, {}, since)
    requires CarriesChunks(inputs, Fragment(m.payload, size, m.fid)) && WithinTimeout(inputs, since)
    ensures var total := PieceCount(|m.payload|, size);
            && (|inputs| == total ==> Holding(FeedAll(s, inputs).0, m.payload, size, m.fid, {}, since))
            && Given(FeedAll(s, inputs).1) == if |inputs| == total then [m.payload] else []
  {
    hide Holding, FeedAll, Fragment, PieceCount, WithinTimeout, Carries, Given, Answers, Held, Counting;
    CarriesInOrder(inputs, m, size, since);
    InOrderHeld(|inputs|, PieceCount(|m.payload|, size));
    InOrderAnswers(|inputs|, PieceCount(|m.payload|, size), m.payload);
    Completeness(s, inputs, Counting(|inputs|), m.payload, size, m.fid, since);
  }

  /** An empty reassembler is ready for any message at any time. */
  lemma HoldingNothingIsAny(s: State, size: nat, m: Message, since: Instant, n: Message, later: Instant)
    requires size > 0 && Holding(s, m.payload, size, m.fid, {}, since)
    ensures Holding(s, n.payload, size, n.fid, {}, later)
  {
  }

  lemma NoInputs(s: State, inputs: seq<Input>, chunks: seq<seq<byte>>)
    requires CarriesChunks(inputs, chunks) && (inputs == [] || chunks == [])
    ensures inputs == [] && Given(FeedAll(s, inputs).1) == []
  {
  }

  lemma CarriesSplit(inputs: seq<Input>, a: seq<seq<byte>>, b: seq<seq<byte>>)
    requires CarriesChunks(inputs, a + b)
    ensures |inputs| < |a| ==> CarriesChunks(inputs, a)
    ensures |inputs| >= |a| ==> CarriesChunks(inputs[..|a|], a) && CarriesChunks(inputs[|a|..], b)
  {
    forall k | 0 <= k < |inputs| && |a| <= k ensures inputs[k].raw == b[k - |a|] {
      assert (a + b)[k] == b[k - |a|];
    }
  }

  /** The messages a prefix of an ordered chunk stream completes are given back, in order, and nothing
      else is: for every split of the stream, whatever the ids. */
  lemma {:induction false} InOrderReassembly(s: State, msgs: seq<Message>, size: nat, inputs: seq<Input>, m: Message,
                                             since: Instant)
    requires size > 0 && Sendable(msgs, size) && Holding(s, m.payload, size, m.fid, {}, since)
    requires CarriesChunks(inputs, Chunks(msgs, size)) && Timely(msgs, size, inputs)
    ensures Given(FeedAll(s, inputs).1) == Payloads(msgs)[..Completed(msgs, size, |inputs|)]
    decreases |msgs|
  {
    hide Holding, FeedAll, Fragment, PieceCount, Fragmentable, CarriesChunks, Given, WithinTimeout;
    if msgs == [] || inputs == [] {
      NoInputs(s, inputs, Chunks(msgs, size));
    } else {
      var total := PieceCount(|msgs[0].payload|, size);
      CarriesSplit(inputs, Fragment(msgs[0].payload, size, msgs[0].fid), Chunks(msgs[1..], size));
      HoldingNothingIsAny(s, size, m, since, msgs[0], inputs[0].now);
      if |inputs| < total {
        OneMessage(s, msgs[0], size, inputs, inputs[0].now);
      } else {
        var first, later := inputs[..total], inputs[total..];
        OneMessage(s, msgs[0], size, first, inputs[0].now);
        var t := FeedAll(s, first).0;
        InOrderReassembly(t, msgs[1..], size, later, msgs[0], inputs[0].now);
        assert inputs == first + later;
        FeedAllAppend(s, first, later);
        GivenAppend(FeedAll(s, first).1, FeedAll(t, later).1);
        assert Payloads(msgs) == [msgs[0].payload] + Payloads(msgs[1..]);
      }
    }
  }
}
