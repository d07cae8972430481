/** The hub-wide byte budget on UDP egress queues, under every interleaving of senders and writers
    (rust/telesthitium/src/registry.rs, rust/telesthitium/src/udp.rs). */
module UdpBudget {
  import opened Sums

  const USIZE_LIMIT := 0x1_0000_0000_0000_0000

  type TaskId = nat
  type QueueId = nat

  /** The atomic counter, the frames in each queue (as byte counts), and the bytes held by tasks in mid-step. */
  datatype Hub = Hub(
    limit: nat,
    depth: nat,
    used: nat,
    reserved: map<TaskId, nat>,     // charged; `try_send` on the queue not yet attempted
    refunding: map<TaskId, nat>,    // the queue refused the frame; its bytes not yet given back
    queues: map<QueueId, seq<nat>>,
    dequeued: map<QueueId, nat>)    // taken by the writer; its bytes not yet given back

  function NewHub(limit: nat, depth: nat): Hub
  {
    Hub(limit, depth, 0, map[], map[], map[], map[])
  }

  /** `fetch_update` with `checked_add`: refuse past the limit, or past what the counter can hold. */
  predicate Fits(limit: nat, used: nat, n: nat)
  {
    used + n < USIZE_LIMIT && (limit == 0 || used + n <= limit)
  }

  /** `fetch_sub`: wraps below zero. */
  function Sub(used: nat, n: nat): nat
  {
    if n <= used then used - n else (used - n) % USIZE_LIMIT
  }

  datatype Step =
    | Reserve(task: TaskId, n: nat)
    | Enqueue(task: TaskId, queue: QueueId)
    | Refuse(task: TaskId)
    | Refund(task: TaskId)
    | Dequeue(queue: QueueId)
    | Release(queue: QueueId)
    | Open(queue: QueueId)
    | Finish(queue: QueueId)

  ghost predicate Enabled(h: Hub, s: Step)
  {
    match s
    case Reserve(t, _) => t !in h.reserved && t !in h.refunding
    case Enqueue(t, q) => t in h.reserved && q in h.queues && |h.queues[q]| < h.depth
    case Refuse(t) => t in h.reserved
    case Refund(t) => t in h.refunding
    case Dequeue(q) => q in h.queues && h.queues[q] != [] && q !in h.dequeued
    case Release(q) => q in h.dequeued
    case Open(q) => q !in h.queues
    case Finish(q) => q in h.queues && h.queues[q] == [] && q !in h.dequeued
  }

  ghost function Next(h: Hub, s: Step): Hub
    requires Enabled(h, s)
  {
    match s
    case Reserve(t, n) =>
      if Fits(h.limit, h.used, n) then h.(used := h.used + n, reserved := h.reserved[t := n]) else h
    case Enqueue(t, q) =>
      h.(queues := h.queues[q := h.queues[q] + [h.reserved[t]]], reserved := h.reserved - {t})
    case Refuse(t) => h.(refunding := h.refunding[t := h.reserved[t]], reserved := h.reserved - {t})
    case Refund(t) => h.(used := Sub(h.used, h.refunding[t]), refunding := h.refunding - {t})
    case Dequeue(q) => h.(queues := h.queues[q := h.queues[q][1..]], dequeued := h.dequeued[q := h.queues[q][0]])
    case Release(q) => h.(used := Sub(h.used, h.dequeued[q]), dequeued := h.dequeued - {q})
    case Open(q) => h.(queues := h.queues[q := []])
    case Finish(q) => h.(queues := h.queues - {q})
  }

  // ---- Where the bytes are

  ghost function Bytes(n: nat): nat { n }

  function Length(frames: seq<nat>): nat
  {
    if frames == [] then 0 else frames[0] + Length(frames[1..])
  }

  ghost function QueueBytes(frames: seq<nat>): nat { Length(frames) }

  lemma {:induction false} LengthSnoc(frames: seq<nat>, n: nat)
    ensures Length(frames + [n]) == Length(frames) + n
  {
    if frames == [] {
      assert frames + [n] == [n];
    } else {
      LengthSnoc(frames[1..], n);
      assert (frames + [n])[1..] == frames[1..] + [n];
    }
  }

  ghost function Held(h: Hub): nat
  {
    Sum(h.reserved, Bytes) + Sum(h.refunding, Bytes) + Sum(h.queues, QueueBytes) + Sum(h.dequeued, Bytes)
  }

  /** Every charged byte is accounted for, and the caps hold. */
  ghost predicate Balanced(h: Hub)
  {
    && h.used == Held(h)
    && h.used < USIZE_LIMIT
    && (h.limit != 0 ==> h.used <= h.limit)
    && forall q :: q in h.queues ==> |h.queues[q]| <= h.depth
  }

  lemma SumTake<K>(m: map<K, nat>, k: K)
    requires k in m
    ensures Sum(m, Bytes) == m[k] + Sum(m - {k}, Bytes)
  {
    SumRemove(m, Bytes, k);
  }

  lemma SumQueue(m: map<QueueId, seq<nat>>, q: QueueId, frames: seq<nat>)
    ensures Sum(m[q := frames], QueueBytes) + (if q in m then Length(m[q]) else 0)
        == Sum(m, QueueBytes) + Length(frames)
  {
    SumUpdate(m, QueueBytes, q, frames);
    if q in m {
      SumRemove(m, QueueBytes, q);
    } else {
      assert m - {q} == m;
    }
  }

  lemma SumPut<K>(m: map<K, nat>, k: K, n: nat)
    requires k !in m
    ensures Sum(m[k := n], Bytes) == Sum(m, Bytes) + n
  {
    SumInsert(m, Bytes, k, n);
  }

  /** A refund is never larger than the count it is taken from. */
  lemma NoUnderflow(h: Hub, s: Step)
    requires Balanced(h) && Enabled(h, s)
    ensures s.Refund? ==> h.refunding[s.task] <= h.used
    ensures s.Release? ==> h.dequeued[s.queue] <= h.used
  {
    hide Sum;
    if s.Refund? { SumTake(h.refunding, s.task); }
    if s.Release? { SumTake(h.dequeued, s.queue); }
  }

  /** A task is reserving or refunding, never both. */
  ghost predicate OnePhase(h: Hub)
  {
    h.reserved.Keys !! h.refunding.Keys
  }

  lemma StepKeepsBalance(h: Hub, s: Step)
    requires Balanced(h) && OnePhase(h) && Enabled(h, s)
    ensures Balanced(Next(h, s)) && OnePhase(Next(h, s))
  {
    hide Sum, Length;
    NoUnderflow(h, s);
    match s
    case Reserve(t, n) => SumPut(h.reserved, t, n);
    case Enqueue(t, q) =>
      SumTake(h.reserved, t);
      SumQueue(h.queues, q, h.queues[q] + [h.reserved[t]]);
      LengthSnoc(h.queues[q], h.reserved[t]);
    case Refuse(t) =>
      SumTake(h.reserved, t);
      SumPut(h.refunding, t, h.reserved[t]);
    case Refund(t) => SumTake(h.refunding, t);
    case Dequeue(q) =>
      SumQueue(h.queues, q, h.queues[q][1..]);
      LengthHead(h.queues[q]);
      SumPut(h.dequeued, q, h.queues[q][0]);
    case Release(q) => SumTake(h.dequeued, q);
    case Open(q) =>
      SumQueue(h.queues, q, []);
      LengthEmpty();
    case Finish(q) =>
      SumRemove(h.queues, QueueBytes, q);
      LengthEmpty();
  }

  lemma LengthHead(frames: seq<nat>)
    requires frames != []
    ensures Length(frames) == frames[0] + Length(frames[1..])
  {
  }

  lemma LengthEmpty()
    ensures Length([]) == 0
  {
  }

  ghost function Exec(h: Hub, steps: seq<Step>): Hub
  {
    if steps == [] then h
    else
      var before, last := Exec(h, steps[..|steps| - 1]), steps[|steps| - 1];
      if Enabled(before, last) then Next(before, last) else before
  }

  /** Across every interleaving (a step that is not possible when its turn comes does nothing): `used` is exactly
      the bytes reserved, refunding, queued and dequeued; a nonzero limit is never exceeded; no counter wraps. */
  lemma {:induction false} BudgetBalances(limit: nat, depth: nat, steps: seq<Step>)
    ensures var h := Exec(NewHub(limit, depth), steps); Balanced(h) && OnePhase(h) && h.limit == limit
  {
    hide Balanced, OnePhase, Enabled;
    if steps == [] {
      NothingHeld(limit, depth);
    } else {
      BudgetBalances(limit, depth, steps[..|steps| - 1]);
      var before := Exec(NewHub(limit, depth), steps[..|steps| - 1]);
      if Enabled(before, steps[|steps| - 1]) {
        StepKeepsBalance(before, steps[|steps| - 1]);
      }
    }
  }

  lemma NothingHeld(limit: nat, depth: nat)
    ensures Balanced(NewHub(limit, depth)) && OnePhase(NewHub(limit, depth))
  {
  }

  /** Once nothing is queued or in mid-step, nothing is charged: no interleaving leaks budget. */
  lemma QuiescentMeansZero(limit: nat, depth: nat, steps: seq<Step>, h: Hub)
    requires h == Exec(NewHub(limit, depth), steps)
    requires h.reserved == map[] && h.refunding == map[] && h.dequeued == map[]
    requires forall q :: q in h.queues ==> h.queues[q] == []
    ensures h.used == 0
  {
    BudgetBalances(limit, depth, steps);
    SumBound(h.queues, QueueBytes, 0, |h.queues|);
  }

  // ---- The counter and the writer loop themselves

  class ByteBudget {
    const limit: nat
    var used: nat

    constructor (limit: nat)
      ensures this.limit == limit && used == 0
    {
      this.limit := limit;
      used := 0;
    }

    method TryReserve(n: nat) returns (ok: bool)
      modifies this
      ensures ok == Fits(limit, old(used), n)
      ensures used == if ok then old(used) + n else old(used)
      ensures limit != 0 && old(used) <= limit ==> used <= limit
      ensures old(used) < USIZE_LIMIT ==> used < USIZE_LIMIT
    {
      ok := used + n < USIZE_LIMIT && (limit == 0 || used + n <= limit);
      if ok {
        used := used + n;
      }
    }

    method Release(n: nat)
      modifies this
      ensures used == Sub(old(used), n)
      ensures n <= old(used) < USIZE_LIMIT ==> used == old(used) - n
    {
      used := Sub(used, n);
    }
  }

  datatype SendResult = Queued | QueueFull | BudgetFull | QueueClosed

  /** One UDP peer's sink: its own bounded queue, here of frame sizes, drawing on a shared budget. */
  class UdpSink {
    const depth: nat
    var open: bool
    var queue: seq<nat>

    constructor (depth: nat)
      ensures this.depth == depth && open && queue == []
    {
      this.depth := depth;
      open, queue := true, [];
    }

    /** Whatever comes of it, the budget is charged for exactly what the queue gained. */
    method TrySend(budget: ByteBudget, n: nat) returns (r: SendResult)
      requires budget.used < USIZE_LIMIT
      modifies `queue, budget
      ensures budget.used - Length(queue) == old(budget.used) - old(Length(queue))
      ensures queue == if r == Queued then old(queue) + [n] else old(queue)
      ensures |old(queue)| <= depth ==> |queue| <= depth
      ensures r == Queued <==> Fits(budget.limit, old(budget.used), n) && open && |old(queue)| < depth
      ensures budget.used < USIZE_LIMIT
    {
      var ok := budget.TryReserve(n);
      if !ok {
        return BudgetFull;
      }
      if open && |queue| < depth {
        LengthSnoc(queue, n);
        queue := queue + [n];
        return Queued;
      }
      budget.Release(n);
      r := if open then QueueFull else QueueClosed;
    }
  }

  /** Frames handed to one sink by whoever has any. */
  method SendAll(sink: UdpSink, budget: ByteBudget, frames: seq<nat>)
    requires Length(sink.queue) <= budget.used < USIZE_LIMIT
    modifies sink`queue, budget
    ensures budget.used - Length(sink.queue) == old(budget.used) - old(Length(sink.queue))
    ensures budget.used < USIZE_LIMIT
  {
    var i := 0;
    while i < |frames|
      invariant 0 <= i <= |frames| && budget.used < USIZE_LIMIT
      invariant budget.used - Length(sink.queue) == old(budget.used) - old(Length(sink.queue))
    {
      var _ := sink.TrySend(budget, frames[i]);
      i := i + 1;
    }
  }

  /** A writer draining its queue while senders add to it, a burst before each of its turns: when it has caught up, the
      budget is down by exactly what the queue held at the start, nothing of what came meanwhile, and never wrapped. */
  method PeerWriter(sink: UdpSink, budget: ByteBudget, bursts: seq<seq<nat>>)
    requires Length(sink.queue) <= budget.used < USIZE_LIMIT
    modifies sink`queue, budget
    ensures sink.queue == [] && budget.used == old(budget.used) - old(Length(sink.queue))
  {
    var turn := 0;
    while turn < |bursts| || sink.queue != []
      invariant 0 <= turn <= |bursts| && Length(sink.queue) <= budget.used < USIZE_LIMIT
      invariant budget.used - Length(sink.queue) == old(budget.used) - old(Length(sink.queue))
      decreases |bursts| - turn, |sink.queue|
    {
      if turn < |bursts| {
        SendAll(sink, budget, bursts[turn]);
        turn := turn + 1;
      }
      if sink.queue != [] {
        var n := sink.queue[0];
        LengthHead(sink.queue);
        sink.queue := sink.queue[1..];
        budget.Release(n);
      }
    }
  }
}
