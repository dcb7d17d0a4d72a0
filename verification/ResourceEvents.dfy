/** The resource event queue: a ring of 256 that drops the oldest event when it is full. */
module ResourceEvents {
  import opened Words

  const QUEUE_SIZE: nat := 256

  datatype ResourceEvent = ResourceEvent(resource: u64, timestamp: u32, kind: u8)

  /** An event that has left the queue, by being polled or by being dropped. */
  datatype Gone = Gone(event: ResourceEvent, dropped: bool)

  /** The queue, the log of everything posted, and the log of everything gone. */
  datatype Queue = Queue(held: seq<ResourceEvent>, posted: seq<ResourceEvent>, gone: seq<Gone>)
  {
    /**
     * Events leave in the order they were posted, each once, and the most recent ones are held; and an
     * event is dropped only when as many later ones have been posted as the queue can hold.
     */
    ghost predicate Valid() {
      && |held| <= QUEUE_SIZE
      && |posted| == |gone| + |held| && held == posted[|gone|..]
      && (forall i :: 0 <= i < |gone| ==> gone[i].event == posted[i])
      && (forall i :: 0 <= i < |gone| && gone[i].dropped ==> i + QUEUE_SIZE < |posted|)
    }

    function Post(e: ResourceEvent): Queue {
      if |held| == QUEUE_SIZE
      then Queue(held[1..] + [e], posted + [e], gone + [Gone(held[0], true)])
      else Queue(held + [e], posted + [e], gone)
    }

    function Poll(n: nat): Queue
      requires n <= |held|
    {
      Queue(held[n..], posted, gone + Leaving(held[..n]))
    }
  }

  const EMPTY_QUEUE: Queue := Queue([], [], [])

  function Leaving(events: seq<ResourceEvent>): (r: seq<Gone>)
    ensures |r| == |events| && forall i :: 0 <= i < |r| ==> r[i] == Gone(events[i], false)
  {
    if events == [] then [] else Leaving(events[..|events| - 1]) + [Gone(events[|events| - 1], false)]
  }

  /** How many events were dropped. */
  function Drops(gone: seq<Gone>): nat {
    if gone == [] then 0 else Drops(gone[..|gone| - 1]) + if gone[|gone| - 1].dropped then 1 else 0
  }

  /** The events that were polled, oldest first. */
  function Polled(gone: seq<Gone>): seq<ResourceEvent> {
    if gone == [] then []
    else Polled(gone[..|gone| - 1]) + if gone[|gone| - 1].dropped then [] else [gone[|gone| - 1].event]
  }

  lemma OneMore(gone: seq<Gone>, g: Gone)
    ensures Polled(gone + [g]) == Polled(gone) + if g.dropped then [] else [g.event]
    ensures Drops(gone + [g]) == Drops(gone) + if g.dropped then 1 else 0
  {
    assert (gone + [g])[..|gone|] == gone;
  }

  lemma {:induction false} LeavingIsPolled(gone: seq<Gone>, events: seq<ResourceEvent>)
    ensures Polled(gone + Leaving(events)) == Polled(gone) + events
    ensures Drops(gone + Leaving(events)) == Drops(gone)
  {
    if events == [] {
      assert gone + Leaving(events) == gone;
    } else {
      var init, last := events[..|events| - 1], events[|events| - 1];
      LeavingIsPolled(gone, init);
      assert gone + Leaving(events) == (gone + Leaving(init)) + [Gone(last, false)];
      assert init + [last] == events;
      hide Polled, Drops, Leaving;
      OneMore(gone + Leaving(init), Gone(last, false));
    }
  }

  /** Posting drops the oldest event exactly when the queue is full. */
  lemma PostKeeps(q: Queue, e: ResourceEvent)
    requires q.Valid()
    ensures q.Post(e).Valid()
    ensures Drops(q.Post(e).gone) == Drops(q.gone) + if |q.held| == QUEUE_SIZE then 1 else 0
    ensures Polled(q.Post(e).gone) == Polled(q.gone)
  {
    hide Polled, Drops;
    if |q.held| == QUEUE_SIZE { OneMore(q.gone, Gone(q.held[0], true)); }
  }

  lemma PollKeeps(q: Queue, n: nat)
    requires q.Valid() && n <= |q.held|
    ensures q.Poll(n).Valid()
    ensures Drops(q.Poll(n).gone) == Drops(q.gone) && Polled(q.Poll(n).gone) == Polled(q.gone) + q.held[..n]
  {
    LeavingIsPolled(q.gone, q.held[..n]);
    hide Polled, Drops;
  }

  datatype Op = PostOp(event: ResourceEvent) | PollOp(max: nat)

  function Size(q: Queue, max: nat): (n: nat)
    ensures n <= |q.held|
  {
    if max < |q.held| then max else |q.held|
  }

  function Apply(q: Queue, op: Op): Queue {
    match op
    case PostOp(e) => q.Post(e)
    case PollOp(max) => q.Poll(Size(q, max))
  }

  function Run(q: Queue, ops: seq<Op>): Queue {
    if ops == [] then q else Apply(Run(q, ops[..|ops| - 1]), ops[|ops| - 1])
  }

  /** The events posted in a run, in order. */
  function Posts(ops: seq<Op>): seq<ResourceEvent> {
    if ops == [] then [] else Posts(ops[..|ops| - 1]) + if ops[|ops| - 1].PostOp? then [ops[|ops| - 1].event] else []
  }

  /** The events the polls of a run returned, in order. */
  function Returned(ops: seq<Op>): seq<ResourceEvent> {
    if ops == [] then []
    else
      var q := Run(EMPTY_QUEUE, ops[..|ops| - 1]);
      Returned(ops[..|ops| - 1]) + if ops[|ops| - 1].PollOp? then q.held[..Size(q, ops[|ops| - 1].max)] else []
  }

  /**
   * Over every run from the empty queue, each event posted is polled once, dropped once or held, in the
   * order posted; the polls return exactly those not dropped; an event is dropped only after 256 later
   * ones were posted; and the most recent ones are held.
   */
  lemma RunConserves(ops: seq<Op>)
    ensures var q := Run(EMPTY_QUEUE, ops);
            && q.posted == Posts(ops) && Polled(q.gone) == Returned(ops)
            && |Posts(ops)| == |Returned(ops)| + Drops(q.gone) + |q.held| && |q.held| <= QUEUE_SIZE
            && |q.gone| <= |Posts(ops)| && q.held == Posts(ops)[|q.gone|..]
            && (forall i :: 0 <= i < |q.gone| ==> q.gone[i].event == Posts(ops)[i])
            && (forall i :: 0 <= i < |q.gone| && q.gone[i].dropped ==> i + QUEUE_SIZE < |Posts(ops)|)
  {
    RunKeeps(ops);
    var q := Run(EMPTY_QUEUE, ops);
    GoneCounts(q.gone);
  }

  lemma {:induction false} GoneCounts(gone: seq<Gone>)
    ensures |gone| == |Polled(gone)| + Drops(gone)
  {
    if gone != [] { GoneCounts(gone[..|gone| - 1]); }
  }

  lemma {:induction false} RunKeeps(ops: seq<Op>)
    ensures var q := Run(EMPTY_QUEUE, ops);
            q.Valid() && q.posted == Posts(ops) && Polled(q.gone) == Returned(ops)
  {
    if ops != [] {
      var past := ops[..|ops| - 1];
      RunKeeps(past);
      hide Queue.Valid, Polled;
      var q := Run(EMPTY_QUEUE, past);
      match ops[|ops| - 1]
      case PostOp(e) => PostKeeps(q, e);
      case PollOp(max) => PollKeeps(q, Size(q, max));
    }
  }

  /** A queue that is never polled holds the last 256 events posted, or all of them. */
  lemma {:induction false} UnpolledHoldsLast(ops: seq<Op>)
    requires forall i :: 0 <= i < |ops| ==> ops[i].PostOp?
    ensures |Run(EMPTY_QUEUE, ops).held| == if |Posts(ops)| < QUEUE_SIZE then |Posts(ops)| else QUEUE_SIZE
  {
    if ops != [] {
      var past := ops[..|ops| - 1];
      assert forall i :: 0 <= i < |past| ==> past[i] == ops[i];
      UnpolledHoldsLast(past);
      RunKeeps(past);
      QueueBound(Run(EMPTY_QUEUE, past));
      hide Queue.Valid;
    }
  }

  lemma QueueBound(q: Queue)
    requires q.Valid()
    ensures |q.held| <= QUEUE_SIZE
  {
  }

  /** `i & V3_EVENTS_MASK` */
  function Slot(i: nat): (s: nat)
    ensures s < QUEUE_SIZE
  {
    i % QUEUE_SIZE
  }

  lemma SlotAdd(i: nat, k: nat)
    ensures Slot(Slot(i) + k) == Slot(i + k)
  {
  }

  lemma SlotIdentity(i: nat)
    requires i < QUEUE_SIZE
    ensures Slot(i) == i
  {
  }

  lemma SlotsDistinct(i: nat, j: nat)
    requires i < j < i + QUEUE_SIZE
    ensures Slot(i) != Slot(j)
  {
  }

  /** `n` entries of a ring, from `tail` on and wrapping round. */
  function Window(ring: seq<ResourceEvent>, tail: nat, n: nat): (w: seq<ResourceEvent>)
    requires |ring| == QUEUE_SIZE
    ensures |w| == n
  {
    seq(n, k requires 0 <= k < n => ring[Slot(tail + k)])
  }

  /** Writing at the head extends the window. */
  lemma WindowGrows(ring: seq<ResourceEvent>, tail: nat, n: nat, e: ResourceEvent)
    requires |ring| == QUEUE_SIZE && n < QUEUE_SIZE
    ensures Window(ring[Slot(tail + n) := e], tail, n + 1) == Window(ring, tail, n) + [e]
  {
    hide Slot;
    var before, after := Window(ring, tail, n), Window(ring[Slot(tail + n) := e], tail, n + 1);
    forall k | 0 <= k < n ensures after[k] == before[k] { SlotsDistinct(tail + k, tail + n); }
  }

  /** Advancing the tail drops the oldest entries. */
  lemma WindowShrinks(ring: seq<ResourceEvent>, tail: nat, n: nat, k: nat)
    requires |ring| == QUEUE_SIZE && k <= n
    ensures Window(ring, Slot(tail + k), n - k) == Window(ring, tail, n)[k..]
  {
    hide Slot;
    var after, rest := Window(ring, Slot(tail + k), n - k), Window(ring, tail, n)[k..];
    forall i | 0 <= i < n - k ensures after[i] == rest[i] { SlotAdd(tail + k, i); }
  }

  class EventRing {
    const queue: array<ResourceEvent>
    var head: nat
    var tail: nat
    var count: nat
    var dropCount: u32
    ghost var posted: seq<ResourceEvent>
    ghost var gone: seq<Gone>

    ghost predicate Valid()
      reads this, queue
    {
      && queue.Length == QUEUE_SIZE && head < QUEUE_SIZE && tail < QUEUE_SIZE && count <= QUEUE_SIZE
      && head == Slot(tail + count)
      && dropCount == Low32(Drops(gone))
      && View().Valid()
    }

    ghost function Held(): seq<ResourceEvent>
      reads this, queue
    {
      if queue.Length != QUEUE_SIZE || tail >= QUEUE_SIZE || count > QUEUE_SIZE then []
      else Window(queue[..], tail, count)
    }

    ghost function View(): Queue
      reads this, queue
    {
      Queue(Held(), posted, gone)
    }

    constructor ()
      ensures Valid() && fresh(queue) && View() == EMPTY_QUEUE
    {
      queue := new ResourceEvent[QUEUE_SIZE](_ => ResourceEvent(0, 0, 0));
      head, tail, count, dropCount := 0, 0, 0, 0;
      posted, gone := [], [];
    }

    method Post(resource: u64, kind: u8, now: u32)
      requires Valid()
      modifies this, queue
      ensures Valid() && View() == old(View()).Post(ResourceEvent(resource, now, kind))
    {
      hide Queue.Valid, Window, Slot, Drops, Polled;
      var e := ResourceEvent(resource, now, kind);
      PostKeeps(View(), e);
      if count == QUEUE_SIZE {
        gone := gone + [Gone(View().held[0], true)];
        WindowShrinks(queue[..], tail, count, 1);
        SlotAdd(tail + 1, count - 1);
        Low32Add(Drops(old(gone)), 1);
        tail := Slot(tail + 1);
        dropCount := Add32(dropCount, 1);
      } else {
        count := count + 1;
      }
      SlotAdd(tail + (count - 1), 1);
      WindowGrows(queue[..], tail, count - 1, e);
      ghost var ring := queue[..];
      queue[head] := e;
      assert queue[..] == ring[head := e];
      head := Slot(head + 1);
      posted := posted + [e];
    }

    method Poll(out: array<ResourceEvent>, max: nat) returns (n: nat)
      requires Valid() && max <= out.Length && out != queue
      modifies this`tail, this`count, this`gone, out
      ensures Valid() && n == (if max < |old(View()).held| then max else |old(View()).held|)
      ensures View() == old(View()).Poll(n)
      ensures out[..n] == old(View()).held[..n] && out[n..] == old(out[n..])
    {
      hide Queue.Valid, Window, Slot, Drops, Polled, Leaving;
      n := if count < max then count else max;
      PollKeeps(View(), n);
      WindowShrinks(queue[..], tail, count, n);
      SlotAdd(tail + n, count - n);
      CopyOut(out, n);
      count := count - n;
      gone := gone + Leaving(old(View()).held[..n]);
    }

    /** The copying loop of the poll. */
    method CopyOut(out: array<ResourceEvent>, n: nat)
      requires queue.Length == QUEUE_SIZE && tail < QUEUE_SIZE && n <= count <= QUEUE_SIZE && n <= out.Length &&
               out != queue
      modifies this`tail, out
      ensures tail == Slot(old(tail) + n)
      ensures out[..n] == Window(queue[..], old(tail), count)[..n] && out[n..] == old(out[n..])
    {
      hide Slot;
      SlotIdentity(tail);
      ghost var window := Window(queue[..], tail, count);
      var i: nat := 0;
      while i < n
        invariant 0 <= i <= n && tail == Slot(old(tail) + i)
        invariant out[..i] == window[..i] && out[n..] == old(out[n..])
        invariant window == Window(queue[..], old(tail), count)
      {
        SlotAdd(old(tail) + i, 1);
        out[i] := queue[tail];
        tail := Slot(tail + 1);
        i := i + 1;
      }
    }

    method DropCount() returns (n: u32)
      requires Valid()
      ensures n == Low32(Drops(View().gone))
    {
      n := dropCount;
    }
  }
}
