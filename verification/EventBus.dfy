/** The event bus: a bounded FIFO that drops the newest event when it is full. */
module EventBus {
  import opened Words

  const MAX_EVENTS: nat := 64

  const INPUT_CHANGE: u8 := 0
  const STATE_CHANGE: u8 := 1

  datatype Event = Event(kind: u8, source: u16, data: i32)

  /** The queue as a FIFO, with the logs of everything ever accepted and delivered. */
  datatype Bus = Bus(pending: seq<Event>, accepted: seq<Event>, delivered: seq<Event>)
  {
    /** Events are delivered in the order they were accepted, none lost and none twice. */
    ghost predicate Valid() {
      |pending| < MAX_EVENTS && accepted == delivered + pending
    }

    /** A full ring keeps one slot free, so it holds 63 events; a further one is dropped. */
    function Publish(e: Event): Bus {
      if |pending| == MAX_EVENTS - 1 then this
      else Bus(pending + [e], accepted + [e], delivered)
    }

    function Take(): Bus
      requires pending != []
    {
      Bus(pending[1..], accepted, delivered + [pending[0]])
    }
  }

  const EMPTY_BUS: Bus := Bus([], [], [])

  /**
   * Publishing accepts the new event, behind all others, unless the queue holds all it can; then it drops
   * the new event.
   */
  lemma PublishKeepsOrder(b: Bus, e: Event)
    requires b.Valid()
    ensures b.Publish(e).Valid() && b.Publish(e).delivered == b.delivered
    ensures b.Publish(e).accepted == if |b.pending| < MAX_EVENTS - 1 then b.accepted + [e] else b.accepted
  {
  }

  lemma TakeKeepsOrder(b: Bus)
    requires b.Valid() && b.pending != []
    ensures b.Take().Valid() && b.Take().delivered <= b.accepted
  {
    assert b.delivered + b.pending == b.delivered + [b.pending[0]] + b.pending[1..];
  }

  class EventQueue {
    const queue: array<Event>
    var head: u8
    var tail: u8
    ghost var accepted: seq<Event>
    ghost var delivered: seq<Event>

    ghost predicate Valid()
      reads this, queue
    {
      queue.Length == MAX_EVENTS && head < MAX_EVENTS && tail < MAX_EVENTS && View().Valid()
    }

    ghost function Pending(): seq<Event>
      reads this, queue
    {
      if queue.Length != MAX_EVENTS || head >= MAX_EVENTS || tail >= MAX_EVENTS then []
      else if tail <= head then queue[tail..head]
      else queue[tail..] + queue[..head]
    }

    ghost function View(): Bus
      reads this, queue
    {
      Bus(Pending(), accepted, delivered)
    }

    constructor ()
      ensures Valid() && fresh(queue)
      ensures View() == EMPTY_BUS
    {
      queue := new Event[MAX_EVENTS](_ => Event(0, 0, 0));
      head, tail := 0, 0;
      accepted, delivered := [], [];
    }

    method Publish(e: Event)
      requires Valid()
      modifies this, queue
      ensures Valid() && View() == old(View()).Publish(e)
    {
      var next: u8 := (head + 1) % MAX_EVENTS;
      if next == tail {
        return;
      }
      queue[head] := e;
      head := next;
      accepted := accepted + [e];
      assert Pending() == old(Pending()) + [e];
    }

    /** The locked half of one dispatch step: take the oldest event, if there is one. */
    method Take() returns (found: bool, e: Event)
      requires Valid()
      modifies this
      ensures Valid() && found == (old(View()).pending != [])
      ensures found ==> e == old(View()).pending[0] && View() == old(View()).Take()
      ensures !found ==> View() == old(View())
    {
      found := tail != head;
      e := queue[tail];
      if found {
        tail := (tail + 1) % MAX_EVENTS;
        delivered := delivered + [e];
        assert old(Pending()) == [e] + Pending();
      }
    }
  }
}
