/** The bounded circular event queue of event.c (EventQueue_t and the
    queue_* helpers). The live records are the `count` slots starting at
    `head`, wrapping around at QueueSize. */
module EventQueue {
  import opened EventTypes

  /** A ring position past the end folds back to the front (for positions
      below twice the ring size, which is all a ring ever needs). */
  function Wrap(x: nat): (r: nat)
    requires x < 2 * QueueSize
    ensures r == x % QueueSize
  {
    if x < QueueSize then x else x - QueueSize
  }

  /** EventQueue_t: a fixed array of QueueSize records with head, tail and count. */
  class Queue {
    const slots: array<Event>
    var head: nat
    var tail: nat
    var count: nat
    /** The queued records, oldest first. */
    ghost var Contents: seq<Event>

    /** The ring-buffer invariant: indices in range, count bounded, the
        tail exactly count slots past the head, and record i of Contents
        stored i slots past the head. */
    ghost predicate Valid()
      reads this, slots
    {
      slots.Length == QueueSize &&
      head < QueueSize && tail < QueueSize && count <= QueueSize &&
      tail == Wrap(head + count) &&
      |Contents| == count &&
      forall i :: 0 <= i < count ==> Contents[i] == slots[Wrap(head + i)]
    }

    /** The zero-initialised static storage of g_queue. */
    constructor ()
      ensures Valid() && fresh(slots)
      ensures head == 0 && tail == 0 && count == 0 && Contents == []
      ensures forall i :: 0 <= i < QueueSize ==> slots[i] == ZeroEvent
    {
      slots := new Event[QueueSize](_ => ZeroEvent);
      head, tail, count := 0, 0, 0;
      Contents := [];
    }

    /** queue_init: zero the whole structure, leaving an empty queue. */
    method Init() returns (r: int)
      requires Valid()
      modifies this, slots
      ensures Valid() && r == 0
      ensures head == 0 && tail == 0 && count == 0 && Contents == []
      ensures forall i :: 0 <= i < QueueSize ==> slots[i] == ZeroEvent
    {
      forall i | 0 <= i < slots.Length {
        slots[i] := ZeroEvent;
      }
      head, tail, count := 0, 0, 0;
      Contents := [];
      r := 0;
    }

    /** queue_push: -1 on a full queue with nothing changed; otherwise the
        record is copied into the tail slot, which alone changes, and joins
        the back of the queue. */
    method Push(e: Event) returns (r: int)
      requires Valid()
      modifies this, slots
      ensures Valid()
      ensures r == 0 || r == -1
      ensures r == 0 <==> |old(Contents)| < QueueSize
      ensures r == 0 ==> Contents == old(Contents) + [e]
      ensures r == 0 ==> slots[..] == old(slots[..])[old(tail) := e]
      ensures r == 0 ==> head == old(head) && tail == (old(tail) + 1) % QueueSize && count == old(count) + 1
      ensures r != 0 ==> unchanged(this, slots)
    {
      if count >= QueueSize {
        return -1;
      }
      slots[tail] := e;
      tail := (tail + 1) % QueueSize;
      count := count + 1;
      Contents := Contents + [e];
      r := 0;
    }

    /** queue_pop: None on an empty queue; otherwise the record at the head,
        which is the oldest queued record and leaves the queue. The slots
        are not touched. */
    method Pop() returns (e: Option<Event>)
      requires Valid()
      modifies this
      ensures Valid()
      ensures e.None? <==> old(Contents) == []
      ensures e.Some? ==> e.value == old(Contents)[0] && e.value == old(slots[head])
      ensures e.Some? ==> Contents == old(Contents)[1..]
      ensures e.Some? ==> head == (old(head) + 1) % QueueSize && tail == old(tail) && count == old(count) - 1
      ensures e.None? ==> unchanged(this)
    {
      if count == 0 {
        return None;
      }
      e := Some(slots[head]);
      head := (head + 1) % QueueSize;
      count := count - 1;
      Contents := Contents[1..];
    }

    /** queue_is_empty. */
    function IsEmpty(): (b: bool)
      reads this, slots
      requires Valid()
      ensures b <==> Contents == []
    {
      count == 0
    }

    /** queue_get_count. */
    function GetCount(): (n: u16)
      reads this, slots
      requires Valid()
      ensures n as int == |Contents| <= QueueSize
    {
      count as u16
    }
  }
}
