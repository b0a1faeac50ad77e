/** The event bus of event.c: one queue, a subscriber row per event type, a
    row of global observers and an initialised flag, behind the EVENT_* API.
    Calling a handler is modelled as one Invocation in the ghost list of
    calls that Dispatch and Process return; handler bodies are outside the
    model. */
module EventBus {
  import opened EventTypes
  import opened EventQueue
  import opened Registry

  /** The record EVENT_Publish builds: zeroed, then type, priority and
      timestamp filled in, and the caller's bytes copied in when a buffer is
      given with a non-zero size. */
  function MakeEvent(t: u16, priority: u8, now: u32, data: Option<seq<u8>>, size: u8): (e: Event)
    requires data.Some? ==> size as int <= DataSizeMax && size as int <= |data.value|
    ensures e.etype == t && e.priority == priority && e.timestamp == now
    ensures data.Some? ==> e.dataSize == size && e.data[..size] == data.value[..size]
    ensures data.None? ==> e.dataSize == 0
    ensures forall i :: e.dataSize as int <= i < DataSizeMax ==> e.data[i] == 0
  {
    var n := if data.Some? && size > 0 then size as int else 0;
    Event(t, priority, now, n as u8,
          seq(DataSizeMax, i requires 0 <= i < DataSizeMax => if i < n then data.value[i] else 0))
  }

  /** Every record of the sequence has a type below EventMaxCount. */
  ghost predicate AllTyped(events: seq<Event>) {
    events == [] || ((events[0].etype as int) < EventMaxCount && AllTyped(events[1..]))
  }

  /** Appending a record with a valid type keeps every type valid. */
  lemma {:induction false} AllTypedAppend(events: seq<Event>, e: Event)
    requires AllTyped(events) && (e.etype as int) < EventMaxCount
    ensures AllTyped(events + [e])
  {
    if events != [] {
      assert (events + [e])[1..] == events[1..] + [e];
      AllTypedAppend(events[1..], e);
    }
  }

  /** dispatch_event: the type's subscribers in slot order, then every
      observer in slot order. */
  function DispatchCalls(subscribers: seq<Slot>, observers: seq<Slot>, e: Event): seq<Invocation> {
    Calls(subscribers, e) + Calls(observers, e)
  }

  /** The subscriber row of type t in a table (no row for a type out of range). */
  function RowOf(table: seq<seq<Slot>>, t: u16): seq<Slot> {
    if (t as int) < |table| then table[t] else []
  }

  /** All calls made by draining `events` in order, each dispatched in full
      before the next. */
  function Drain(events: seq<Event>, table: seq<seq<Slot>>, observers: seq<Slot>): seq<Invocation> {
    if events == [] then []
    else DispatchCalls(RowOf(table, events[0].etype), observers, events[0]) + Drain(events[1..], table, observers)
  }

  /** Draining two batches one after the other makes the calls of the first
      batch followed by those of the second. */
  lemma {:induction false} DrainAppend(a: seq<Event>, b: seq<Event>, table: seq<seq<Slot>>, observers: seq<Slot>)
    ensures Drain(a + b, table, observers) == Drain(a, table, observers) + Drain(b, table, observers)
  {
    if a == [] {
      assert a + b == b;
    } else {
      var first := DispatchCalls(RowOf(table, a[0].etype), observers, a[0]);
      assert (a + b)[0] == a[0] && (a + b)[1..] == a[1..] + b;
      calc {
        Drain(a + b, table, observers);
        first + Drain(a[1..] + b, table, observers);
        { DrainAppend(a[1..], b, table, observers); }
        first + (Drain(a[1..], table, observers) + Drain(b, table, observers));
        (first + Drain(a[1..], table, observers)) + Drain(b, table, observers);
        Drain(a, table, observers) + Drain(b, table, observers);
      }
    }
  }

  /** The drain loop's step: dispatching one more record appends its calls. */
  lemma DrainStep(done: seq<Event>, e: Event, table: seq<seq<Slot>>, observers: seq<Slot>)
    ensures Drain(done + [e], table, observers) ==
            Drain(done, table, observers) + DispatchCalls(RowOf(table, e.etype), observers, e)
  {
    DrainAppend(done, [e], table, observers);
    assert [e][1..] == [];
  }

  /** Moving the front pending record to the drained part keeps the whole. */
  lemma ShiftFront(pending: seq<Event>, done: seq<Event>, rest: seq<Event>)
    requires pending == done + rest && rest != []
    ensures pending == (done + [rest[0]]) + rest[1..]
  {
    assert rest == [rest[0]] + rest[1..];
  }

  /** Fan-out of one event: k used subscribers of its type and m used
      observers give exactly k + m calls, subscribers first. */
  lemma {:induction false} FanOut(subscribers: seq<Slot>, observers: seq<Slot>, e: Event)
    ensures |DispatchCalls(subscribers, observers, e)| == UsedCount(subscribers) + UsedCount(observers)
    ensures DispatchCalls(subscribers, observers, e)[..UsedCount(subscribers)] == Calls(subscribers, e)
    ensures forall c <- DispatchCalls(subscribers, observers, e) :: c.event == e
  {
    CallsFanOut(subscribers, e);
    CallsFanOut(observers, e);
  }

  /** With only observer slot k used, dispatching an event makes exactly
      the one call to that observer. */
  lemma DispatchOnly(table: seq<seq<Slot>>, observers: seq<Slot>, k: nat, e: Event)
    requires k < |observers| && observers[k].used
    requires forall j :: 0 <= j < |observers| && j != k ==> !observers[j].used
    requires forall t, j :: 0 <= t < |table| && 0 <= j < |table[t]| ==> !table[t][j].used
    ensures DispatchCalls(RowOf(table, e.etype), observers, e) ==
            [Invocation(observers[k].callback, observers[k].arg, e)]
  {
    CallsNone(RowOf(table, e.etype), e);
    CallsNone(observers[..k], e);
    CallsNone(observers[k + 1..], e);
    ReleaseCalls(observers, k, e);
  }

  /** FIFO delivery: an observer that is the only used slot anywhere receives
      exactly the drained events, in the order they were queued. */
  lemma {:induction false} DrainFifo(events: seq<Event>, table: seq<seq<Slot>>, observers: seq<Slot>, k: nat)
    requires k < |observers| && observers[k].used
    requires forall j :: 0 <= j < |observers| && j != k ==> !observers[j].used
    requires forall t, j :: 0 <= t < |table| && 0 <= j < |table[t]| ==> !table[t][j].used
    ensures |Drain(events, table, observers)| == |events|
    ensures forall i :: 0 <= i < |events| ==>
              Drain(events, table, observers)[i] == Invocation(observers[k].callback, observers[k].arg, events[i])
  {
    if events != [] {
      DispatchOnly(table, observers, k, events[0]);
      DrainFifo(events[1..], table, observers, k);
      assert Drain(events, table, observers) ==
             [Invocation(observers[k].callback, observers[k].arg, events[0])] + Drain(events[1..], table, observers);
    }
  }

  /** After a reset no handler is left, so draining calls nothing. */
  lemma {:induction false} DrainAfterReset(events: seq<Event>, table: seq<seq<Slot>>, observers: seq<Slot>)
    requires forall t, j :: 0 <= t < |table| && 0 <= j < |table[t]| ==> !table[t][j].used
    requires forall j :: 0 <= j < |observers| ==> !observers[j].used
    ensures Drain(events, table, observers) == []
  {
    if events != [] {
      CallsNone(RowOf(table, events[0].etype), events[0]);
      CallsNone(observers, events[0]);
      DrainAfterReset(events[1..], table, observers);
    }
  }

  /** The process-wide context of event.c: g_queue, g_subscribers,
      g_observers and g_initialized. */
  class Bus {
    const queue: Queue
    const subscribers: array2<Slot>
    const observers: array<Slot>
    var initialized: bool
    /** The subscriber table as a value: Table[t][j] is g_subscribers[t][j]. */
    ghost var Table: seq<seq<Slot>>

    /** Table sizes match event.h, the queue keeps its ring invariant, the
        ghost table mirrors the array, and every queued record has a valid
        type. */
    ghost predicate Valid()
      reads this`Table, queue, queue.slots, subscribers
    {
      queue.Valid() && TableMirrored() && observers.Length == ObserverMax && QueueTyped()
    }

    /** The ghost table has the shape of g_subscribers and holds its slots. */
    ghost predicate TableMirrored()
      reads this`Table, subscribers
    {
      subscribers.Length0 == EventMaxCount && subscribers.Length1 == SubscriberMax &&
      |Table| == EventMaxCount &&
      (forall t :: 0 <= t < EventMaxCount ==> |Table[t]| == SubscriberMax) &&
      (forall t, j :: 0 <= t < EventMaxCount && 0 <= j < SubscriberMax ==> subscribers[t, j] == Table[t][j])
    }

    /** Every queued record has a valid type: only EVENT_Publish enqueues,
        and it checks the type first. */
    ghost predicate QueueTyped()
      reads queue
    {
      AllTyped(queue.Contents)
    }

    /** Every slot of both tables is free. */
    ghost predicate NoHandlers()
      reads this, observers
    {
      (forall t, j :: 0 <= t < |Table| && 0 <= j < |Table[t]| ==> !Table[t][j].used) &&
      (forall j :: 0 <= j < observers.Length ==> !observers[j].used)
    }

    /** The zero-initialised static state before EVENT_Init. */
    constructor ()
      ensures Valid() && !initialized
      ensures fresh(queue) && fresh(queue.slots) && fresh(subscribers) && fresh(observers)
      ensures queue.Contents == []
      ensures forall t, j :: 0 <= t < EventMaxCount && 0 <= j < SubscriberMax ==> Table[t][j] == EmptySlot
      ensures forall j :: 0 <= j < ObserverMax ==> observers[j] == EmptySlot
    {
      queue := new Queue();
      subscribers := new Slot[EventMaxCount, SubscriberMax]((_, _) => EmptySlot);
      observers := new Slot[ObserverMax](_ => EmptySlot);
      initialized := false;
      Table := seq(EventMaxCount, _ => seq(SubscriberMax, _ => EmptySlot));
    }

    /** EVENT_Init: a hard reset. The resulting state does not depend on the
        state before, so a second call gives the same state. */
    method Init() returns (r: int)
      requires Valid()
      modifies this`initialized, this`Table, queue, queue.slots, subscribers, observers
      ensures Valid() && initialized && r == 0
      ensures queue.Contents == [] && queue.head == 0 && queue.tail == 0
      ensures forall i :: 0 <= i < QueueSize ==> queue.slots[i] == ZeroEvent
      ensures forall t, j :: 0 <= t < EventMaxCount && 0 <= j < SubscriberMax ==> Table[t][j] == EmptySlot
      ensures forall j :: 0 <= j < ObserverMax ==> observers[j] == EmptySlot
      ensures NoHandlers()
    {
      var _ := queue.Init();
      forall t, j | 0 <= t < EventMaxCount && 0 <= j < SubscriberMax {
        subscribers[t, j] := EmptySlot;
      }
      forall j | 0 <= j < ObserverMax {
        observers[j] := EmptySlot;
      }
      Table := seq(EventMaxCount, _ => seq(SubscriberMax, _ => EmptySlot));
      initialized := true;
      r := 0;
    }

    /** EVENT_Subscribe: fails on an uninitialised bus, a type out of range, a
        NULL callback or a full row; otherwise fills the lowest free slot of
        the type's row and changes nothing else. */
    method Subscribe(t: u16, cb: Callback, arg: Arg) returns (r: int)
      requires Valid()
      modifies this`Table, subscribers
      ensures Valid()
      ensures r == 0 || r == -1
      ensures r == 0 <==> initialized && (t as int) < EventMaxCount && cb != NullCallback &&
                          FirstFree(old(Table)[t]).Some?
      ensures r == 0 ==> Table == old(Table)[t := old(Table)[t][FirstFree(old(Table)[t]).value := Slot(cb, arg, true)]]
      ensures r != 0 ==> Table == old(Table)
    {
      if !initialized || t as int >= EventMaxCount || cb == NullCallback {
        return -1;
      }
      for i := 0 to SubscriberMax
        invariant forall j :: 0 <= j < i ==> Table[t][j].used
      {
        if !subscribers[t, i].used {
          subscribers[t, i] := Slot(cb, arg, true);
          Table := Table[t := Table[t][i := Slot(cb, arg, true)]];
          return 0;
        }
      }
      return -1;
    }

    /** EVENT_Unsubscribe: fails on an uninitialised bus, a type out of range,
        a NULL callback, or when no used slot of the row holds both the
        callback and the argument; otherwise frees the first such slot. */
    method Unsubscribe(t: u16, cb: Callback, arg: Arg) returns (r: int)
      requires Valid()
      modifies this`Table, subscribers
      ensures Valid()
      ensures r == 0 || r == -1
      ensures r == 0 <==> initialized && (t as int) < EventMaxCount && cb != NullCallback &&
                          FirstMatch(old(Table)[t], ByHandlerAndArg(cb, arg)).Some?
      ensures r == 0 ==> var k := FirstMatch(old(Table)[t], ByHandlerAndArg(cb, arg)).value;
                         Table == old(Table)[t := old(Table)[t][k := old(Table)[t][k].(used := false)]]
      ensures r != 0 ==> Table == old(Table)
    {
      if !initialized || t as int >= EventMaxCount || cb == NullCallback {
        return -1;
      }
      for i := 0 to SubscriberMax
        invariant forall j :: 0 <= j < i ==> !Matches(Table[t][j], ByHandlerAndArg(cb, arg))
      {
        if subscribers[t, i].used && subscribers[t, i].callback == cb && subscribers[t, i].arg == arg {
          subscribers[t, i] := subscribers[t, i].(used := false);
          Table := Table[t := Table[t][i := Table[t][i].(used := false)]];
          return 0;
        }
      }
      return -1;
    }

    /** EVENT_RegisterObserver: fails on an uninitialised bus, a NULL callback
        or a full table; otherwise fills the lowest free observer slot. */
    method RegisterObserver(cb: Callback, arg: Arg) returns (r: int)
      requires Valid()
      modifies observers
      ensures Valid()
      ensures r == 0 || r == -1
      ensures r == 0 <==> initialized && cb != NullCallback && FirstFree(old(observers[..])).Some?
      ensures r == 0 ==> observers[..] == old(observers[..])[FirstFree(old(observers[..])).value := Slot(cb, arg, true)]
      ensures r != 0 ==> observers[..] == old(observers[..])
    {
      if !initialized || cb == NullCallback {
        return -1;
      }
      for i := 0 to ObserverMax
        invariant forall j :: 0 <= j < i ==> observers[j].used
      {
        if !observers[i].used {
          observers[i] := Slot(cb, arg, true);
          return 0;
        }
      }
      return -1;
    }

    /** EVENT_UnregisterObserver: matches on the callback alone and frees the
        first used slot holding it; fails when there is none. */
    method UnregisterObserver(cb: Callback) returns (r: int)
      requires Valid()
      modifies observers
      ensures Valid()
      ensures r == 0 || r == -1
      ensures r == 0 <==> initialized && cb != NullCallback && FirstMatch(old(observers[..]), ByHandler(cb)).Some?
      ensures r == 0 ==> var k := FirstMatch(old(observers[..]), ByHandler(cb)).value;
                         observers[..] == old(observers[..])[k := old(observers[k]).(used := false)]
      ensures r != 0 ==> observers[..] == old(observers[..])
    {
      if !initialized || cb == NullCallback {
        return -1;
      }
      for i := 0 to ObserverMax
        invariant forall j :: 0 <= j < i ==> !Matches(observers[j], ByHandler(cb))
      {
        if observers[i].used && observers[i].callback == cb {
          observers[i] := observers[i].(used := false);
          return 0;
        }
      }
      return -1;
    }

    /** EVENT_Publish: fails with nothing queued on an uninitialised bus, a
        type out of range, a buffer with a size above DataSizeMax, or a full
        queue; otherwise queues exactly the record MakeEvent builds, into the
        tail slot only. `now` stands for the clock reading. The caller's
        buffer must hold the `size` bytes that are copied. */
    method Publish(t: u16, priority: u8, data: Option<seq<u8>>, size: u8, now: u32) returns (r: int)
      requires Valid()
      requires data.Some? && size as int <= DataSizeMax ==> size as int <= |data.value|
      modifies queue, queue.slots
      ensures Valid()
      ensures r == 0 || r == -1
      ensures r == 0 <==> initialized && (t as int) < EventMaxCount && !(data.Some? && size as int > DataSizeMax) &&
                          |old(queue.Contents)| < QueueSize
      ensures r == 0 ==> queue.Contents == old(queue.Contents) + [MakeEvent(t, priority, now, data, size)]
      ensures r == 0 ==> queue.slots[..] == old(queue.slots[..])[old(queue.tail) := MakeEvent(t, priority, now, data, size)]
      ensures r != 0 ==> unchanged(queue, queue.slots)
    {
      if !initialized || t as int >= EventMaxCount {
        return -1;
      }
      if data.Some? && size as int > DataSizeMax {
        return -1;
      }
      var event := MakeEvent(t, priority, now, data, size);
      AllTypedAppend(queue.Contents, event);
      r := queue.Push(event);
      if r != 0 {
        return -1;
      }
      return 0;
    }

    /** dispatch_event: call the used subscribers of the record's type in
        slot order, then the used observers in slot order; `calls` lists the
        calls made. */
    method Dispatch(e: Event) returns (ghost calls: seq<Invocation>)
      requires Valid() && (e.etype as int) < EventMaxCount
      ensures calls == DispatchCalls(RowOf(Table, e.etype), observers[..], e)
    {
      ghost var row := Table[e.etype];
      calls := [];
      for i := 0 to SubscriberMax
        invariant calls == Calls(row[..i], e)
      {
        CallsStep(row, i, e);
        if subscribers[e.etype, i].used {
          calls := calls + [Invocation(subscribers[e.etype, i].callback, subscribers[e.etype, i].arg, e)];
        }
      }
      assert row[..SubscriberMax] == row == RowOf(Table, e.etype);
      ghost var fromSubscribers := calls;
      ghost var obs := observers[..];
      for i := 0 to ObserverMax
        invariant calls == fromSubscribers + Calls(obs[..i], e)
      {
        CallsStep(obs, i, e);
        if observers[i].used {
          calls := calls + [Invocation(observers[i].callback, observers[i].arg, e)];
        }
      }
      assert obs[..ObserverMax] == obs;
    }

    /** The body of EVENT_Process's loop: pop the oldest record and, when
        there is one, dispatch it. */
    method PopAndDispatch() returns (e: Option<Event>, ghost calls: seq<Invocation>)
      requires Valid()
      modifies queue
      ensures Valid()
      ensures e.None? <==> old(queue.Contents) == []
      ensures e.None? ==> calls == [] && unchanged(queue)
      ensures e.Some? ==> e.value == old(queue.Contents)[0] && queue.Contents == old(queue.Contents)[1..]
      ensures e.Some? ==> calls == DispatchCalls(RowOf(Table, e.value.etype), observers[..], e.value)
      ensures queue.tail == old(queue.tail)
    {
      ghost var rest := queue.Contents;
      e := queue.Pop();
      if e.None? {
        return e, [];
      }
      assert AllTyped(rest[1..]);
      calls := Dispatch(e.value);
    }

    /** EVENT_Process: 0 and no change on an uninitialised bus; otherwise pops
        and dispatches every queued record, oldest first, and returns how
        many it popped. The queue is empty afterwards; `calls` lists every
        handler call made, in order. */
    method Process() returns (n: int, ghost calls: seq<Invocation>)
      requires Valid()
      modifies queue
      ensures Valid()
      ensures !initialized ==> n == 0 && calls == [] && unchanged(queue)
      ensures initialized ==> n == |old(queue.Contents)| && queue.Contents == []
      ensures initialized ==> calls == Drain(old(queue.Contents), Table, observers[..])
      ensures initialized ==> queue.head == old(queue.tail) && queue.tail == old(queue.tail)
    {
      calls := [];
      if !initialized {
        return 0, calls;
      }
      ghost var pending, obs := queue.Contents, observers[..];
      ghost var done: seq<Event> := [];
      n := 0;
      while !queue.IsEmpty()
        invariant Valid()
        invariant pending == done + queue.Contents && n == |done|
        invariant calls == Drain(done, Table, obs)
        invariant queue.tail == old(queue.tail)
        decreases queue.count
      {
        ghost var rest := queue.Contents;
        var e, more := PopAndDispatch();
        if e.None? {
          break;
        }
        ShiftFront(pending, done, rest);
        DrainStep(done, e.value, Table, obs);
        calls := calls + more;
        done := done + [e.value];
        n := n + 1;
      }
      assert done == pending;
    }

    /** EVENT_ClearQueue: drop every queued record without dispatching it;
        the tables and the flag are untouched. */
    method ClearQueue() returns (r: int)
      requires Valid()
      modifies queue, queue.slots
      ensures Valid() && r == 0
      ensures queue.Contents == [] && queue.head == 0 && queue.tail == 0
      ensures forall i :: 0 <= i < QueueSize ==> queue.slots[i] == ZeroEvent
    {
      r := queue.Init();
    }

    /** EVENT_GetCount: the number of queued records. */
    function GetCount(): (n: u16)
      reads this, queue, queue.slots, subscribers
      requires Valid()
      ensures n as int == |queue.Contents| <= QueueSize
    {
      queue.GetCount()
    }
  }
}
