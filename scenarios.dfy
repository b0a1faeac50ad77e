/** Concrete runs of the bus: the demo program of event_example.c and a
    single subscriber plus observer fan-out. Handlers and their arguments
    are the ids below. */
module Scenarios {
  import opened EventTypes
  import opened Registry
  import opened EventBus

  // Event types of the demo (MyEventType).
  const ButtonPress: u16 := 1
  const SensorData: u16 := 2
  const SystemAlert: u16 := 3
  const UserLogin: u16 := 4

  // Priorities of the demo.
  const PriorityNormal: u8 := 1
  const PriorityHigh: u8 := 2

  // The demo's callbacks.
  const OnButtonPress: Callback := 1
  const OnSensorData: Callback := 2
  const OnSystemAlert: Callback := 3
  const GlobalObserver: Callback := 4

  // The demo's callback arguments: two button names and &alert_level.
  const StartButton: Arg := 1
  const StopButton: Arg := 2
  const AlertLevel: Arg := 3

  /** The sensor reading 0x0168. */
  const SensorBytes: seq<u8> := [0x01, 0x68]
  /** "admin" with its terminating NUL. */
  const LoginBytes: seq<u8> := [0x61, 0x64, 0x6d, 0x69, 0x6e, 0x00]
  /** The UTF-8 bytes of the alert text and its NUL, of which 10 are sent. */
  const AlertBytes: seq<u8> := [0xe7, 0x94, 0xb5, 0xe6, 0xba, 0x90, 0xe6, 0x95, 0x85, 0xe9, 0x9a, 0x9c, 0x00]

  /** A row whose used slots all lie below k makes the calls of its first k slots. */
  lemma CallsFront(row: seq<Slot>, k: nat, e: Event)
    requires k <= |row|
    requires forall j :: k <= j < |row| ==> !row[j].used
    ensures Calls(row, e) == Calls(row[..k], e)
  {
    assert row == row[..k] + row[k..];
    CallsAppend(row[..k], row[k..], e);
    CallsNone(row[k..], e);
  }

  /** A one-slot row calls its slot when used. */
  lemma CallsOne(s: Slot, e: Event)
    requires s.used
    ensures Calls([s], e) == [Invocation(s.callback, s.arg, e)]
  {
    assert [s][1..] == [];
  }

  /** A two-slot row calls its slots in order when both are used. */
  lemma CallsTwo(s: Slot, t: Slot, e: Event)
    requires s.used && t.used
    ensures Calls([s, t], e) == [Invocation(s.callback, s.arg, e), Invocation(t.callback, t.arg, e)]
  {
    assert [s, t][1..] == [t];
    CallsOne(t, e);
  }

  /** A free subscriber row and a free observer row. */
  const EmptyRow: seq<Slot> := seq(SubscriberMax, _ => EmptySlot)
  const NoObservers: seq<Slot> := seq(ObserverMax, _ => EmptySlot)

  // The rows the demo's registrations leave behind.
  const PressRow := EmptyRow[0 := Slot(OnButtonPress, StartButton, true)][1 := Slot(OnButtonPress, StopButton, true)]
  const SensorRow := EmptyRow[0 := Slot(OnSensorData, NullArg, true)]
  const AlertRow := EmptyRow[0 := Slot(OnSystemAlert, AlertLevel, true)]
  const DemoObservers := NoObservers[0 := Slot(GlobalObserver, NullArg, true)]

  /** The first half of the demo: EVENT_Init, the four subscriptions and
      the global observer, each of which succeeds and takes the lowest free
      slot. */
  method ExampleSetup() returns (bus: Bus)
    ensures fresh(bus) && fresh(bus.queue) && fresh(bus.queue.slots) && fresh(bus.subscribers) && fresh(bus.observers)
    ensures bus.Valid() && bus.initialized && bus.queue.Contents == []
    ensures bus.Table[ButtonPress] == PressRow && bus.Table[SensorData] == SensorRow
    ensures bus.Table[SystemAlert] == AlertRow && bus.Table[UserLogin] == EmptyRow
    ensures bus.observers[..] == DemoObservers
  {
    bus := new Bus();
    var r := bus.Init();
    assert bus.observers[..] == NoObservers;
    ExampleSubscribe(bus);
    r := bus.RegisterObserver(GlobalObserver, NullArg);
    assert !NoObservers[0].used;
  }

  /** The four EVENT_Subscribe calls of the demo on a freshly reset bus. */
  method ExampleSubscribe(bus: Bus)
    requires bus.Valid() && bus.initialized
    requires forall t, j :: 0 <= t < EventMaxCount && 0 <= j < SubscriberMax ==> bus.Table[t][j] == EmptySlot
    modifies bus`Table, bus.subscribers
    ensures bus.Valid()
    ensures bus.Table[ButtonPress] == PressRow && bus.Table[SensorData] == SensorRow
    ensures bus.Table[SystemAlert] == AlertRow && bus.Table[UserLogin] == EmptyRow
  {
    assert bus.Table[ButtonPress] == EmptyRow && bus.Table[SensorData] == EmptyRow;
    assert bus.Table[SystemAlert] == EmptyRow && bus.Table[UserLogin] == EmptyRow;
    assert !EmptyRow[0].used;
    var r := bus.Subscribe(ButtonPress, OnButtonPress, StartButton);
    r := bus.Subscribe(ButtonPress, OnButtonPress, StopButton);
    assert bus.Table[ButtonPress] == PressRow by {
      var row := EmptyRow[0 := Slot(OnButtonPress, StartButton, true)];
      assert row[0].used && !row[1].used;
    }
    r := bus.Subscribe(SensorData, OnSensorData, NullArg);
    r := bus.Subscribe(SystemAlert, OnSystemAlert, AlertLevel);
  }

  /** Draining four records makes the dispatch calls of each in turn. */
  lemma DrainFour(a: Event, b: Event, c: Event, d: Event, table: seq<seq<Slot>>, observers: seq<Slot>)
    ensures Drain([a, b, c, d], table, observers) ==
            DispatchCalls(RowOf(table, a.etype), observers, a) + (DispatchCalls(RowOf(table, b.etype), observers, b) +
            (DispatchCalls(RowOf(table, c.etype), observers, c) + DispatchCalls(RowOf(table, d.etype), observers, d)))
  {
    assert [a, b, c, d][1..] == [b, c, d] && [b, c, d][1..] == [c, d] && [c, d][1..] == [d] && [d][1..] == [];
    var last := DispatchCalls(RowOf(table, d.etype), observers, d);
    assert Drain([d], table, observers) == last + [] == last;
    assert Drain([c, d], table, observers) == DispatchCalls(RowOf(table, c.etype), observers, c) + last;
    assert Drain([b, c, d], table, observers) ==
           DispatchCalls(RowOf(table, b.etype), observers, b) + Drain([c, d], table, observers);
    assert Drain([a, b, c, d], table, observers) ==
           DispatchCalls(RowOf(table, a.etype), observers, a) + Drain([b, c, d], table, observers);
  }

  /** Every record reaches the demo's global observer once. */
  lemma ObserverCalls(e: Event)
    ensures Calls(DemoObservers, e) == [Invocation(GlobalObserver, NullArg, e)]
  {
    CallsFront(DemoObservers, 1, e);
    assert DemoObservers[..1] == [Slot(GlobalObserver, NullArg, true)];
    CallsOne(Slot(GlobalObserver, NullArg, true), e);
  }

  /** A button press reaches both buttons, start first, then the observer. */
  lemma PressCalls(e: Event)
    ensures DispatchCalls(PressRow, DemoObservers, e) ==
            [Invocation(OnButtonPress, StartButton, e), Invocation(OnButtonPress, StopButton, e),
             Invocation(GlobalObserver, NullArg, e)]
  {
    var first := Slot(OnButtonPress, StartButton, true);
    var second := Slot(OnButtonPress, StopButton, true);
    CallsFront(PressRow, 2, e);
    assert PressRow[..2] == [first, second];
    CallsTwo(first, second, e);
    ObserverCalls(e);
  }

  /** A record of a type with one subscriber in slot 0 reaches it, then the observer. */
  lemma SingleRowCalls(row: seq<Slot>, s: Slot, e: Event)
    requires row == EmptyRow[0 := s] && s.used
    ensures DispatchCalls(row, DemoObservers, e) ==
            [Invocation(s.callback, s.arg, e), Invocation(GlobalObserver, NullArg, e)]
  {
    CallsFront(row, 1, e);
    assert row[..1] == [s];
    CallsOne(s, e);
    ObserverCalls(e);
  }

  /** The calls of the demo's drain, worked out record by record. */
  lemma ExampleCalls(table: seq<seq<Slot>>, press: Event, sensor: Event, login: Event, alert: Event)
    requires press.etype == ButtonPress && sensor.etype == SensorData
    requires login.etype == UserLogin && alert.etype == SystemAlert
    requires |table| == EventMaxCount
    requires table[ButtonPress] == PressRow && table[SensorData] == SensorRow
    requires table[SystemAlert] == AlertRow && table[UserLogin] == EmptyRow
    ensures Drain([press, sensor, login, alert], table, DemoObservers) ==
            [Invocation(OnButtonPress, StartButton, press),
             Invocation(OnButtonPress, StopButton, press),
             Invocation(GlobalObserver, NullArg, press),
             Invocation(OnSensorData, NullArg, sensor),
             Invocation(GlobalObserver, NullArg, sensor),
             Invocation(GlobalObserver, NullArg, login),
             Invocation(OnSystemAlert, AlertLevel, alert),
             Invocation(GlobalObserver, NullArg, alert)]
  {
    DrainFour(press, sensor, login, alert, table, DemoObservers);
    assert RowOf(table, press.etype) == PressRow && RowOf(table, sensor.etype) == SensorRow;
    assert RowOf(table, login.etype) == EmptyRow && RowOf(table, alert.etype) == AlertRow;
    DemoDispatches(press, sensor, login, alert);
  }

  /** The dispatch calls of the demo's four records, concatenated. */
  lemma DemoDispatches(press: Event, sensor: Event, login: Event, alert: Event)
    ensures DispatchCalls(PressRow, DemoObservers, press) + (DispatchCalls(SensorRow, DemoObservers, sensor) +
            (DispatchCalls(EmptyRow, DemoObservers, login) + DispatchCalls(AlertRow, DemoObservers, alert))) ==
            [Invocation(OnButtonPress, StartButton, press),
             Invocation(OnButtonPress, StopButton, press),
             Invocation(GlobalObserver, NullArg, press),
             Invocation(OnSensorData, NullArg, sensor),
             Invocation(GlobalObserver, NullArg, sensor),
             Invocation(GlobalObserver, NullArg, login),
             Invocation(OnSystemAlert, AlertLevel, alert),
             Invocation(GlobalObserver, NullArg, alert)]
  {
    PressCalls(press);
    SingleRowCalls(SensorRow, Slot(OnSensorData, NullArg, true), sensor);
    SingleRowCalls(AlertRow, Slot(OnSystemAlert, AlertLevel, true), alert);
    CallsNone(EmptyRow, login);
    ObserverCalls(login);
  }

  /** The four publishes of the demo, all accepted, queued in order. */
  method ExamplePublish(bus: Bus, t1: u32, t2: u32, t3: u32, t4: u32)
    requires bus.Valid() && bus.initialized && bus.queue.Contents == []
    modifies bus.queue, bus.queue.slots
    ensures bus.Valid()
    ensures bus.queue.Contents ==
            [MakeEvent(ButtonPress, PriorityHigh, t1, None, 0),
             MakeEvent(SensorData, PriorityNormal, t2, Some(SensorBytes), 2),
             MakeEvent(UserLogin, PriorityNormal, t3, Some(LoginBytes), 6),
             MakeEvent(SystemAlert, PriorityHigh, t4, Some(AlertBytes), 10)]
  {
    var r := bus.Publish(ButtonPress, PriorityHigh, None, 0, t1);
    r := bus.Publish(SensorData, PriorityNormal, Some(SensorBytes), 2, t2);
    r := bus.Publish(UserLogin, PriorityNormal, Some(LoginBytes), 6, t3);
    r := bus.Publish(SystemAlert, PriorityHigh, Some(AlertBytes), 10, t4);
  }

  /** main of event_example.c: after the setup, four publishes, then one
      EVENT_Process and one EVENT_GetCount. The four clock readings are
      parameters. All four records are processed, the queue ends empty, and
      the handlers run in exactly this order. */
  method ExampleMain(t1: u32, t2: u32, t3: u32, t4: u32)
    returns (processed: int, remaining: u16, ghost calls: seq<Invocation>)
    ensures processed == 4 && remaining == 0
    ensures var press := MakeEvent(ButtonPress, PriorityHigh, t1, None, 0);
            var sensor := MakeEvent(SensorData, PriorityNormal, t2, Some(SensorBytes), 2);
            var login := MakeEvent(UserLogin, PriorityNormal, t3, Some(LoginBytes), 6);
            var alert := MakeEvent(SystemAlert, PriorityHigh, t4, Some(AlertBytes), 10);
            calls == [Invocation(OnButtonPress, StartButton, press),
                      Invocation(OnButtonPress, StopButton, press),
                      Invocation(GlobalObserver, NullArg, press),
                      Invocation(OnSensorData, NullArg, sensor),
                      Invocation(GlobalObserver, NullArg, sensor),
                      Invocation(GlobalObserver, NullArg, login),
                      Invocation(OnSystemAlert, AlertLevel, alert),
                      Invocation(GlobalObserver, NullArg, alert)]
  {
    var bus := ExampleSetup();
    ExamplePublish(bus, t1, t2, t3, t4);
    ghost var queued := bus.queue.Contents;
    processed, calls := bus.Process();
    remaining := bus.GetCount();
    ExampleCalls(bus.Table, queued[0], queued[1], queued[2], queued[3]);
  }

  /** EVENT_Init, then one subscriber of type 2 and one observer, both
      with a NULL argument, each in the first slot of its row. */
  method SingleSetup(subscriber: Callback, observer: Callback) returns (bus: Bus)
    requires subscriber != NullCallback && observer != NullCallback
    ensures fresh(bus) && fresh(bus.queue) && fresh(bus.queue.slots) && fresh(bus.subscribers) && fresh(bus.observers)
    ensures bus.Valid() && bus.initialized && bus.queue.Contents == []
    ensures bus.Table[SensorData] == EmptyRow[0 := Slot(subscriber, NullArg, true)]
    ensures bus.observers[..] == NoObservers[0 := Slot(observer, NullArg, true)]
  {
    bus := new Bus();
    var r := bus.Init();
    assert bus.Table[SensorData] == EmptyRow && bus.observers[..] == NoObservers;
    assert !EmptyRow[0].used && !NoObservers[0].used;
    r := bus.Subscribe(SensorData, subscriber, NullArg);
    r := bus.RegisterObserver(observer, NullArg);
  }

  /** One subscriber of type 2 and one observer: publishing one record of
      type 2 without a payload and processing it calls the subscriber and
      then the observer, once each, and leaves the queue empty. */
  method SingleFanOut(subscriber: Callback, observer: Callback, now: u32)
    returns (processed: int, remaining: u16, ghost calls: seq<Invocation>)
    requires subscriber != NullCallback && observer != NullCallback
    ensures processed == 1 && remaining == 0
    ensures var e := MakeEvent(SensorData, PriorityHigh, now, None, 0);
            calls == [Invocation(subscriber, NullArg, e), Invocation(observer, NullArg, e)]
  {
    var bus := SingleSetup(subscriber, observer);
    ghost var row := bus.Table[SensorData];
    ghost var obs := bus.observers[..];
    var r := bus.Publish(SensorData, PriorityHigh, None, 0, now);
    ghost var queued := bus.queue.Contents;
    processed, calls := bus.Process();
    remaining := bus.GetCount();
    SingleCalls(row, obs, subscriber, observer, queued[0]);
    assert queued == [queued[0]] && queued[1..] == [];
  }

  /** The calls of one record when the first subscriber slot and the first
      observer slot are the only used ones. */
  lemma SingleCalls(row: seq<Slot>, obs: seq<Slot>, subscriber: Callback, observer: Callback, e: Event)
    requires row == EmptyRow[0 := Slot(subscriber, NullArg, true)]
    requires obs == NoObservers[0 := Slot(observer, NullArg, true)]
    ensures DispatchCalls(row, obs, e) == [Invocation(subscriber, NullArg, e), Invocation(observer, NullArg, e)]
  {
    CallsFront(row, 1, e);
    assert row[..1] == [Slot(subscriber, NullArg, true)];
    CallsOne(Slot(subscriber, NullArg, true), e);
    CallsFront(obs, 1, e);
    assert obs[..1] == [Slot(observer, NullArg, true)];
    CallsOne(Slot(observer, NullArg, true), e);
  }
}
