# Event bus model

A Dafny model of the in-memory event bus of `C/event/event.c`. The bus is a
single process-wide context made of four parts:

- a bounded circular queue of 64 `Event_t` records (`g_queue`);
- a table of 8 subscriber slots for each of the 32 event types (`g_subscribers`);
- a row of 4 global observer slots (`g_observers`);
- an initialised flag (`g_initialized`).

The public API is `EVENT_Init`, `EVENT_Subscribe`, `EVENT_Unsubscribe`,
`EVENT_RegisterObserver`, `EVENT_UnregisterObserver`, `EVENT_Publish`,
`EVENT_Process`, `EVENT_ClearQueue` and `EVENT_GetCount`. Publishing only
enqueues. Processing drains the queue oldest first. For each record it calls
the used subscribers of the record's type in slot order, then the used
observers in slot order.

The files:

- `event_types.dfy` (module `EventTypes`): the capacities and `Event_t` of `C/event/event.h`.
  - Fixed-width integers are newtypes.
  - A payload is always 32 bytes.
  - Callbacks and `void*` arguments are opaque ids compared with equality; 0 stands for NULL.
- `event_queue.dfy` (module `EventQueue`): class `Queue`, the ring buffer.
  - `slots` is an `array<Event>`; `head`, `tail` and `count` are fields the methods update in place.
  - The ghost field `Contents` is the queue as a FIFO sequence. `Valid()` ties it to the slots: record `i` of `Contents` is stored `i` slots past `head`, wrapping at 64.
  - `tail` is always `count` slots past `head`.
- `registry.dfy` (module `Registry`): the slot shape shared by subscribers and observers.
  - The first-fit scan (`FirstFree`) and the first-match scan (`FirstMatch`).
  - Subscribers match on callback and argument; observers match on the callback alone.
  - The calls one scan of a row makes (`Calls`), with lemmas on claiming and releasing slots.
- `event_bus.dfy` (module `EventBus`): class `Bus`, with the queue, an `array2<Slot>` for the subscribers and an `array<Slot>` for the observers.
  - A ghost `Table: seq<seq<Slot>>` mirrors the subscriber array.
  - `EVENT_GetCount` is the function `Bus.GetCount`. Every other `EVENT_*` operation is a method: `EVENT_Process` returns the number of records it processed, the others return the source's status code.
  - The body of the `EVENT_Process` loop, pop and then dispatch, is the method `PopAndDispatch`. `Process` calls it once per turn.
  - `Dispatch` and `Process` return, as a ghost list of `Invocation(callback, arg, event)`, the handler calls they make. `Process`'s list is the value of the specification function `Drain` on the queued records.
- `scenarios.dfy` (module `Scenarios`): concrete runs.
  - The demo `main` of `C/event/event_example.c`: four subscriptions, one observer, four publishes, one process. It processes 4 records, leaves 0 queued and makes exactly 8 handler calls, listed in order.
  - A one-subscriber, one-observer fan-out.

Details of the code that the model keeps, some of which a reader may not expect:

- `EVENT_Unsubscribe` and `EVENT_UnregisterObserver` also fail on an uninitialised bus and on a NULL callback, not only when nothing matches.
- `dispatch_event` reads the tables while it scans rather than from a snapshot. Without re-entrant handlers the two cannot be told apart.
- `EVENT_Publish` takes a pointer and a separate size. A NULL pointer with any size, even one above 32, is accepted and gives `data_size == 0`.
- `EVENT_ClearQueue` does not check the initialised flag.

## Model

| member | source | states |
|---|---|---|
| EventQueue.Wrap | C/event/event.c:55-66 | for a position below 128, the folded ring position is the position modulo 64. Push and pop step with `%` directly; `Wrap` is the form of that modulo used in the ring invariant, where `tail` is `(head + count) % 64` |
| EventQueue.Queue.constructor | C/event/event.c:39 | the static `g_queue` starts empty with every slot all-zero and the ring invariant holding |
| EventQueue.Queue.Init | C/event/event.c:42-46 | `queue_init` returns 0 and leaves head, tail and count 0, every slot zeroed, the contents empty and the ring invariant holding |
| EventQueue.Queue.Push | C/event/event.c:48-58 | returns -1 with nothing changed exactly when 64 records are queued. Otherwise it returns 0, writes the record into the old tail slot and no other slot, advances tail modulo 64, adds one to count, and appends the record at the back of the FIFO contents. The ring invariant is preserved |
| EventQueue.Queue.Pop | C/event/event.c:60-69 | on an empty queue returns nothing and changes nothing. Otherwise it returns the record in the head slot, which is the front of the FIFO contents, removes it from the front, advances head modulo 64, keeps tail and lowers count. The ring invariant is preserved |
| EventQueue.Queue.IsEmpty | C/event/event.c:71-74 | true exactly when no record is queued |
| EventQueue.Queue.GetCount | C/event/event.c:76-79 | the number of queued records, at most 64 |
| Registry.FirstFree | C/event/event.c:114-122 | the slot the subscribe scan claims: the lowest unused slot. It is absent exactly when every slot is used |
| Registry.FirstMatch | C/event/event.c:131-139 | the slot the release scan frees: the lowest used slot whose callback (and, for subscribers, argument) matches. It is absent exactly when no slot matches |
| Registry.CallsAppend | C/event/event.c:176-180 | scanning two parts of a row one after the other makes the first part's calls followed by the second's |
| Registry.CallsFanOut | C/event/event.c:176-180 | a scan makes exactly one call per used slot, each with the event being dispatched |
| Registry.CallsNone | C/event/event.c:176-180 | a row with no used slot makes no call |
| Registry.ClaimCalls | C/event/event.c:114-121 | a handler put into free slot k is called at k's position between the other calls, whose order is unchanged; one more slot is used |
| Registry.ReleaseCalls | C/event/event.c:131-138 | freeing used slot k removes exactly its call and keeps the order of the others; one fewer slot is used |
| Registry.ReleaseThenFind | C/event/event.c:127-142 | after freeing the first match, a second release finds a match exactly when another slot also matched, so a single registration released twice succeeds and then fails |
| Registry.ClaimReleaseRoundTrip | C/event/event.c:110-142 | registering a handler that no used slot holds, then releasing it, frees the very slot just claimed and restores the row's calls and used count |
| EventBus.MakeEvent | C/event/event.c:154-162 | the record publish builds has the given type, priority and timestamp. With a buffer its size is the given one and its first bytes are the caller's; without a buffer its size is 0. Every byte past the size is 0 |
| EventBus.DrainAppend | C/event/event.c:194-199 | draining two batches in turn makes the first batch's calls followed by the second's |
| EventBus.DrainStep | C/event/event.c:194-199 | one more turn of the drain loop appends the popped record's dispatch calls |
| EventBus.FanOut | C/event/event.c:173-187 | with k used subscribers of the type and m used observers, one dispatch makes exactly k + m calls, all subscribers first, each carrying the record |
| EventBus.DispatchOnly | C/event/event.c:173-187 | when one observer slot is the only used slot, a dispatch makes exactly one call, to that observer with its stored argument |
| EventBus.DrainFifo | C/event/event.c:189-204 | when one observer is the only used slot, draining calls it once per record with the records in queue order |
| EventBus.DrainAfterReset | C/event/event.c:100-108 | with every slot free, as `EVENT_Init` leaves them, draining any records calls nothing |
| EventBus.Bus.constructor | C/event/event.c:94-97 | the static context starts uninitialised with an empty queue and every slot free |
| EventBus.Bus.Init | C/event/event.c:100-108 | returns 0 and sets the flag. The queue is empty with zeroed slots and head and tail 0, and every subscriber and observer slot is the all-zero free slot. The state does not depend on the state before, so a second call gives the same state |
| EventBus.Bus.Subscribe | C/event/event.c:110-125 | succeeds exactly when the bus is initialised, the type is below 32, the callback is not NULL and the type's row has a free slot. It then fills the lowest free slot with (callback, arg, used) and leaves every other slot and row unchanged. On failure nothing changes |
| EventBus.Bus.Unsubscribe | C/event/event.c:127-142 | succeeds exactly when the bus is initialised, the type is below 32, the callback is not NULL and some used slot of the row holds both the callback and the argument. It then clears `used` on the first such slot only. On failure nothing changes |
| EventBus.Bus.RegisterObserver | C/event/event.c:218-231 | succeeds exactly when the bus is initialised, the callback is not NULL and an observer slot is free. It then fills the lowest free slot; otherwise nothing changes |
| EventBus.Bus.UnregisterObserver | C/event/event.c:233-244 | succeeds exactly when the bus is initialised, the callback is not NULL and a used observer slot holds that callback, whatever its argument. It then clears `used` on the first such slot; otherwise nothing changes |
| EventBus.Bus.Publish | C/event/event.c:144-171 | succeeds exactly when the bus is initialised, the type is below 32, there is no buffer with a size above 32, and fewer than 64 records are queued. It then appends exactly the MakeEvent record to the queue, writing only the old tail slot. On failure the queue is unchanged |
| EventBus.Bus.Dispatch | C/event/event.c:173-187 | calls the used subscribers of the record's type in slot order, each with its stored argument, then the used observers in slot order |
| EventBus.Bus.PopAndDispatch | C/event/event.c:195-197 | pops the oldest record and dispatches it; on an empty queue it returns nothing, calls nothing and changes nothing |
| EventBus.Bus.Process | C/event/event.c:189-204 | uninitialised: returns 0, calls nothing and changes nothing. Otherwise it returns the number of records that were queued, leaves the queue empty with head on the old tail, and makes exactly the calls of dispatching every queued record in FIFO order |
| EventBus.Bus.ClearQueue | C/event/event.c:206-211 | returns 0 and resets the queue as `queue_init` does: empty, head and tail 0, every slot zeroed; the tables and the flag are outside its frame and so unchanged |
| EventBus.Bus.GetCount | C/event/event.c:213-216 | the number of queued records, at most 64, read without changing anything |
| Scenarios.ExampleSubscribe | C/event/event_example.c:88-93 | on a reset bus the demo's four subscriptions each take the lowest free slot: two button handlers in slots 0 and 1 of type 1, one handler in slot 0 of types 2 and 3, none for type 4 |
| Scenarios.ExampleSetup | C/event/event_example.c:85-96 | after init, the subscriptions and the observer registration, the bus is initialised with an empty queue and the global observer in observer slot 0 |
| Scenarios.ExamplePublish | C/event/event_example.c:101-109 | all four demo publishes are accepted and queued in publish order, with their payload sizes 0, 2, 6 and 10 |
| Scenarios.ExampleCalls | C/event/event_example.c:101-113 | the demo's drain makes 8 calls in this order: start and stop buttons, observer; sensor, observer; observer for the login; alert, observer |
| Scenarios.ExampleMain | C/event/event_example.c:85-116 | the demo processes 4 records, leaves 0 queued, and makes exactly those 8 handler calls |
| Scenarios.SingleFanOut | C/event/event.c:189-204 | one subscriber of type 2 and one observer: one publish then one process returns 1, calls the subscriber then the observer once each, and leaves 0 queued |

## Left out

- The clock. `get_time_ms` reads `clock()`; the reading is the parameter `now` of `Publish`.
- `debug_print` and all other output. It has no behavioural effect.
- Handler bodies. A handler call is recorded as an `Invocation` and the handler's code is not modelled.
- Re-entrant handlers, i.e. handlers that publish, process, subscribe or unsubscribe during a dispatch. The model runs each dispatch against fixed tables. It therefore does not capture two things: the live reading of the tables in `dispatch_event`, and a re-entrant publish overwriting the slot whose address `queue_pop` returned.
- Pointer identity and byte layout. `void*` arguments and callbacks are ids compared with equality, and `memcpy`/`memset` are modelled by the values they produce.
- EventBus.Bus.Publish: requires the caller's buffer to hold the `size` bytes that are copied, whenever the size is within 32. The C code cannot check this and reads past the buffer otherwise.
- Queue indices. `head`, `tail` and `count` are `uint16_t` in the source and naturals here. The ring invariant keeps them below 65, so no wrap-around can occur.
- The rest of `C/event/event_example.c`: coloured `printf` output, the handlers' printing, and `getchar`. Only its call sequence is modelled, as a scenario.
