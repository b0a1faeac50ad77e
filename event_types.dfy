/** Configuration constants, fixed-width integers and the event record of event.h.
    Callback functions and `void*` arguments are modelled as opaque ids compared
    with equality; the id 0 plays the role of NULL. */
module EventTypes {

  // Capacities, as configured in event.h.
  const EventMaxCount := 32    // number of event types
  const SubscriberMax := 8     // subscribers per event type
  const ObserverMax := 4       // global observers
  const QueueSize := 64        // depth of the event queue
  const DataSizeMax := 32      // payload bytes carried by one event

  newtype u8 = x: int | 0 <= x < 0x100
  newtype u16 = x: int | 0 <= x < 0x1_0000
  newtype u32 = x: int | 0 <= x < 0x1_0000_0000

  datatype Option<T> = None | Some(value: T)

  /** A function pointer of type EventCallback_t; NullCallback is NULL. */
  type Callback = nat
  const NullCallback: Callback := 0

  /** The opaque `void* arg` handed back to a callback; NullArg is NULL. */
  type Arg = nat
  const NullArg: Arg := 0

  /** The inline payload buffer of an event: always DataSizeMax bytes. */
  type Payload = s: seq<u8> | |s| == DataSizeMax witness seq(DataSizeMax, _ => 0)

  /** Event_t: type, priority, timestamp in ms, number of meaningful payload
      bytes, and the payload buffer itself. */
  datatype Event = Event(etype: u16, priority: u8, timestamp: u32, dataSize: u8, data: Payload)

  /** The all-zero record that memset leaves in a queue slot. */
  const ZeroEvent := Event(0, 0, 0, 0, seq(DataSizeMax, _ => 0))
}
