/** The slot tables of event.c: Subscriber_t rows (one per event type) and the
    Observer_t row share one slot shape. Slots are claimed first-fit and
    released first-match; a released slot keeps its callback and argument and
    only loses its `used` mark. */
module Registry {
  import opened EventTypes

  /** Subscriber_t / Observer_t. */
  datatype Slot = Slot(callback: Callback, arg: Arg, used: bool)

  /** The all-zero slot that memset leaves behind. */
  const EmptySlot := Slot(NullCallback, NullArg, false)

  /** What a release matches on: subscribers are removed by the pair
      (callback, arg), observers by the callback alone. */
  datatype Key = ByHandler(cb: Callback) | ByHandlerAndArg(cb: Callback, arg: Arg)

  predicate Matches(s: Slot, key: Key) {
    s.used && s.callback == key.cb && (key.ByHandlerAndArg? ==> s.arg == key.arg)
  }

  /** One callback invocation made while an event is dispatched. */
  datatype Invocation = Invocation(callback: Callback, arg: Arg, event: Event)

  /** The lowest unused slot of a row, if any (the scan of EVENT_Subscribe and
      EVENT_RegisterObserver). */
  function FirstFree(row: seq<Slot>): (r: Option<nat>)
    ensures r.Some? ==> r.value < |row| && !row[r.value].used
    ensures r.Some? ==> forall j :: 0 <= j < r.value ==> row[j].used
    ensures r.None? <==> forall j :: 0 <= j < |row| ==> row[j].used
  {
    if row == [] then None
    else if !row[0].used then Some(0)
    else match FirstFree(row[1..])
      case None => None
      case Some(k) => Some(k + 1)
  }

  /** The lowest used slot matching a key, if any (the scan of
      EVENT_Unsubscribe and EVENT_UnregisterObserver). */
  function FirstMatch(row: seq<Slot>, key: Key): (r: Option<nat>)
    ensures r.Some? ==> r.value < |row| && Matches(row[r.value], key)
    ensures r.Some? ==> forall j :: 0 <= j < r.value ==> !Matches(row[j], key)
    ensures r.None? <==> forall j :: 0 <= j < |row| ==> !Matches(row[j], key)
  {
    if row == [] then None
    else if Matches(row[0], key) then Some(0)
    else match FirstMatch(row[1..], key)
      case None => None
      case Some(k) => Some(k + 1)
  }

  /** Number of used slots of a row. */
  function UsedCount(row: seq<Slot>): nat {
    if row == [] then 0 else (if row[0].used then 1 else 0) + UsedCount(row[1..])
  }

  /** The calls one scan of a row makes for event e: every used slot, in slot
      order, with its stored argument. */
  function Calls(row: seq<Slot>, e: Event): seq<Invocation> {
    if row == [] then []
    else (if row[0].used then [Invocation(row[0].callback, row[0].arg, e)] else []) + Calls(row[1..], e)
  }

  /** Scanning two parts of a row one after the other makes the calls of
      each part, in order. */
  lemma {:induction false} CallsAppend(a: seq<Slot>, b: seq<Slot>, e: Event)
    ensures Calls(a + b, e) == Calls(a, e) + Calls(b, e)
  {
    if a == [] {
      assert a + b == b;
    } else {
      assert (a + b)[1..] == a[1..] + b;
      CallsAppend(a[1..], b, e);
    }
  }

  /** The scan loop's step: one more slot adds its call, if it is used. */
  lemma CallsStep(row: seq<Slot>, i: nat, e: Event)
    requires i < |row|
    ensures Calls(row[..i + 1], e) ==
            Calls(row[..i], e) + (if row[i].used then [Invocation(row[i].callback, row[i].arg, e)] else [])
  {
    assert row[..i + 1] == row[..i] + [row[i]];
    CallsAppend(row[..i], [row[i]], e);
  }

  /** Fan-out: a scan calls exactly as many handlers as there are used slots,
      each with the event being dispatched. */
  lemma {:induction false} CallsFanOut(row: seq<Slot>, e: Event)
    ensures |Calls(row, e)| == UsedCount(row)
    ensures forall c <- Calls(row, e) :: c.event == e
  {
    if row != [] {
      CallsFanOut(row[1..], e);
    }
  }

  /** A row with no used slot makes no call. */
  lemma {:induction false} CallsNone(row: seq<Slot>, e: Event)
    requires forall j :: 0 <= j < |row| ==> !row[j].used
    ensures Calls(row, e) == [] && UsedCount(row) == 0
  {
    if row != [] {
      CallsNone(row[1..], e);
    }
  }

  /** Splits a row's calls around slot k. */
  lemma CallsAround(row: seq<Slot>, k: nat, e: Event)
    requires k < |row|
    ensures Calls(row, e) == Calls(row[..k], e) + Calls([row[k]], e) + Calls(row[k + 1..], e)
  {
    assert row == row[..k] + [row[k]] + row[k + 1..];
    CallsAppend(row[..k] + [row[k]], row[k + 1..], e);
    CallsAppend(row[..k], [row[k]], e);
  }

  /** A handler put into a free slot k is called at that slot's position, after
      the used slots below k and before those above it; the other calls keep
      their order. */
  lemma ClaimCalls(row: seq<Slot>, k: nat, cb: Callback, arg: Arg, e: Event)
    requires k < |row| && !row[k].used
    ensures Calls(row, e) == Calls(row[..k], e) + Calls(row[k + 1..], e)
    ensures Calls(row[k := Slot(cb, arg, true)], e) ==
            Calls(row[..k], e) + [Invocation(cb, arg, e)] + Calls(row[k + 1..], e)
    ensures UsedCount(row[k := Slot(cb, arg, true)]) == UsedCount(row) + 1
  {
    var row' := row[k := Slot(cb, arg, true)];
    CallsAround(row, k, e);
    CallsAround(row', k, e);
    assert row'[..k] == row[..k] && row'[k + 1..] == row[k + 1..];
    CallsFanOut(row, e);
    CallsFanOut(row', e);
  }

  /** Releasing a used slot k removes exactly its call; the other calls keep
      their order. */
  lemma ReleaseCalls(row: seq<Slot>, k: nat, e: Event)
    requires k < |row| && row[k].used
    ensures Calls(row, e) ==
            Calls(row[..k], e) + [Invocation(row[k].callback, row[k].arg, e)] + Calls(row[k + 1..], e)
    ensures Calls(row[k := row[k].(used := false)], e) == Calls(row[..k], e) + Calls(row[k + 1..], e)
    ensures UsedCount(row[k := row[k].(used := false)]) + 1 == UsedCount(row)
  {
    var row' := row[k := row[k].(used := false)];
    CallsAround(row, k, e);
    CallsAround(row', k, e);
    assert row'[..k] == row[..k] && row'[k + 1..] == row[k + 1..];
    CallsFanOut(row, e);
    CallsFanOut(row', e);
  }

  /** Releasing the first match of a key leaves a match for that key exactly
      when some other slot also matched: a single registration removed twice
      succeeds once and then is not found. */
  lemma ReleaseThenFind(row: seq<Slot>, key: Key)
    requires FirstMatch(row, key).Some?
    ensures var k := FirstMatch(row, key).value;
            FirstMatch(row[k := row[k].(used := false)], key).None? <==>
            forall j :: 0 <= j < |row| && j != k ==> !Matches(row[j], key)
  {
    var k := FirstMatch(row, key).value;
    var row' := row[k := row[k].(used := false)];
    assert !Matches(row'[k], key);
    assert forall j :: 0 <= j < |row| && j != k ==> row'[j] == row[j];
  }

  /** Claim then release: registering a handler that no used slot holds yet
      puts it into the lowest free slot k, a release with the same key then
      finds exactly slot k, and afterwards the row makes the same calls as
      before the claim. */
  lemma ClaimReleaseRoundTrip(row: seq<Slot>, key: Key, arg: Arg, e: Event)
    requires FirstFree(row).Some? && FirstMatch(row, key).None?
    requires key.ByHandlerAndArg? ==> key.arg == arg
    ensures var k := FirstFree(row).value;
            var claimed := row[k := Slot(key.cb, arg, true)];
            FirstMatch(claimed, key) == Some(k) &&
            Calls(claimed[k := claimed[k].(used := false)], e) == Calls(row, e) &&
            UsedCount(claimed[k := claimed[k].(used := false)]) == UsedCount(row)
  {
    var k := FirstFree(row).value;
    var claimed := row[k := Slot(key.cb, arg, true)];
    var released := claimed[k := claimed[k].(used := false)];
    assert Matches(claimed[k], key);
    assert forall j :: 0 <= j < k ==> claimed[j] == row[j];
    ClaimCalls(row, k, key.cb, arg, e);
    ReleaseCalls(claimed, k, e);
    assert claimed[..k] == row[..k] && claimed[k + 1..] == row[k + 1..];
  }
}
