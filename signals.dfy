/** The per-signal decisions of the two subscriptions. `object_manager_stream` turns the object
    manager's `InterfacesAdded` and `InterfacesRemoved` signals into `Added` and `Removed`;
    `properties_changed_stream` turns every `PropertiesChanged` message below the object
    manager's path into one `BootEnvironmentsModified`. Each stream is given as the finite
    sequence of items it has received so far, and yields the messages it has sent. */
module Signals {
  import opened Wrappers
  import opened Records
  import opened Loader
  import opened Messages

  datatype InterfacesAddedArgs = InterfacesAddedArgs(objectPath: ObjectPath, interfacesAndProperties: map<string, PropertyMap>)

  datatype InterfacesRemovedArgs = InterfacesRemovedArgs(objectPath: ObjectPath, interfaces: seq<string>)

  /** One wake-up of the select loop: a signal from one of the two streams, with its arguments, or
      `None` when they could not be parsed from the signal body. */
  datatype ObjectManagerSignal =
    | InterfacesAdded(added: Option<InterfacesAddedArgs>)
    | InterfacesRemoved(removed: Option<InterfacesRemovedArgs>)

  /** The added object would be decoded into `env`. */
  predicate DecodesTo(sig: ObjectManagerSignal, env: BootEnvironment) {
    && sig.InterfacesAdded? && sig.added.Some?
    && BootEnvironmentInterface in sig.added.value.interfacesAndProperties
    && FromProperties(sig.added.value.objectPath,
                      sig.added.value.interfacesAndProperties[BootEnvironmentInterface]) == Ok(env)
  }

  /** An added object is announced only when it exposes the boot-environment interface and
      decodes; a decode failure is logged and dropped. A removal is announced for its path
      whenever its arguments parse, whichever interfaces it lists. */
  function OnObjectManagerSignal(sig: ObjectManagerSignal): (r: Option<Message>)
    ensures r.Some? ==> r.value.Added? || r.value.Removed?
    ensures forall env :: r == Some(Added(env)) <==> DecodesTo(sig, env)
    ensures sig.InterfacesAdded? ==> (r.Some? <==> exists env :: DecodesTo(sig, env))
    ensures sig.InterfacesRemoved? ==>
      r == if sig.removed.Some? then Some(Removed(sig.removed.value.objectPath)) else None
  {
    match sig
    case InterfacesAdded(None) => None
    case InterfacesAdded(Some(args)) =>
      if BootEnvironmentInterface in args.interfacesAndProperties then
        match FromProperties(args.objectPath, args.interfacesAndProperties[BootEnvironmentInterface])
        case Ok(env) => Some(Added(env))
        case Err(_) => None
      else None
    case InterfacesRemoved(None) => None
    case InterfacesRemoved(Some(args)) => Some(Removed(args.objectPath))
  }

  /** The messages sent for the signals received, in order: at most one per signal, each an
      `Added` or a `Removed`. */
  function ObjectManagerMessages(signals: seq<ObjectManagerSignal>): (sent: seq<Message>)
    ensures |sent| <= |signals|
    ensures forall m :: m in sent ==> m.Added? || m.Removed?
  {
    if signals == [] then []
    else
      (match OnObjectManagerSignal(signals[0]) case Some(m) => [m] case None => [])
      + ObjectManagerMessages(signals[1..])
  }

  /** The select loop of `object_manager_stream`. */
  method ObjectManagerStream(signals: seq<ObjectManagerSignal>) returns (sent: seq<Message>)
    ensures sent == ObjectManagerMessages(signals)
  {
    sent := [];
    var i := 0;
    while i < |signals|
      invariant 0 <= i <= |signals|
      invariant sent == ObjectManagerMessages(signals[..i])
    {
      var sig := signals[i];
      assert signals[..i + 1] == signals[..i] + [sig];
      ObjectManagerMessagesAppend(signals[..i], [sig]);
      assert [sig][1..] == [];
      match OnObjectManagerSignal(sig) {
        case Some(m) => sent := sent + [m];
        case None =>
      }
      i := i + 1;
    }
    assert signals[..i] == signals;
  }

  /** The listener runs on after a dropped signal: the messages for a concatenation are those
      for each part. */
  lemma {:induction false} ObjectManagerMessagesAppend(a: seq<ObjectManagerSignal>, b: seq<ObjectManagerSignal>)
    ensures ObjectManagerMessages(a + b) == ObjectManagerMessages(a) + ObjectManagerMessages(b)
  {
    if a == [] {
      assert a + b == b;
    } else {
      assert (a + b)[1..] == a[1..] + b;
      ObjectManagerMessagesAppend(a[1..], b);
    }
  }

  /** One item of the `PropertiesChanged` message stream: a message (its path, interface and
      changed property names, which only reach the debug log) or a receive error. */
  datatype PropertiesChangedItem =
    | Delivered(path: ObjectPath, iface: string, changed: seq<string>)
    | ReceiveError

  /** Every delivered message, whatever changed, triggers a full reload; errors are only logged. */
  function OnPropertiesChanged(item: PropertiesChangedItem): (r: Option<Message>)
    ensures r.Some? <==> item.Delivered?
    ensures r.Some? ==> r.value == BootEnvironmentsModified
  {
    match item
    case Delivered(_, _, _) => Some(BootEnvironmentsModified)
    case ReceiveError => None
  }

  function CountDelivered(items: seq<PropertiesChangedItem>): nat {
    if items == [] then 0 else (if items[0].Delivered? then 1 else 0) + CountDelivered(items[1..])
  }

  lemma {:induction false} CountDeliveredAppend(a: seq<PropertiesChangedItem>, b: seq<PropertiesChangedItem>)
    ensures CountDelivered(a + b) == CountDelivered(a) + CountDelivered(b)
  {
    if a == [] {
      assert a + b == b;
    } else {
      assert (a + b)[1..] == a[1..] + b;
      CountDeliveredAppend(a[1..], b);
    }
  }

  /** The `while let` loop of `properties_changed_stream`: one `BootEnvironmentsModified` per
      delivered message, no batching, whatever each message carries. */
  method PropertiesChangedStream(items: seq<PropertiesChangedItem>) returns (sent: seq<Message>)
    ensures |sent| == CountDelivered(items)
    ensures forall i :: 0 <= i < |sent| ==> sent[i] == BootEnvironmentsModified
  {
    sent := [];
    var i := 0;
    while i < |items|
      invariant 0 <= i <= |items|
      invariant |sent| == CountDelivered(items[..i])
      invariant forall k :: 0 <= k < |sent| ==> sent[k] == BootEnvironmentsModified
    {
      var item := items[i];
      assert items[..i + 1] == items[..i] + [item];
      CountDeliveredAppend(items[..i], [item]);
      assert [item][1..] == [];
      match OnPropertiesChanged(item) {
        case Some(m) => sent := sent + [m];
        case None =>
      }
      i := i + 1;
    }
    assert items[..i] == items;
  }
}
