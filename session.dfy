/**
 * The activity's connection bookkeeping as a value: one function per event
 * that changes it, the invariant every event keeps, and what each event
 * promises.
 *
 * The events are the scan callback, the selection dialog and its click, the
 * connect step, the two GATT callbacks, the send button and the disconnect
 * button. Results that come from the stack (the connection object returned by
 * connectGatt, the services a discovery reports, the boolean of
 * writeCharacteristic, the arguments of callbacks) are parameters.
 */
module SessionSpec {
  import opened Ble
  import opened Registry

  /** Status texts written to the status line. */
  const NoDevicesFound := "No devices found"
  const NotReadyToSend := "No message to send or not connected"
  const ServiceNotFound := "Service not found"
  const CharacteristicNotFound := "Characteristic not found"
  const MessageSent := "Message sent successfully"
  const SendFailed := "Failed to send message"
  const Disconnected := "Disconnected"

  /** The service and characteristic messages are written to. */
  const ServiceUuid: Uuid := "0000ffe0-0000-1000-8000-00805f9b34fb"
  const CharacteristicUuid: Uuid := "0000ffe1-0000-1000-8000-00805f9b34fb"

  /** The activity's state: discovered devices, the connection object held
      (if any) and the services that object has discovered, the readiness
      flag, the selected device, the status line and the device-name line,
      the labels of the open selection dialog, and the log of calls made on
      the stack. */
  datatype Session = Session(
    discovered: seq<Device>,
    gatt: Option<Gatt>,
    services: Catalog,
    connected: bool,
    selected: Option<Device>,
    status: string,
    nameLine: string,
    dialog: Option<seq<string>>,
    transport: seq<TransportCall>)

  function Initial(): Session
  {
    Session([], None, map[], false, None, "", "", None, [])
  }

  /** The connections a session holds a reference to. */
  function Held(g: Option<Gatt>): set<HandleId>
  {
    if g.Some? then {g.value.id} else {}
  }

  /** What stays true between events. */
  predicate Inv(s: Session)
  {
    && NoDuplicates(s.discovered)
    && Legal(s.transport)
    && ClosesFollowDisconnects(s.transport)
    && Live(s.transport) == Held(s.gatt)
    && (s.gatt.None? ==> s.services == map[])
    && (s.selected.Some? ==> s.selected.value in s.discovered)
    && (s.dialog.Some? ==> DialogNames(s.dialog.value, s.discovered))
  }

  /** Every entry of the open dialog is the label of the device at the same
      position of the list. */
  predicate DialogNames(items: seq<string>, list: seq<Device>)
  {
    |items| <= |list| && forall i | 0 <= i < |items| :: items[i] == DisplayName(list[i])
  }

  // ---------------------------------------------------------------- events

  function OnScanResult(s: Session, result: Option<Device>): Session
  {
    s.(discovered := Record(s.discovered, result))
  }

  function ShowDeviceSelection(s: Session): Session
  {
    if |s.discovered| == 0 then s.(status := NoDevicesFound)
    else s.(dialog := Some(Labels(s.discovered)))
  }

  /** Disconnect and close `g`'s connection, when there is one. */
  function Teardown(t: seq<TransportCall>, g: Option<Gatt>): seq<TransportCall>
  {
    if g.Some? then t + [GattDisconnect(g.value.id), GattClose(g.value.id)] else t
  }

  /** `handle` is what connectGatt returns: a new connection object, or none
      when the stack cannot connect. The old connection is torn down either
      way, and a new one starts with no discovered services. */
  function ConnectToDevice(s: Session, device: Option<Device>, handle: Option<HandleId>): Session
  {
    if device.None? then s
    else if handle.None? then
      s.(transport := Teardown(s.transport, s.gatt), gatt := None, services := map[])
    else
      s.(transport := Teardown(s.transport, s.gatt) + [GattConnect(device.value, handle.value)],
         gatt := Some(Gatt(handle.value, device.value)), services := map[])
  }

  function SelectDevice(s: Session, which: nat, handle: Option<HandleId>): Session
    requires which < |s.discovered|
  {
    var d := s.discovered[which];
    ConnectToDevice(s.(selected := Some(d), dialog := None), Some(d), handle)
  }

  function OnConnectionStateChange(s: Session, g: Gatt, status: int, newState: int): Session
  {
    if newState == StateConnected then
      s.(transport := s.transport + [GattDiscoverServices(g.id)],
         status := "Connected to: " + NameText(g.device.name),
         nameLine := "Device Name: " + NameText(g.device.name))
    else if newState == StateDisconnected then
      s.(status := Disconnected, connected := false)
    else s
  }

  /** `found` is the catalog the stack reports for the held connection. */
  function OnServicesDiscovered(s: Session, g: Gatt, status: int, found: Catalog): Session
  {
    if status == GattSuccess then s.(services := found, connected := true) else s
  }

  /** The outcome of sendMessage's guards, checked in the source's order. */
  datatype SendCheck = NotReady | NoService | NoCharacteristic | Writable(handle: HandleId)

  function CheckSend(message: string, g: Option<Gatt>, connected: bool, services: Catalog): SendCheck
  {
    if |message| == 0 || g.None? || !connected then NotReady
    else if ServiceUuid !in services then NoService
    else if CharacteristicUuid !in services[ServiceUuid] then NoCharacteristic
    else Writable(g.value.id)
  }

  /** The service lookups read the held connection's discovered services;
      `writeOk` is what writeCharacteristic returns. */
  function SendMessage(s: Session, message: string, writeOk: bool): Session
  {
    match CheckSend(message, s.gatt, s.connected, s.services)
    case NotReady => s.(status := NotReadyToSend)
    case NoService => s.(status := ServiceNotFound)
    case NoCharacteristic => s.(status := CharacteristicNotFound)
    case Writable(h) =>
      s.(transport := s.transport + [GattWrite(h, ServiceUuid, CharacteristicUuid, message)],
         status := if writeOk then MessageSent else SendFailed)
  }

  function DisconnectFromDevice(s: Session): Session
  {
    if s.gatt.None? then s
    else
      s.(transport := Teardown(s.transport, s.gatt), gatt := None, services := map[],
         status := Disconnected, connected := false)
  }

  // ------------------------------------------------------ invariant kept

  lemma TeardownKeeps(t: seq<TransportCall>, g: Option<Gatt>)
    requires Legal(t) && ClosesFollowDisconnects(t) && Live(t) == Held(g)
    ensures Legal(Teardown(t, g)) && ClosesFollowDisconnects(Teardown(t, g))
    ensures Live(Teardown(t, g)) == {} && Opened(Teardown(t, g)) == Opened(t)
  {
    if g.Some? {
      var h := g.value.id;
      var t1 := t + [GattDisconnect(h)];
      LegalSnoc(t, GattDisconnect(h));
      ClosesSnoc(t, GattDisconnect(h));
      Snoc(t, GattDisconnect(h));
      LegalSnoc(t1, GattClose(h));
      ClosesSnoc(t1, GattClose(h));
      Snoc(t1, GattClose(h));
      assert Teardown(t, g) == t1 + [GattClose(h)];
    }
  }

  lemma ScanResultKeeps(s: Session, result: Option<Device>)
    requires Inv(s)
    ensures Inv(OnScanResult(s, result))
  {
    var r := OnScanResult(s, result).discovered;
    if s.selected.Some? {
      var k :| 0 <= k < |s.discovered| && s.discovered[k] == s.selected.value;
      assert r[k] == s.discovered[k];
    }
    if s.dialog.Some? {
      forall i | 0 <= i < |s.dialog.value| ensures s.dialog.value[i] == DisplayName(r[i]) {
        assert r[i] == r[..|s.discovered|][i];
      }
    }
  }

  lemma ShowSelectionKeeps(s: Session)
    requires Inv(s)
    ensures Inv(ShowDeviceSelection(s))
  {
  }

  /** The log after connectToDevice: legal, and only the new connection live. */
  lemma ConnectLog(t: seq<TransportCall>, g: Option<Gatt>, d: Device, handle: HandleId)
    requires Legal(t) && ClosesFollowDisconnects(t) && Live(t) == Held(g) && handle !in Opened(t)
    ensures var t' := Teardown(t, g) + [GattConnect(d, handle)];
      Legal(t') && ClosesFollowDisconnects(t') && Live(t') == {handle}
  {
    var u := Teardown(t, g);
    var c := GattConnect(d, handle);
    TeardownKeeps(t, g);
    LegalSnoc(u, c);
    ClosesSnoc(u, c);
    Snoc(u, c);
  }

  /** connectGatt yields a connection object never seen before, if any. */
  predicate FreshHandle(s: Session, handle: Option<HandleId>)
  {
    handle.Some? ==> handle.value !in Opened(s.transport)
  }

  lemma ConnectKeeps(s: Session, device: Option<Device>, handle: Option<HandleId>)
    requires Inv(s) && FreshHandle(s, handle)
    ensures Inv(ConnectToDevice(s, device, handle))
  {
    if device.Some? {
      if handle.Some? {
        ConnectLog(s.transport, s.gatt, device.value, handle.value);
      } else {
        TeardownKeeps(s.transport, s.gatt);
      }
    }
  }

  lemma SelectKeeps(s: Session, which: nat, handle: Option<HandleId>)
    requires Inv(s) && which < |s.discovered| && FreshHandle(s, handle)
    ensures Inv(SelectDevice(s, which, handle))
  {
    var d := s.discovered[which];
    ConnectKeeps(s.(selected := Some(d), dialog := None), Some(d), handle);
  }

  lemma ConnectionStateKeeps(s: Session, g: Gatt, status: int, newState: int)
    requires Inv(s) && s.gatt == Some(g)
    ensures Inv(OnConnectionStateChange(s, g, status, newState))
  {
    if newState == StateConnected {
      var c := GattDiscoverServices(g.id);
      LegalSnoc(s.transport, c);
      ClosesSnoc(s.transport, c);
      Snoc(s.transport, c);
    }
  }

  lemma ServicesDiscoveredKeeps(s: Session, g: Gatt, status: int, found: Catalog)
    requires Inv(s) && s.gatt == Some(g)
    ensures Inv(OnServicesDiscovered(s, g, status, found))
  {
  }

  lemma SendKeeps(s: Session, message: string, writeOk: bool)
    requires Inv(s)
    ensures Inv(SendMessage(s, message, writeOk))
  {
    var check := CheckSend(message, s.gatt, s.connected, s.services);
    if check.Writable? {
      var c := GattWrite(check.handle, ServiceUuid, CharacteristicUuid, message);
      LegalSnoc(s.transport, c);
      ClosesSnoc(s.transport, c);
      Snoc(s.transport, c);
    }
  }

  lemma DisconnectKeeps(s: Session)
    requires Inv(s)
    ensures Inv(DisconnectFromDevice(s))
  {
    TeardownKeeps(s.transport, s.gatt);
  }

  // ------------------------------------------------- what events promise

  /** The selection step with an empty list only reports it; otherwise it
      offers one label per discovered device, in discovery order. Either way
      no connection is attempted. */
  lemma SelectionShowsEveryDevice(s: Session)
    ensures var r := ShowDeviceSelection(s);
      && r.transport == s.transport && r.gatt == s.gatt && r.connected == s.connected
      && (|s.discovered| == 0 ==> r == s.(status := NoDevicesFound))
      && (|s.discovered| > 0 ==>
            && r.status == s.status && r.dialog.Some? && |r.dialog.value| == |s.discovered|
            && forall i | 0 <= i < |s.discovered| :: r.dialog.value[i] == DisplayName(s.discovered[i]))
  {
  }

  /** A label the open dialog offers always names a device still listed, the
      one at the same position: the list only grows, at its end, while the
      dialog is up. */
  lemma DialogIndexInRange(s: Session, which: nat)
    requires Inv(s) && s.dialog.Some? && which < |s.dialog.value|
    ensures which < |s.discovered| && s.dialog.value[which] == DisplayName(s.discovered[which])
  {
  }

  /** Choosing entry `which` selects that device and connects to exactly it;
      if connectGatt returns nothing, no connection is held afterwards. */
  lemma SelectionConnectsChosen(s: Session, which: nat, handle: Option<HandleId>)
    requires Inv(s) && which < |s.discovered| && FreshHandle(s, handle)
    ensures var r := SelectDevice(s, which, handle);
      && r.selected == Some(s.discovered[which])
      && r.connected == s.connected
      && (handle.Some? ==>
            && r.gatt == Some(Gatt(handle.value, s.discovered[which]))
            && r.transport[|r.transport| - 1] == GattConnect(s.discovered[which], handle.value)
            && Live(r.transport) == {handle.value})
      && (handle.None? ==> r.gatt.None? && Live(r.transport) == {})
  {
    SelectKeeps(s, which, handle);
  }

  /** connectToDevice tears the held connection down (disconnect, then
      close) before storing what connectGatt returned, leaves the readiness
      flag alone and forgets the old connection's services; afterwards only
      the new connection, if any, is live. */
  lemma ConnectReplacesHandle(s: Session, d: Device, handle: Option<HandleId>)
    requires Inv(s) && FreshHandle(s, handle)
    ensures var r := ConnectToDevice(s, Some(d), handle);
      && r.connected == s.connected
      && r.services == map[]
      && r.gatt == (if handle.Some? then Some(Gatt(handle.value, d)) else None)
      && Live(r.transport) == (if handle.Some? then {handle.value} else {})
      && r.transport == Teardown(s.transport, s.gatt) + (if handle.Some? then [GattConnect(d, handle.value)] else [])
      && (s.gatt.Some? ==>
            r.transport[|s.transport|..|s.transport| + 2] == [GattDisconnect(s.gatt.value.id), GattClose(s.gatt.value.id)])
  {
    ConnectKeeps(s, Some(d), handle);
  }

  /** connectToDevice without a device changes nothing. */
  lemma ConnectNothing(s: Session, handle: Option<HandleId>)
    ensures ConnectToDevice(s, None, handle) == s
  {
  }

  /** A connected-state event asks for service discovery and does not yet set
      the readiness flag; a disconnected-state event clears it. */
  lemma ConnectionStateEffects(s: Session, g: Gatt, status: int, newState: int)
    ensures var r := OnConnectionStateChange(s, g, status, newState);
      && r.(transport := s.transport, status := s.status, nameLine := s.nameLine, connected := s.connected) == s
      && (newState == StateConnected ==>
            && r.connected == s.connected && r.transport == s.transport + [GattDiscoverServices(g.id)]
            && r.status == "Connected to: " + NameText(g.device.name)
            && r.nameLine == "Device Name: " + NameText(g.device.name))
      && (newState == StateDisconnected ==> r == s.(status := Disconnected, connected := false))
      && (newState != StateConnected && newState != StateDisconnected ==> r == s)
  {
  }

  /** A successful discovery sets the readiness flag and records the found
      services; any other status changes nothing. */
  lemma ReadyOnlyAfterDiscovery(s: Session, g: Gatt, status: int, found: Catalog)
    ensures var r := OnServicesDiscovered(s, g, status, found);
      && (r.connected <==> status == GattSuccess || s.connected)
      && (status == GattSuccess ==> r.services == found)
      && r.(connected := s.connected, services := s.services) == s
      && (status != GattSuccess ==> r == s)
  {
  }

  /** Sending never touches the connection, its services, the readiness flag,
      the device list or the selection; it adds at most one call to the log. */
  lemma SendKeepsConnection(s: Session, message: string, writeOk: bool)
    ensures var r := SendMessage(s, message, writeOk);
      && r.(status := s.status, transport := s.transport) == s
      && (r.transport == s.transport || |r.transport| == |s.transport| + 1)
  {
  }

  /** The guards fail in order, each with its own status and without a write;
      when all pass, exactly the message is written to the fixed
      characteristic of the held connection, a pair that connection has
      discovered, and the status tells what the write returned. */
  lemma SendOutcome(s: Session, message: string, writeOk: bool)
    ensures var r := SendMessage(s, message, writeOk);
      && (|message| == 0 || s.gatt.None? || !s.connected ==>
            r.status == NotReadyToSend && r.transport == s.transport)
      && (|message| > 0 && s.gatt.Some? && s.connected && ServiceUuid !in s.services ==>
            r.status == ServiceNotFound && r.transport == s.transport)
      && (|message| > 0 && s.gatt.Some? && s.connected && ServiceUuid in s.services
            && CharacteristicUuid !in s.services[ServiceUuid] ==>
            r.status == CharacteristicNotFound && r.transport == s.transport)
      && (r.transport != s.transport <==>
            |message| > 0 && s.gatt.Some? && s.connected
            && ServiceUuid in s.services && CharacteristicUuid in s.services[ServiceUuid])
      && (r.transport != s.transport ==>
            && r.transport == s.transport + [GattWrite(s.gatt.value.id, ServiceUuid, CharacteristicUuid, message)]
            && (writeOk ==> r.status == MessageSent)
            && (!writeOk ==> r.status == SendFailed))
  {
  }

  /** With a held connection, disconnecting disconnects and closes it and
      clears the handle, its services and the readiness flag; without one it
      does nothing, so a second call changes nothing more. */
  lemma DisconnectEffects(s: Session)
    ensures var r := DisconnectFromDevice(s);
      && r.gatt.None?
      && r.(transport := s.transport, gatt := s.gatt, services := s.services,
            status := s.status, connected := s.connected) == s
      && (s.gatt.Some? ==> !r.connected && r.services == map[] && r.status == Disconnected)
      && (s.gatt.Some? ==> r.transport == s.transport + [GattDisconnect(s.gatt.value.id), GattClose(s.gatt.value.id)])
      && (s.gatt.None? ==> r == s)
    ensures DisconnectFromDevice(DisconnectFromDevice(s)) == DisconnectFromDevice(s)
  {
  }

  /** The readiness flag survives a reconnect. Right after switching to a
      second device, before its services are discovered, a send passes the
      readiness guard and stops at the service lookup. If connectGatt returned
      nothing, the flag stays set with no connection held, and a send stops at
      the readiness guard. */
  lemma ReadinessSurvivesReconnect(s: Session, d: Device, handle: Option<HandleId>, message: string, writeOk: bool)
    requires s.connected && |message| > 0
    ensures var r := ConnectToDevice(s, Some(d), handle);
      && r.connected
      && (handle.Some? ==> SendMessage(r, message, writeOk) == r.(status := ServiceNotFound))
      && (handle.None? ==> r.gatt.None? && SendMessage(r, message, writeOk) == r.(status := NotReadyToSend))
  {
  }

  // ------------------------------------------------------- event sequences

  datatype Event =
    | ScanReported(result: Option<Device>)
    | SelectionRequested
    | DeviceChosen(which: nat, handle: Option<HandleId>)
    | ConnectionStateChanged(gatt: Gatt, status: int, newState: int)
    | ServicesDiscovered(gatt: Gatt, status: int, found: Catalog)
    | SendPressed(message: string, writeOk: bool)
    | DisconnectPressed

  /** When an event can happen: a click names a label of the open dialog and
      connectGatt returns a new object or none; the stack calls back only on
      the connection object the activity holds (close() unregisters the
      callback). */
  predicate Enabled(s: Session, e: Event)
  {
    match e
    case DeviceChosen(which, handle) =>
      s.dialog.Some? && which < |s.dialog.value| && which < |s.discovered| && FreshHandle(s, handle)
    case ConnectionStateChanged(g, _, _) => s.gatt == Some(g)
    case ServicesDiscovered(g, _, _) => s.gatt == Some(g)
    case _ => true
  }

  function Apply(s: Session, e: Event): Session
    requires Enabled(s, e)
  {
    match e
    case ScanReported(result) => OnScanResult(s, result)
    case SelectionRequested => ShowDeviceSelection(s)
    case DeviceChosen(which, handle) => SelectDevice(s, which, handle)
    case ConnectionStateChanged(g, status, newState) => OnConnectionStateChange(s, g, status, newState)
    case ServicesDiscovered(g, status, found) => OnServicesDiscovered(s, g, status, found)
    case SendPressed(message, writeOk) => SendMessage(s, message, writeOk)
    case DisconnectPressed => DisconnectFromDevice(s)
  }

  /** The readiness flag rises only through a successful service discovery. */
  lemma ReadinessRisesOnlyOnDiscovery(s: Session, e: Event)
    requires Enabled(s, e)
    ensures !s.connected && Apply(s, e).connected ==> e.ServicesDiscovered? && e.status == GattSuccess
  {
  }

  /** A run of events; an event that cannot happen in the current state is
      not delivered. */
  function Run(s: Session, events: seq<Event>): Session
    decreases |events|
  {
    if events == [] then s
    else Run(if Enabled(s, events[0]) then Apply(s, events[0]) else s, events[1..])
  }

  lemma StepKeeps(s: Session, e: Event)
    requires Inv(s) && Enabled(s, e)
    ensures Inv(Apply(s, e))
  {
    match e
    case ScanReported(result) => ScanResultKeeps(s, result);
    case SelectionRequested => ShowSelectionKeeps(s);
    case DeviceChosen(which, handle) => SelectKeeps(s, which, handle);
    case ConnectionStateChanged(g, status, newState) => ConnectionStateKeeps(s, g, status, newState);
    case ServicesDiscovered(g, status, found) => ServicesDiscoveredKeeps(s, g, status, found);
    case SendPressed(message, writeOk) => SendKeeps(s, message, writeOk);
    case DisconnectPressed => DisconnectKeeps(s);
  }

  lemma {:induction false} RunKeeps(s: Session, events: seq<Event>)
    requires Inv(s)
    ensures Inv(Run(s, events))
    decreases |events|
  {
    if events != [] {
      if Enabled(s, events[0]) { StepKeeps(s, events[0]); }
      RunKeeps(if Enabled(s, events[0]) then Apply(s, events[0]) else s, events[1..]);
    }
  }

  /** Whatever happens from start-up the invariant holds: in particular the
      device list has no duplicates, at most one connection is live and it is
      the one held, no call was made on a closed connection, and each
      connection is closed once at most and only after a disconnect. */
  lemma Safety(events: seq<Event>)
    ensures var r := Run(Initial(), events);
      && Inv(r)
      && NoDuplicates(r.discovered)
      && |Live(r.transport)| <= 1 && Live(r.transport) == Held(r.gatt)
      && Legal(r.transport) && ClosesFollowDisconnects(r.transport)
  {
    RunKeeps(Initial(), events);
  }
}
