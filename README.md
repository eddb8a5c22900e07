# BLE session bookkeeping of the SignLang app's main activity

This project models the connection bookkeeping in the app's main activity
(`MainActivity`), which drives one Bluetooth LE peripheral. The activity keeps:

- `discoveredDevices`: the devices a scan has reported, in discovery order and
  without duplicates;
- `bluetoothGatt`: the one connection object it holds, or none, together
  with the services that object has discovered;
- `isConnected`: a readiness flag;
- `selectedDevice`: the device picked in the selection dialog;
- two text lines: the status line and the device-name line.

The events that change this state are:

- a scan result;
- the selection dialog and a click on one of its entries;
- the connect step;
- the two GATT callbacks (connection-state change, services discovered);
- the send button;
- the disconnect button.

The model is in four modules:

- `Ble` (ble.dfy): devices, connection handles and service catalogs. It also
  has the *transport log*, the list of calls the activity makes on the
  platform's Bluetooth stack (connect, discover services, write, disconnect,
  close). `Live(log)` is the set of connections opened and not yet closed.
  `Legal(log)` says that every call addressed a live connection and that every
  connect produced a new one.
- `Registry` (registry.dfy): the deduplicating insert, the dialog labels and
  the loop that fills the label array.
- `SessionSpec` (session.dfy): the activity's state as a value, one function
  per event, and the invariant `Inv`, which every event keeps. `Inv` says:
  - the device list has no duplicates;
  - the log is legal, and every close directly follows a disconnect of the
    same connection;
  - the live connections are exactly the one held, so at most one is live;
  - without a held connection there are no discovered services;
  - the selected device is in the list;
  - entry i of the open dialog is the label of device i of the list.

  `Run` applies any sequence of events, and `Safety` proves the invariant for
  every state reachable from start-up, by returning `Inv` of that state.
- `Activity` (activity.dfy): class `MainActivity`. Its fields are the ones the
  source reassigns, and it has one method per event. Each method's
  postcondition gives the new state as the matching `SessionSpec` function of
  the old state and re-establishes `Valid()`.

The Bluetooth stack is a parameter of the model. Each of these results is an
argument of the method that receives it:

- the connection object `connectGatt` returns, as a new handle number, or
  none when the stack cannot connect;
- the service catalog a successful discovery reports. The held connection
  keeps it, and `getService`/`getCharacteristic` read it;
- the boolean `writeCharacteristic` returns;
- the arguments of the callbacks.

What the code does, and does not do:

- It has no Failed or Transferring states, no session-generation tokens, no
  timeouts and no payload-size check.
- It never clears the device list and never stops the scan.
- A write's outcome is the synchronous boolean `writeCharacteristic` returns.
- Connecting to the device already held still tears the connection down and
  opens a new one.
- `connectGatt`'s result is stored without a null check. When it is null, the
  old connection has already been disconnected and closed, no connection is
  held afterwards, and `isConnected` keeps its value.
- Connecting never resets `isConnected`. `ReadinessSurvivesReconnect` states
  the consequence. Right after switching to a second device, a send passes the
  readiness guard and stops at "Service not found", because the new
  connection has discovered no services yet. After a null `connectGatt`
  result, the flag stays set with no connection held.

## Model

| member | source | states |
|---|---|---|
| `Activity.MainActivity.constructor` | app/src/main/java/MainActivity.java:42-50 | the activity starts with an empty list, no connection, no services, the flag cleared, nothing selected, no dialog, an empty log and the invariant established |
| `Activity.MainActivity.OnScanResult` | app/src/main/java/MainActivity.java:108-113 | the list becomes `Record(list, device)` and the invariant (no duplicates among others) is kept |
| `Registry.Record` | app/src/main/java/MainActivity.java:109-111 | a device is appended exactly when one is reported and its address is not listed; earlier entries keep their positions; the set of listed addresses grows by the reported one; a list without duplicates stays without duplicates |
| `Registry.RecordAllCounts` | app/src/main/java/MainActivity.java:108-113 | after any run of scan results, with repeats, the list has no duplicates and holds exactly one entry per address seen |
| `Registry.RecordIdempotent` | app/src/main/java/MainActivity.java:110 | reporting the same device twice in a row leaves the list as reporting it once |
| `Registry.DistinctCount` | app/src/main/java/MainActivity.java:110-111 | a duplicate-free list has as many entries as distinct addresses |
| `Activity.MainActivity.ShowDeviceSelectionDialog` | app/src/main/java/MainActivity.java:133-153 | with an empty list only the status "No devices found" is set; otherwise the dialog offers the labels of the current list |
| `Registry.DeviceNames` | app/src/main/java/MainActivity.java:140-143 | the label array has one entry per device, entry i being the label of device i |
| `Registry.LabelNamesAddress` | app/src/main/java/MainActivity.java:142 | two devices with well-formed addresses and equal labels have the same address |
| `Registry.LabelsDistinct` | app/src/main/java/MainActivity.java:140-143 | in a duplicate-free list of well-formed addresses the dialog's labels are pairwise distinct |
| `SessionSpec.SelectionShowsEveryDevice` | app/src/main/java/MainActivity.java:133-153 | an empty list changes only the status to "No devices found"; otherwise entry i of the dialog is device i's label; no connection is attempted either way |
| `SessionSpec.DialogIndexInRange` | app/src/main/java/MainActivity.java:148-149 | every index the open dialog offers is in range of the device list, so the lookup on click cannot fail, and the label at that index names the device found there |
| `Activity.MainActivity.OnDeviceChosen` | app/src/main/java/MainActivity.java:148-151 | the click selects `discoveredDevices[which]` and connects to it; the index is in range and the clicked label is that device's label |
| `SessionSpec.SelectionConnectsChosen` | app/src/main/java/MainActivity.java:148-151 | after choosing entry `which` the selected device is `discoveredDevices[which]` and the readiness flag is unchanged; if connectGatt returns a connection, it is to that device, its connect is the last call and only it is live; otherwise no connection is held or live |
| `Activity.MainActivity.ConnectToDevice` | app/src/main/java/MainActivity.java:155-164 | the new state is `SessionSpec.ConnectToDevice` of the old one, including a null connectGatt result, and the invariant is kept |
| `SessionSpec.ConnectReplacesHandle` | app/src/main/java/MainActivity.java:155-164 | a held connection is disconnected and then closed before connectGatt's result is stored; a returned connection is opened and is the only live one, and with a null result none is held or live; the readiness flag is untouched and the new connection starts with no discovered services |
| `SessionSpec.ConnectNothing` | app/src/main/java/MainActivity.java:156 | connecting without a device changes nothing |
| `Activity.MainActivity.OnConnectionStateChange` | app/src/main/java/MainActivity.java:168-179 | the new state is `SessionSpec.OnConnectionStateChange` of the old one and the invariant is kept |
| `SessionSpec.ConnectionStateEffects` | app/src/main/java/MainActivity.java:168-179 | a connected-state event requests service discovery, writes "Connected to: " and "Device Name: " with the device's name, and leaves the readiness flag as it was; a disconnected-state event only clears it and sets "Disconnected"; any other state changes nothing; the list, selection, dialog, connection and services never change |
| `Activity.MainActivity.OnServicesDiscovered` | app/src/main/java/MainActivity.java:182-188 | the new state is `SessionSpec.OnServicesDiscovered` of the old one and the invariant is kept |
| `SessionSpec.ReadyOnlyAfterDiscovery` | app/src/main/java/MainActivity.java:182-188 | afterwards the readiness flag is set exactly when discovery succeeded or it was already set; a success records the discovered services; a failure changes nothing |
| `SessionSpec.ReadinessRisesOnlyOnDiscovery` | app/src/main/java/MainActivity.java:177-184 | of all events, only a successful service discovery turns the readiness flag from false to true |
| `Activity.MainActivity.SendMessage` | app/src/main/java/MainActivity.java:207-240 | the new state is `SessionSpec.SendMessage` of the old one and the invariant is kept |
| `SessionSpec.SendOutcome` | app/src/main/java/MainActivity.java:207-239 | the three guards fail in order, each with its own status and without a write; a write happens exactly when all pass, that is, when the held connection has discovered characteristic 0000ffe1 in service 0000ffe0; it writes the message there; the status is "Message sent successfully" when the write returned true and "Failed to send message" when it returned false |
| `SessionSpec.SendKeepsConnection` | app/src/main/java/MainActivity.java:207-240 | sending changes only the status line and adds at most one call to the log; the connection, its services, the readiness flag, the list and the selection are unchanged |
| `SessionSpec.ReadinessSurvivesReconnect` | app/src/main/java/MainActivity.java:155-164 | connecting while ready keeps the flag set; with a new connection a send then stops at "Service not found" until discovery, and with a null connectGatt result it stops at the readiness guard |
| `Activity.MainActivity.DisconnectFromDevice` | app/src/main/java/MainActivity.java:249-257 | the new state is `SessionSpec.DisconnectFromDevice` of the old one and the invariant is kept |
| `SessionSpec.DisconnectEffects` | app/src/main/java/MainActivity.java:249-257 | with a held connection it is disconnected and closed, the handle cleared, the readiness flag cleared and the status set to "Disconnected"; without one nothing changes; the list, selection, dialog and device-name line never change; disconnecting twice equals disconnecting once |
| `Ble.Live` | app/src/main/java/MainActivity.java:158-163 | the live connections are among those ever opened |
| `Ble.ClosedStaysClosed` | app/src/main/java/MainActivity.java:158-163 | in a legal log a closed connection is never live again |
| `Ble.ClosedAtMostOnce` | app/src/main/java/MainActivity.java:158-163 | in a legal log no connection is closed twice |
| `SessionSpec.TeardownKeeps` | app/src/main/java/MainActivity.java:158-161 | disconnecting and closing the held connection keeps the log legal, leaves no connection live and opens nothing |
| `SessionSpec.ConnectLog` | app/src/main/java/MainActivity.java:158-163 | after tear-down and connect the log is legal and only the new connection is live |
| `SessionSpec.ScanResultKeeps` | app/src/main/java/MainActivity.java:108-113 | a scan result keeps the invariant: the selected device stays listed and the open dialog's labels still match the list's first entries |
| `SessionSpec.ShowSelectionKeeps` | app/src/main/java/MainActivity.java:133-153 | the selection step keeps the invariant: entry i of the dialog is the label of device i |
| `SessionSpec.ConnectKeeps` | app/src/main/java/MainActivity.java:155-164 | connecting keeps the invariant, whether connectGatt returns a connection or null |
| `SessionSpec.SelectKeeps` | app/src/main/java/MainActivity.java:148-151 | choosing a device keeps the invariant, and the selected device is a listed one |
| `SessionSpec.ConnectionStateKeeps` | app/src/main/java/MainActivity.java:168-179 | a connection-state event keeps the invariant: service discovery is requested only on the live, held connection |
| `SessionSpec.ServicesDiscoveredKeeps` | app/src/main/java/MainActivity.java:182-188 | a discovery event keeps the invariant |
| `SessionSpec.SendKeeps` | app/src/main/java/MainActivity.java:207-240 | sending keeps the invariant: a write goes only to the live, held connection |
| `SessionSpec.DisconnectKeeps` | app/src/main/java/MainActivity.java:249-257 | disconnecting keeps the invariant |
| `SessionSpec.StepKeeps` | app/src/main/java/MainActivity.java:106-257 | every event that can happen keeps the invariant |
| `SessionSpec.RunKeeps` | app/src/main/java/MainActivity.java:106-257 | any sequence of events keeps the invariant |
| `SessionSpec.Safety` | app/src/main/java/MainActivity.java:42-50 | every reachable state satisfies the invariant: in particular the list has no duplicates, at most one connection is live and it is the held one, no call was made on a closed connection, and each connection is closed at most once and only right after a disconnect |

## Left out

- Text-to-speech (`initializeTextToSpeech`, `speakMessage`, its shutdown in `onDestroy`): a platform service with no bookkeeping of its own.
- `startScanning` and the permission-result handler: the permission checks and requests, the start of the platform scan, and the one-second delay before the selection dialog. The model lets scan results and the selection step arrive in any order.
- `onCreate`: adapter presence, the enable prompt and button wiring are UI plumbing. `onDestroy` calls `disconnectFromDevice`, which is modelled.
- Timing and threads: `handler.post`/`postDelayed` are applied at once, and each callback is one sequential event.
- `onCharacteristicRead` does nothing; `onScanFailed` and `onCharacteristicWrite` only log. All `Log` calls are left out.
- The dialog's rendering is left out. If a second dialog opens while one is up, the model keeps only the newest dialog's labels.
- Message encoding: `message.getBytes()` is not modelled. A write records the message text.
- UUID parsing: the two UUIDs are opaque constant strings.
- Discovery failures: a discovery that does not report success records no services; whatever the stack stores in the connection object then is not modelled.
- Callback delivery: the callback methods require the event to come from the connection the activity holds. The platform stops calling back after `close()`; the source itself does not check which connection a callback is about.
- Device names: the model fixes a device's name at discovery time. The platform looks the name up each time `getName()` is called.
- The initial status-line text comes from the layout, which is not part of this model. The model starts with an empty status line.
