/**
 * The activity itself: the fields its event handlers reassign, and one method
 * per event. Each method says what the new state is by the matching function
 * of SessionSpec, and keeps the invariant SessionSpec.Inv.
 */
module Activity {
  import opened Ble
  import opened Registry
  import S = SessionSpec

  class MainActivity {
    var discoveredDevices: seq<Device>
    var bluetoothGatt: Option<Gatt>
    /** The services the held connection object has discovered; the stack
        keeps them inside that object and getService reads them. */
    var gattServices: Catalog
    var isConnected: bool
    var selectedDevice: Option<Device>
    /** The text of the status line and of the device-name line. */
    var statusText: string
    var deviceNameText: string
    /** The labels of the selection dialog while it is open. */
    var dialogItems: Option<seq<string>>
    /** The calls made on the stack so far. */
    var transport: seq<TransportCall>

    function Snapshot(): S.Session
      reads this
    {
      S.Session(discoveredDevices, bluetoothGatt, gattServices, isConnected, selectedDevice,
                statusText, deviceNameText, dialogItems, transport)
    }

    predicate Valid()
      reads this
    {
      S.Inv(Snapshot())
    }

    constructor ()
      ensures Valid() && Snapshot() == S.Initial()
    {
      discoveredDevices := [];
      bluetoothGatt := None;
      gattServices := map[];
      isConnected := false;
      selectedDevice := None;
      statusText := "";
      deviceNameText := "";
      dialogItems := None;
      transport := [];
    }

    /** A scan result arrived; `device` is absent when the result carries none. */
    method OnScanResult(device: Option<Device>)
      requires Valid()
      modifies this
      ensures Valid() && Snapshot() == S.OnScanResult(old(Snapshot()), device)
    {
      if device.Some? && !Contains(discoveredDevices, device.value) {
        discoveredDevices := discoveredDevices + [device.value];
      }
      S.ScanResultKeeps(old(Snapshot()), device);
    }

    /** Report an empty list, or open the dialog with one label per device. */
    method ShowDeviceSelectionDialog()
      requires Valid()
      modifies this
      ensures Valid() && Snapshot() == S.ShowDeviceSelection(old(Snapshot()))
    {
      if |discoveredDevices| == 0 {
        statusText := S.NoDevicesFound;
        return;
      }
      var deviceNames := DeviceNames(discoveredDevices);
      dialogItems := Some(deviceNames[..]);
      S.ShowSelectionKeeps(old(Snapshot()));
    }

    /** The user clicked entry `which` of the open dialog; `handle` is the
        connection object connectGatt returns, or none. */
    method OnDeviceChosen(which: nat, handle: Option<HandleId>)
      requires Valid() && dialogItems.Some? && which < |dialogItems.value|
      requires S.FreshHandle(Snapshot(), handle)
      modifies this
      ensures Valid() && old(which < |discoveredDevices|)
      ensures old(dialogItems.value[which]) == DisplayName(old(discoveredDevices[which]))
      ensures Snapshot() == S.SelectDevice(old(Snapshot()), which, handle)
    {
      S.DialogIndexInRange(Snapshot(), which);
      dialogItems := None;
      selectedDevice := Some(discoveredDevices[which]);
      ConnectToDevice(selectedDevice, handle);
    }

    /** `handle` is the connection object connectGatt returns, or none when
        the stack cannot connect. */
    method ConnectToDevice(device: Option<Device>, handle: Option<HandleId>)
      requires Valid() && S.FreshHandle(Snapshot(), handle)
      modifies this
      ensures Valid() && Snapshot() == S.ConnectToDevice(old(Snapshot()), device, handle)
    {
      if device.None? {
        return;
      }
      if bluetoothGatt.Some? {
        transport := transport + [GattDisconnect(bluetoothGatt.value.id), GattClose(bluetoothGatt.value.id)];
      }
      if handle.Some? {
        transport := transport + [GattConnect(device.value, handle.value)];
        bluetoothGatt := Some(Gatt(handle.value, device.value));
      } else {
        bluetoothGatt := None;
      }
      gattServices := map[];
      S.ConnectKeeps(old(Snapshot()), device, handle);
    }

    /** The stack reports a connection-state change of `gatt`, the
        connection the activity holds. */
    method OnConnectionStateChange(gatt: Gatt, status: int, newState: int)
      requires Valid() && bluetoothGatt == Some(gatt)
      modifies this
      ensures Valid() && Snapshot() == S.OnConnectionStateChange(old(Snapshot()), gatt, status, newState)
    {
      if newState == StateConnected {
        transport := transport + [GattDiscoverServices(gatt.id)];
        statusText := "Connected to: " + NameText(gatt.device.name);
        deviceNameText := "Device Name: " + NameText(gatt.device.name);
      } else if newState == StateDisconnected {
        statusText := S.Disconnected;
        isConnected := false;
      }
      S.ConnectionStateKeeps(old(Snapshot()), gatt, status, newState);
    }

    /** The stack reports the end of service discovery on `gatt`; on success
        it has stored the `found` services in that connection object. */
    method OnServicesDiscovered(gatt: Gatt, status: int, found: Catalog)
      requires Valid() && bluetoothGatt == Some(gatt)
      modifies this
      ensures Valid() && Snapshot() == S.OnServicesDiscovered(old(Snapshot()), gatt, status, found)
    {
      if status == GattSuccess {
        gattServices := found;
        isConnected := true;
      }
    }

    /** Send the text of the input field; `writeOk` is what
        writeCharacteristic returns. */
    method SendMessage(message: string, writeOk: bool)
      requires Valid()
      modifies this
      ensures Valid() && Snapshot() == S.SendMessage(old(Snapshot()), message, writeOk)
    {
      if |message| == 0 || bluetoothGatt.None? || !isConnected {
        statusText := S.NotReadyToSend;
        return;
      }
      if S.ServiceUuid !in gattServices {
        statusText := S.ServiceNotFound;
        return;
      }
      var characteristics := gattServices[S.ServiceUuid];
      if S.CharacteristicUuid !in characteristics {
        statusText := S.CharacteristicNotFound;
        return;
      }
      transport := transport + [GattWrite(bluetoothGatt.value.id, S.ServiceUuid, S.CharacteristicUuid, message)];
      if writeOk {
        statusText := S.MessageSent;
      } else {
        statusText := S.SendFailed;
      }
      S.SendKeeps(old(Snapshot()), message, writeOk);
    }

    method DisconnectFromDevice()
      requires Valid()
      modifies this
      ensures Valid() && Snapshot() == S.DisconnectFromDevice(old(Snapshot()))
    {
      if bluetoothGatt.Some? {
        transport := transport + [GattDisconnect(bluetoothGatt.value.id), GattClose(bluetoothGatt.value.id)];
        bluetoothGatt := None;
        gattServices := map[];
        statusText := S.Disconnected;
        isConnected := false;
      }
      S.DisconnectKeeps(old(Snapshot()));
    }
  }
}
