/**
 * The merged singleton (`BLEPluginManagerNew`): scanner, GATT server and GATT
 * client in one object sharing one `deviceMap`, with UUIDs chosen by the host
 * at initialisation and unchunked transfers in both directions.
 */
module ManagerNew {
  import opened Platform
  import opened Directory
  import opened Gatt

  class BlePluginManagerNew {
    const serviceUuid: Uuid
    const characteristicUuid: Uuid
    /** `bluetoothLeScanner != null`; it is set once at initialisation. */
    const scannerPresent: bool
    var advertiserPresent: bool
    var serverOpen: bool
    var link: Option<Device>
    var deviceConnected: Option<Device>
    var scanning: bool
    var discoveredDevices: seq<DeviceEntry>
    var deviceMap: map<string, Device>
    var connectedDevices: seq<Device>
    /** The value stored in the served characteristic. */
    var serverValue: Option<string>
    ghost var log: seq<Action>

    /**
     * `getInstance()` followed by `initBLEPlugin`: without an adapter the
     * default UUIDs stay and there is neither scanner nor advertiser.
     */
    constructor (adapterPresent: bool, hostService: Uuid, hostCharacteristic: Uuid,
                 scannerAvailable: bool, advertiserAvailable: bool)
      ensures adapterPresent ==>
        && serviceUuid == hostService && characteristicUuid == hostCharacteristic
        && scannerPresent == scannerAvailable && advertiserPresent == advertiserAvailable
        && log == [Unity("OnBLEPluginInitialized", Text("BluetoothAdapter Initialized!"))]
      ensures !adapterPresent ==>
        && serviceUuid == DefaultServiceUuid && characteristicUuid == DefaultCharacteristicUuid
        && !scannerPresent && !advertiserPresent
        && log == [Unity("OnBLEPluginInitialized", Text("BluetoothAdapter is Null!"))]
      ensures !serverOpen && link == None && deviceConnected == None && !scanning
      ensures discoveredDevices == [] && deviceMap == map[] && connectedDevices == [] && serverValue == None
    {
      if adapterPresent {
        serviceUuid := hostService;
        characteristicUuid := hostCharacteristic;
        scannerPresent := scannerAvailable;
        advertiserPresent := advertiserAvailable;
        log := [Unity("OnBLEPluginInitialized", Text("BluetoothAdapter Initialized!"))];
      } else {
        serviceUuid := DefaultServiceUuid;
        characteristicUuid := DefaultCharacteristicUuid;
        scannerPresent := false;
        advertiserPresent := false;
        log := [Unity("OnBLEPluginInitialized", Text("BluetoothAdapter is Null!"))];
      }
      serverOpen := false;
      link := None;
      deviceConnected := None;
      scanning := false;
      discoveredDevices := [];
      deviceMap := map[];
      connectedDevices := [];
      serverValue := None;
    }

    // ---------------------------------------------------------------- scanning

    /** Clears only the discovered list (the map is kept) and scans; without a scanner nothing happens. */
    method StartScan()
      modifies this`scanning, this`discoveredDevices, this`log
      ensures scannerPresent ==>
        && scanning && discoveredDevices == []
        && log == old(log) + [ScanStart(serviceUuid), Unity("OnScanStarted", Text(""))]
      ensures !scannerPresent ==>
        scanning == old(scanning) && discoveredDevices == old(discoveredDevices) && log == old(log)
    {
      if scannerPresent {
        discoveredDevices := [];
        ScanLeDevice(true);
      }
    }

    method ScanLeDevice(enable: bool)
      requires scannerPresent
      modifies this`scanning, this`log
      ensures scanning == enable
      ensures enable ==> log == old(log) + [ScanStart(serviceUuid), Unity("OnScanStarted", Text(""))]
      ensures !enable ==> log == old(log) + [ScanStop]
    {
      if enable {
        scanning := true;
        log := log + [ScanStart(serviceUuid), Unity("OnScanStarted", Text(""))];
      } else {
        StopScan();
      }
    }

    /** Unlike the standalone scanner, this one checks neither the flag nor the scanner. */
    method StopScan()
      requires scannerPresent
      modifies this`scanning, this`log
      ensures !scanning && log == old(log) + [ScanStop]
    {
      scanning := false;
      log := log + [ScanStop];
    }

    method OnScanResult(device: Device)
      modifies this`deviceMap, this`discoveredDevices, this`log
      ensures deviceMap == Upsert(old(deviceMap), device)
      ensures discoveredDevices == old(discoveredDevices) + [EntryOf(device)]
      ensures log == old(log) + [Unity("UpdateDeviceList", DeviceItem(device))]
    {
      deviceMap := Upsert(deviceMap, device);
      log := log + [Unity("UpdateDeviceList", DeviceItem(device))];
      discoveredDevices := discoveredDevices + [EntryOf(device)];
    }

    method OnScanFailed(errorCode: int)
      modifies this`log
      ensures log == old(log) + [Unity("OnScanFailed", ErrorCode(errorCode))]
    {
      log := log + [Unity("OnScanFailed", ErrorCode(errorCode))];
    }

    method GetDiscoveredDeviceDetails() returns (details: seq<string>)
      ensures |details| == |discoveredDevices|
      ensures forall i | 0 <= i < |discoveredDevices| :: details[i] == DetailLine(discoveredDevices[i])
    {
      details := FormatDetails(discoveredDevices);
    }

    // ------------------------------------------------------------------ server

    /** The server is opened before advertising starts; advertising needs the advertiser. */
    method StartServer()
      requires advertiserPresent
      modifies this`serverOpen, this`serverValue, this`log
      ensures serverOpen && serverValue == None
      ensures log == old(log) + [OpenServer(serviceUuid, characteristicUuid), AdvertiseStart(serviceUuid)]
    {
      SetupGattServer();
      StartAdvertising();
    }

    method SetupGattServer()
      modifies this`serverOpen, this`serverValue, this`log
      ensures serverOpen && serverValue == None
      ensures log == old(log) + [OpenServer(serviceUuid, characteristicUuid)]
    {
      serverOpen := true;
      serverValue := None;
      log := log + [OpenServer(serviceUuid, characteristicUuid)];
    }

    method StartAdvertising()
      requires advertiserPresent
      modifies this`log
      ensures log == old(log) + [AdvertiseStart(serviceUuid)]
    {
      log := log + [AdvertiseStart(serviceUuid)];
    }

    /** Stops advertising, closes the server, and forgets both the device map and the connected centrals. */
    method StopServer()
      modifies this`advertiserPresent, this`serverOpen, this`deviceMap, this`connectedDevices, this`log
      ensures !advertiserPresent && !serverOpen && deviceMap == map[] && connectedDevices == []
      ensures log == old(log)
        + (if old(advertiserPresent) then [AdvertiseStop] else [])
        + (if old(serverOpen) then [CloseServer] else [])
    {
      StopAdvertising();
      StopGattServer();
      deviceMap := map[];
      connectedDevices := [];
    }

    method StopGattServer()
      modifies this`serverOpen, this`log
      ensures !serverOpen
      ensures log == old(log) + (if old(serverOpen) then [CloseServer] else [])
    {
      if !serverOpen {
        return;
      }
      log := log + [CloseServer];
      serverOpen := false;
    }

    method StopAdvertising()
      modifies this`advertiserPresent, this`log
      ensures !advertiserPresent
      ensures log == old(log) + (if old(advertiserPresent) then [AdvertiseStop] else [])
    {
      if advertiserPresent {
        log := log + [AdvertiseStop];
        advertiserPresent := false;
      }
    }

    method OnServerConnectionStateChange(device: Device, status: int, newState: int)
      modifies this`connectedDevices, this`log
      ensures newState == StateConnected ==>
        && connectedDevices == old(connectedDevices) + [device]
        && log == old(log) + [Unity("OnDeviceConnected", DeviceItem(device))]
      ensures newState == StateDisconnected ==>
        && connectedDevices == RemoveFirst(old(connectedDevices), device.address)
        && log == old(log) + [Unity("OnDeviceDisconnected", DeviceItem(device))]
      ensures newState != StateConnected && newState != StateDisconnected ==>
        connectedDevices == old(connectedDevices) && log == old(log)
    {
      if newState == StateConnected {
        connectedDevices := connectedDevices + [device];
        log := log + [Unity("OnDeviceConnected", DeviceItem(device))];
      } else if newState == StateDisconnected {
        connectedDevices := RemoveFirst(connectedDevices, device.address);
        log := log + [Unity("OnDeviceDisconnected", DeviceItem(device))];
      }
    }

    method OnCharacteristicReadRequest(device: Device, requestId: int, offset: int, characteristic: Uuid)
      requires characteristic == characteristicUuid ==> serverOpen
      modifies this`log
      ensures characteristic == characteristicUuid ==>
        log == old(log) + [SendResponse(device, requestId, offset, serverValue)]
      ensures characteristic != characteristicUuid ==> log == old(log)
    {
      if characteristic == characteristicUuid {
        log := log + [SendResponse(device, requestId, offset, serverValue)];
      }
    }

    /** Each write is stored, echoed when asked, and forwarded to the host whole: no reassembly. */
    method OnCharacteristicWriteRequest(device: Device, requestId: int, characteristic: Uuid,
                                        preparedWrite: bool, responseNeeded: bool, offset: int, value: string)
      requires characteristic == characteristicUuid && responseNeeded ==> serverOpen
      modifies this`serverValue, this`log
      ensures characteristic != characteristicUuid ==> serverValue == old(serverValue) && log == old(log)
      ensures characteristic == characteristicUuid ==>
        && serverValue == Some(value)
        && log == old(log)
          + (if responseNeeded then [SendResponse(device, requestId, offset, Some(value))] else [])
          + [Unity("OnDataReceivedFromClient", Text(value))]
    {
      if characteristic == characteristicUuid {
        serverValue := Some(value);
        if responseNeeded {
          log := log + [SendResponse(device, requestId, offset, Some(value))];
        }
        log := log + [Unity("OnDataReceivedFromClient", Text(value))];
      }
    }

    /** The whole message is stored once and notified to each connected central once, in list order. */
    method SendDataToClient(data: string)
      modifies this`serverValue, this`log
      ensures !serverOpen || data == [] ==> serverValue == old(serverValue) && log == old(log)
      ensures serverOpen && data != [] ==>
        serverValue == Some(data) && log == old(log) + NotifyEach(connectedDevices, data)
    {
      if !serverOpen || data == [] {
        return;
      }
      serverValue := Some(data);
      for i := 0 to |connectedDevices|
        invariant log == old(log) + NotifyEach(connectedDevices[..i], data)
      {
        assert connectedDevices[..i + 1][..i] == connectedDevices[..i];
        log := log + [Notify(connectedDevices[i], data)];
      }
      assert connectedDevices[..|connectedDevices|] == connectedDevices;
    }

    // ------------------------------------------------------------------ client

    method SendDataToServer(data: string)
      modifies this`log
      ensures link == None || data == [] ==> log == old(log)
      ensures link != None && data != [] ==> log == old(log) + [WriteCharacteristic(link.value, data)]
    {
      if link == None || data == [] {
        return;
      }
      log := log + [WriteCharacteristic(link.value, data)];
    }

    method ConnectToDevice(address: string)
      modifies this`link, this`deviceConnected, this`log
      ensures address in deviceMap ==>
        && link == Some(deviceMap[address]) && deviceConnected == Some(deviceMap[address])
        && log == old(log) + [ConnectGatt(deviceMap[address])]
      ensures address !in deviceMap ==>
        link == old(link) && deviceConnected == old(deviceConnected) && log == old(log)
    {
      if address in deviceMap {
        var device := deviceMap[address];
        log := log + [ConnectGatt(device)];
        link := Some(device);
        deviceConnected := Some(device);
      }
    }

    /** Without a link nothing happens; otherwise the link, the device map and the server's centrals are all dropped. */
    method StopClient()
      modifies this`link, this`deviceMap, this`connectedDevices, this`deviceConnected, this`log
      ensures link == None
      ensures log == old(log) + Teardown(old(link))
      ensures old(link).Some? ==> log == old(log) + [Disconnect(old(link).value), CloseLink(old(link).value)]
      ensures old(link) == None ==>
        deviceMap == old(deviceMap) && connectedDevices == old(connectedDevices) && deviceConnected == old(deviceConnected)
      ensures old(link) != None ==> deviceMap == map[] && connectedDevices == [] && deviceConnected == None
    {
      if link == None {
        return;
      }
      log := log + Teardown(link);
      link := None;
      deviceMap := map[];
      connectedDevices := [];
      deviceConnected := None;
    }

    method OnClientConnectionStateChange(peer: Device, status: int, newState: int)
      requires newState == StateConnected ==> link != None
      modifies this`log
      ensures newState == StateConnected ==>
        log == old(log) + [DiscoverServices(link.value), Unity("OnDeviceConnected", DeviceItem(peer))]
      ensures newState == StateDisconnected ==>
        log == old(log) + [Unity("OnDeviceDisconnected", DeviceItem(peer))]
      ensures newState != StateConnected && newState != StateDisconnected ==>
        log == old(log) + [Unity("onConnectionStateChange", StateReport(newState, status))]
    {
      if newState == StateConnected {
        log := log + [DiscoverServices(link.value), Unity("OnDeviceConnected", DeviceItem(peer))];
      } else if newState == StateDisconnected {
        log := log + [Unity("OnDeviceDisconnected", DeviceItem(peer))];
      } else {
        log := log + [Unity("onConnectionStateChange", StateReport(newState, status))];
      }
    }

    method OnServicesDiscovered(peer: Device, status: int, hasService: bool, hasCharacteristic: bool, hasDescriptor: bool)
      modifies this`log
      ensures log == old(log) + ServicesDiscovered(peer, status, hasService, hasCharacteristic, hasDescriptor)
    {
      log := log + ServicesDiscovered(peer, status, hasService, hasCharacteristic, hasDescriptor);
    }

    method OnCharacteristicChanged(peer: Device, characteristic: Uuid, value: string)
      modifies this`link, this`deviceMap, this`connectedDevices, this`deviceConnected, this`log
      ensures characteristic != characteristicUuid ==>
        && link == old(link) && deviceMap == old(deviceMap) && connectedDevices == old(connectedDevices)
        && deviceConnected == old(deviceConnected) && log == old(log)
      ensures characteristic == characteristicUuid && value == DisconnectCommand ==>
        && link == None
        && (old(link) == None ==>
              deviceMap == old(deviceMap) && connectedDevices == old(connectedDevices) && deviceConnected == old(deviceConnected))
        && (old(link) != None ==> deviceMap == map[] && connectedDevices == [] && deviceConnected == None)
        && log == old(log) + Teardown(old(link)) + [Unity("OnDeviceDisconnected", DeviceItem(peer))]
      ensures characteristic == characteristicUuid && value != DisconnectCommand ==>
        && link == old(link) && deviceMap == old(deviceMap) && connectedDevices == old(connectedDevices)
        && deviceConnected == old(deviceConnected)
        && log == old(log) + [Unity("OnDataReceivedFromServer", Text(value))]
    {
      if characteristic == characteristicUuid {
        if value == DisconnectCommand {
          StopClient();
          log := log + [Unity("OnDeviceDisconnected", DeviceItem(peer))];
        } else {
          log := log + [Unity("OnDataReceivedFromServer", Text(value))];
        }
      }
    }
  }
}
