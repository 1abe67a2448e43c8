/**
 * The legacy singleton (`BLEPluginManager`): fixed UUIDs, unchunked transfers,
 * address-prefixed client messages, a `msgFromClient` accumulator, and service
 * discovery that never disconnects.
 */
module ManagerLegacy {
  import opened Platform
  import opened Framing
  import opened Directory
  import opened Gatt

  /** The initial text of the public `msgFromClient` and `msgFromServer` fields. */
  const ClientSeed: string := "Client EPT :"
  const ServerSeed: string := "Server EPT :"

  /** The text forwarded to the host for one client write: `address + "|" + text`. */
  function ClientMessage(address: string, text: string): (r: string)
    ensures |r| == |address| + 1 + |text|
    ensures r[..|address|] == address && r[|address|] == '|' && r[|address| + 1..] == text
  {
    address + "|" + text
  }

  /** Position of the first `c` in `s`, or `|s|` when there is none. */
  function FirstIndex(s: string, c: char): (r: nat)
    ensures r <= |s|
    ensures r < |s| ==> s[r] == c
    ensures forall j | 0 <= j < r :: s[j] != c
  {
    if s == [] then 0
    else if s[0] == c then 0
    else 1 + FirstIndex(s[1..], c)
  }

  /**
   * When the address holds no '|' (a MAC address never does), the host can
   * split a forwarded message at its first '|' and get back the sender and the text.
   */
  lemma {:induction false} ClientMessageSplits(address: string, text: string)
    requires forall j | 0 <= j < |address| :: address[j] != '|'
    ensures var m := ClientMessage(address, text);
      var k := FirstIndex(m, '|');
      k == |address| && m[..k] == address && m[k + 1..] == text
    decreases |address|
  {
    var m := ClientMessage(address, text);
    if address != [] {
      assert m[1..] == ClientMessage(address[1..], text);
      ClientMessageSplits(address[1..], text);
    }
  }

  class BlePluginManager {
    /** `bluetoothLeScanner != null`; it is set once at initialisation. */
    const scannerPresent: bool
    var advertiserPresent: bool
    var serverOpen: bool
    var link: Option<Device>
    var scanning: bool
    var discoveredDevices: seq<DeviceEntry>
    var deviceMap: map<string, Device>
    var connectedDevices: seq<Device>
    var serverValue: Option<string>
    var msgFromClient: string
    const msgFromServer: string
    /** The texts of all client writes so far, in order. */
    ghost var clientTexts: seq<string>
    ghost var log: seq<Action>

    /** `msgFromClient` is its initial text followed by every client write, nothing ever removed. */
    ghost predicate Valid()
      reads this
    {
      msgFromClient == ClientSeed + Concat(clientTexts)
    }

    /** `getInstance()` followed by `initBLEPlugin`; without an adapter there is neither scanner nor advertiser. */
    constructor (adapterPresent: bool, scannerAvailable: bool, advertiserAvailable: bool)
      ensures Valid() && clientTexts == []
      ensures scannerPresent == (adapterPresent && scannerAvailable)
      ensures advertiserPresent == (adapterPresent && advertiserAvailable)
      ensures !serverOpen && link == None && !scanning && serverValue == None
      ensures discoveredDevices == [] && deviceMap == map[] && connectedDevices == []
      ensures msgFromClient == ClientSeed && msgFromServer == ServerSeed && log == []
    {
      scannerPresent := adapterPresent && scannerAvailable;
      advertiserPresent := adapterPresent && advertiserAvailable;
      serverOpen := false;
      link := None;
      scanning := false;
      discoveredDevices := [];
      deviceMap := map[];
      connectedDevices := [];
      serverValue := None;
      msgFromClient := ClientSeed;
      msgFromServer := ServerSeed;
      clientTexts := [];
      log := [];
    }

    // ---------------------------------------------------------------- scanning

    /** Scans without clearing anything and without checking for a scanner. */
    method StartScan()
      requires scannerPresent
      modifies this`scanning, this`log
      ensures scanning
      ensures log == old(log) + [ScanStart(DefaultServiceUuid), Unity("OnScanStarted", Text(""))]
    {
      ScanLeDevice(true);
    }

    method ScanLeDevice(enable: bool)
      requires scannerPresent
      modifies this`scanning, this`log
      ensures scanning == enable
      ensures enable ==> log == old(log) + [ScanStart(DefaultServiceUuid), Unity("OnScanStarted", Text(""))]
      ensures !enable ==> log == old(log) + [ScanStop]
    {
      if enable {
        scanning := true;
        log := log + [ScanStart(DefaultServiceUuid), Unity("OnScanStarted", Text(""))];
      } else {
        StopScan();
      }
    }

    method StopScan()
      requires scannerPresent
      modifies this`scanning, this`log
      ensures !scanning && log == old(log) + [ScanStop]
    {
      scanning := false;
      log := log + [ScanStop];
    }

    /** The host gets the "name - address" text here, not the JSON the other variants send. */
    method OnScanResult(device: Device)
      modifies this`deviceMap, this`discoveredDevices, this`log
      ensures deviceMap == Upsert(old(deviceMap), device)
      ensures discoveredDevices == old(discoveredDevices) + [EntryOf(device)]
      ensures log == old(log) + [Unity("UpdateDeviceList", Text(DetailLine(EntryOf(device))))]
    {
      deviceMap := Upsert(deviceMap, device);
      log := log + [Unity("UpdateDeviceList", Text(DetailLine(EntryOf(device))))];
      discoveredDevices := discoveredDevices + [EntryOf(device)];
    }

    method OnScanFailed(errorCode: int)
      modifies this`log
      ensures log == old(log) + [Unity("OnScanFailed", ErrorCode(errorCode))]
    {
      log := log + [Unity("OnScanFailed", ErrorCode(errorCode))];
    }

    method GetDiscoveredDeviceDetails() returns (details: seq<string>)
      ensures |details| == |discoveredDevices|
      ensures forall i | 0 <= i < |discoveredDevices| :: details[i] == DetailLine(discoveredDevices[i])
    {
      details := FormatDetails(discoveredDevices);
    }

    // ------------------------------------------------------------------ server

    method StartServer()
      requires advertiserPresent
      modifies this`serverOpen, this`serverValue, this`log
      ensures serverOpen && serverValue == None
      ensures log == old(log) + [OpenServer(DefaultServiceUuid, DefaultCharacteristicUuid), AdvertiseStart(DefaultServiceUuid)]
    {
      SetupGattServer();
      StartAdvertising();
    }

    method SetupGattServer()
      modifies this`serverOpen, this`serverValue, this`log
      ensures serverOpen && serverValue == None
      ensures log == old(log) + [OpenServer(DefaultServiceUuid, DefaultCharacteristicUuid)]
    {
      serverOpen := true;
      serverValue := None;
      log := log + [OpenServer(DefaultServiceUuid, DefaultCharacteristicUuid)];
    }

    method StartAdvertising()
      requires advertiserPresent
      modifies this`log
      ensures log == old(log) + [AdvertiseStart(DefaultServiceUuid)]
    {
      log := log + [AdvertiseStart(DefaultServiceUuid)];
    }

    /** Stops advertising and closes the server; the connected centrals are kept. */
    method StopServer()
      modifies this`advertiserPresent, this`serverOpen, this`log
      ensures !advertiserPresent && !serverOpen
      ensures log == old(log)
        + (if old(advertiserPresent) then [AdvertiseStop] else [])
        + (if old(serverOpen) then [CloseServer] else [])
    {
      StopAdvertising();
      StopGattServer();
    }

    method StopGattServer()
      modifies this`serverOpen, this`log
      ensures !serverOpen
      ensures log == old(log) + (if old(serverOpen) then [CloseServer] else [])
    {
      if !serverOpen {
        return;
      }
      log := log + [CloseServer];
      serverOpen := false;
    }

    method StopAdvertising()
      modifies this`advertiserPresent, this`log
      ensures !advertiserPresent
      ensures log == old(log) + (if old(advertiserPresent) then [AdvertiseStop] else [])
    {
      if advertiserPresent {
        log := log + [AdvertiseStop];
        advertiserPresent := false;
      }
    }

    /** The host is told the central's address only. */
    method OnServerConnectionStateChange(device: Device, status: int, newState: int)
      modifies this`connectedDevices, this`log
      ensures newState == StateConnected ==>
        && connectedDevices == old(connectedDevices) + [device]
        && log == old(log) + [Unity("OnDeviceConnected", Text(device.address))]
      ensures newState == StateDisconnected ==>
        && connectedDevices == RemoveFirst(old(connectedDevices), device.address)
        && log == old(log) + [Unity("OnDeviceDisconnected", Text(device.address))]
      ensures newState != StateConnected && newState != StateDisconnected ==>
        connectedDevices == old(connectedDevices) && log == old(log)
    {
      if newState == StateConnected {
        connectedDevices := connectedDevices + [device];
        log := log + [Unity("OnDeviceConnected", Text(device.address))];
      } else if newState == StateDisconnected {
        connectedDevices := RemoveFirst(connectedDevices, device.address);
        log := log + [Unity("OnDeviceDisconnected", Text(device.address))];
      }
    }

    method OnCharacteristicReadRequest(device: Device, requestId: int, offset: int, characteristic: Uuid)
      requires characteristic == DefaultCharacteristicUuid ==> serverOpen
      modifies this`log
      ensures characteristic == DefaultCharacteristicUuid ==>
        log == old(log) + [SendResponse(device, requestId, offset, serverValue)]
      ensures characteristic != DefaultCharacteristicUuid ==> log == old(log)
    {
      if characteristic == DefaultCharacteristicUuid {
        log := log + [SendResponse(device, requestId, offset, serverValue)];
      }
    }

    /**
     * Each write is stored, echoed when asked, appended to `msgFromClient`, and
     * forwarded to the host prefixed with the sender's address.
     */
    method OnCharacteristicWriteRequest(device: Device, requestId: int, characteristic: Uuid,
                                        preparedWrite: bool, responseNeeded: bool, offset: int, value: string)
      requires Valid()
      requires characteristic == DefaultCharacteristicUuid && responseNeeded ==> serverOpen
      modifies this`serverValue, this`msgFromClient, this`clientTexts, this`log
      ensures Valid()
      ensures old(msgFromClient) <= msgFromClient
      ensures characteristic != DefaultCharacteristicUuid ==>
        serverValue == old(serverValue) && msgFromClient == old(msgFromClient)
        && clientTexts == old(clientTexts) && log == old(log)
      ensures characteristic == DefaultCharacteristicUuid ==>
        && serverValue == Some(value)
        && msgFromClient == old(msgFromClient) + value
        && clientTexts == old(clientTexts) + [value]
        && log == old(log)
          + (if responseNeeded then [SendResponse(device, requestId, offset, Some(value))] else [])
          + [Unity("OnDataReceivedFromClient", Text(ClientMessage(device.address, value)))]
    {
      if characteristic == DefaultCharacteristicUuid {
        serverValue := Some(value);
        if responseNeeded {
          log := log + [SendResponse(device, requestId, offset, Some(value))];
        }
        ConcatAppend(clientTexts, [value]);
        assert Concat([value]) == value + Concat([]);
        msgFromClient := msgFromClient + value;
        clientTexts := clientTexts + [value];
        log := log + [Unity("OnDataReceivedFromClient", Text(ClientMessage(device.address, value)))];
      }
    }

    method SendDataToClient(data: string)
      modifies this`serverValue, this`log
      ensures !serverOpen || data == [] ==> serverValue == old(serverValue) && log == old(log)
      ensures serverOpen && data != [] ==>
        serverValue == Some(data) && log == old(log) + NotifyEach(connectedDevices, data)
    {
      if !serverOpen || data == [] {
        return;
      }
      serverValue := Some(data);
      for i := 0 to |connectedDevices|
        invariant log == old(log) + NotifyEach(connectedDevices[..i], data)
      {
        assert connectedDevices[..i + 1][..i] == connectedDevices[..i];
        log := log + [Notify(connectedDevices[i], data)];
      }
      assert connectedDevices[..|connectedDevices|] == connectedDevices;
    }

    // ------------------------------------------------------------------ client

    method SendDataToServer(data: string)
      modifies this`log
      ensures link == None || data == [] ==> log == old(log)
      ensures link != None && data != [] ==> log == old(log) + [WriteCharacteristic(link.value, data)]
    {
      if link == None || data == [] {
        return;
      }
      log := log + [WriteCharacteristic(link.value, data)];
    }

    /**
     * The guard tests the address against itself, so the lookup always runs.
     * For an unknown address the lookup yields null and the connect call
     * throws: `linked` is false and nothing changes.
     */
    method ConnectToDevice(address: string) returns (linked: bool)
      modifies this`link, this`log
      ensures linked <==> address in deviceMap
      ensures linked ==> link == Some(deviceMap[address]) && log == old(log) + [ConnectGatt(deviceMap[address])]
      ensures !linked ==> link == old(link) && log == old(log)
    {
      ContainsSelf(address);
      if Contains(address, address) {
        if address in deviceMap {
          var device := deviceMap[address];
          log := log + [ConnectGatt(device)];
          link := Some(device);
          linked := true;
        } else {
          linked := false;
        }
      } else {
        assert false;
      }
    }

    /** Two branches only: any other state is ignored. */
    method OnClientConnectionStateChange(peer: Device, status: int, newState: int)
      requires newState == StateConnected ==> link != None
      modifies this`log
      ensures newState == StateConnected ==>
        log == old(log) + [DiscoverServices(link.value), Unity("OnDeviceConnected", Text(peer.address))]
      ensures newState == StateDisconnected ==>
        log == old(log) + [Unity("OnDeviceDisconnected", Text(peer.address))]
      ensures newState != StateConnected && newState != StateDisconnected ==> log == old(log)
    {
      if newState == StateConnected {
        log := log + [DiscoverServices(link.value), Unity("OnDeviceConnected", Text(peer.address))];
      } else if newState == StateDisconnected {
        log := log + [Unity("OnDeviceDisconnected", Text(peer.address))];
      }
    }

    method OnServicesDiscovered(peer: Device, status: int, hasService: bool, hasCharacteristic: bool, hasDescriptor: bool)
      modifies this`log
      ensures log == old(log) + LegacyServicesDiscovered(peer, status, hasService, hasCharacteristic, hasDescriptor)
    {
      log := log + LegacyServicesDiscovered(peer, status, hasService, hasCharacteristic, hasDescriptor);
    }

    /** Every change of the characteristic is forwarded; there is no control text. */
    method OnCharacteristicChanged(peer: Device, characteristic: Uuid, value: string)
      modifies this`log
      ensures characteristic == DefaultCharacteristicUuid ==>
        log == old(log) + [Unity("OnDataReceivedFromServer", Text(value))]
      ensures characteristic != DefaultCharacteristicUuid ==> log == old(log)
    {
      if characteristic == DefaultCharacteristicUuid {
        log := log + [Unity("OnDataReceivedFromServer", Text(value))];
      }
    }
  }
}
