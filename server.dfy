/**
 * The standalone GATT server (`BluetoothServer`): advertising, the served
 * characteristic, the list of connected centrals, the reassembly buffer for
 * chunked writes, and the chunked notification of outgoing messages.
 */
module Server {
  import opened Platform
  import opened Framing
  import opened Directory

  class BluetoothServer {
    /** `bluetoothLeAdvertiser != null`. */
    var advertiserPresent: bool
    /** `bluetoothGattServer != null`. */
    var serverOpen: bool
    var connectedDevices: seq<Device>
    /** The server callback's own reassembly buffer; the one shadowed at class level is never used. */
    var receivedData: string
    /** The value stored in the served characteristic (`getValue()` is null until something is sent). */
    var characteristicValue: Option<string>
    /** Every call into the Bluetooth stack and the Unity host, in order. */
    ghost var log: seq<Action>

    /** A complete message never stays in the buffer: it is delivered at the write that completes it. */
    ghost predicate Valid()
      reads this
    {
      !Contains(receivedData, EndMarker)
    }

    /** `advertiserAvailable` is whether the adapter handed out an advertiser. */
    constructor (advertiserAvailable: bool)
      ensures Valid()
      ensures advertiserPresent == advertiserAvailable && !serverOpen
      ensures connectedDevices == [] && receivedData == [] && characteristicValue == None && log == []
    {
      advertiserPresent := advertiserAvailable;
      serverOpen := false;
      connectedDevices := [];
      receivedData := [];
      characteristicValue := None;
      log := [];
    }

    /** Advertising first, then the server; a stopped server has dropped its advertiser, so restarting it fails. */
    method StartServer()
      requires advertiserPresent
      modifies this`serverOpen, this`characteristicValue, this`log
      ensures serverOpen && characteristicValue == None
      ensures log == old(log) + [AdvertiseStart(DefaultServiceUuid), OpenServer(DefaultServiceUuid, DefaultCharacteristicUuid)]
    {
      StartAdvertising();
      SetupGattServer();
    }

    method StartAdvertising()
      requires advertiserPresent
      modifies this`log
      ensures log == old(log) + [AdvertiseStart(DefaultServiceUuid)]
    {
      log := log + [AdvertiseStart(DefaultServiceUuid)];
    }

    /** A fresh characteristic, with no value, in a freshly opened server. */
    method SetupGattServer()
      modifies this`serverOpen, this`characteristicValue, this`log
      ensures serverOpen && characteristicValue == None
      ensures log == old(log) + [OpenServer(DefaultServiceUuid, DefaultCharacteristicUuid)]
    {
      serverOpen := true;
      characteristicValue := None;
      log := log + [OpenServer(DefaultServiceUuid, DefaultCharacteristicUuid)];
    }

    /** Closes the server, stops advertising and forgets the connected centrals; the reassembly buffer survives. */
    method StopServer()
      modifies this`serverOpen, this`advertiserPresent, this`connectedDevices, this`log
      ensures !serverOpen && !advertiserPresent && connectedDevices == []
      ensures log == old(log)
        + (if old(serverOpen) then [CloseServer] else [])
        + (if old(advertiserPresent) then [AdvertiseStop] else [])
    {
      StopGattServer();
      StopAdvertising();
      ResetServer();
    }

    method StopGattServer()
      modifies this`serverOpen, this`log
      ensures !serverOpen
      ensures log == old(log) + (if old(serverOpen) then [CloseServer] else [])
    {
      if !serverOpen {
        return;
      }
      log := log + [CloseServer];
      serverOpen := false;
    }

    method StopAdvertising()
      modifies this`advertiserPresent, this`log
      ensures !advertiserPresent
      ensures log == old(log) + (if old(advertiserPresent) then [AdvertiseStop] else [])
    {
      if advertiserPresent {
        log := log + [AdvertiseStop];
        advertiserPresent := false;
      }
    }

    method ResetServer()
      modifies this`connectedDevices
      ensures connectedDevices == []
    {
      connectedDevices := [];
    }

    /**
     * A central connects (appended, duplicates kept) or disconnects (its first
     * entry removed); any other state changes nothing.
     */
    method OnConnectionStateChange(device: Device, status: int, newState: int)
      modifies this`connectedDevices, this`log
      ensures newState == StateConnected ==>
        && connectedDevices == old(connectedDevices) + [device]
        && log == old(log) + [Unity("OnDeviceConnected", DeviceItem(device))]
      ensures newState == StateDisconnected ==>
        && connectedDevices == RemoveFirst(old(connectedDevices), device.address)
        && log == old(log) + [Unity("OnDeviceDisconnected", DeviceItem(device))]
      ensures newState != StateConnected && newState != StateDisconnected ==>
        connectedDevices == old(connectedDevices) && log == old(log)
    {
      if newState == StateConnected {
        connectedDevices := connectedDevices + [device];
        log := log + [Unity("OnDeviceConnected", DeviceItem(device))];
      } else if newState == StateDisconnected {
        connectedDevices := RemoveFirst(connectedDevices, device.address);
        log := log + [Unity("OnDeviceDisconnected", DeviceItem(device))];
      }
    }

    /** A read of the served characteristic is answered with its current value. */
    method OnCharacteristicReadRequest(device: Device, requestId: int, offset: int, characteristic: Uuid)
      requires characteristic == DefaultCharacteristicUuid ==> serverOpen
      modifies this`log
      ensures characteristic == DefaultCharacteristicUuid ==>
        log == old(log) + [SendResponse(device, requestId, offset, characteristicValue)]
      ensures characteristic != DefaultCharacteristicUuid ==> log == old(log)
    {
      if characteristic == DefaultCharacteristicUuid {
        log := log + [SendResponse(device, requestId, offset, characteristicValue)];
      }
    }

    /**
     * A write to the served characteristic is appended to the buffer; once the
     * buffer holds the end marker, every marker is cut out, the rest goes to the
     * host as one message and the buffer is emptied. The write is echoed back
     * when the central asked for a response.
     */
    method OnCharacteristicWriteRequest(device: Device, requestId: int, characteristic: Uuid,
                                        preparedWrite: bool, responseNeeded: bool, offset: int, value: string)
      requires Valid()
      requires characteristic == DefaultCharacteristicUuid && responseNeeded ==> serverOpen
      modifies this`receivedData, this`log
      ensures Valid()
      ensures characteristic != DefaultCharacteristicUuid ==> receivedData == old(receivedData) && log == old(log)
      ensures characteristic == DefaultCharacteristicUuid ==>
        var step := Feed(old(receivedData), value);
        && receivedData == step.buffer
        && log == old(log)
          + (if step.messages == [] then [] else [Unity("OnDataReceivedFromClient", Text(step.messages[0]))])
          + (if responseNeeded then [SendResponse(device, requestId, offset, Some(value))] else [])
    {
      if characteristic == DefaultCharacteristicUuid {
        receivedData := receivedData + value;
        if Contains(receivedData, EndMarker) {
          var completeMessage := RemoveAll(receivedData, EndMarker);
          receivedData := [];
          log := log + [Unity("OnDataReceivedFromClient", Text(completeMessage))];
        }
        if responseNeeded {
          log := log + [SendResponse(device, requestId, offset, Some(value))];
        }
      }
    }

    /**
     * Sends `data` followed by the end marker in packets of `ChunkSize`
     * characters: each packet is stored in the characteristic and notified to
     * every connected central before the next one.
     */
    method SendDataToClient(data: string)
      modifies this`characteristicValue, this`log
      ensures !serverOpen || data == [] ==> characteristicValue == old(characteristicValue) && log == old(log)
      ensures serverOpen && data != [] ==>
        var packets := Chunks(data + EndMarker, ChunkSize);
        && characteristicValue == Some(packets[|packets| - 1])
        && log == old(log) + FanOut(packets, connectedDevices)
    {
      if !serverOpen || data == [] {
        return;
      }
      SendPackets(data + EndMarker);
    }

    /** The packet loop of `SendDataToClient`, over the message with its end marker. */
    method SendPackets(fullMessage: string)
      requires fullMessage != []
      modifies this`characteristicValue, this`log
      ensures var packets := Chunks(fullMessage, ChunkSize);
        && characteristicValue == Some(packets[|packets| - 1])
        && log == old(log) + FanOut(packets, connectedDevices)
    {
      var offset := 0;
      ghost var sent: seq<string> := [];
      while offset < |fullMessage|
        invariant 0 <= offset <= |fullMessage|
        invariant Chunks(fullMessage, ChunkSize) == sent + Chunks(fullMessage[offset..], ChunkSize)
        invariant offset == 0 <==> sent == []
        invariant sent != [] ==> characteristicValue == Some(sent[|sent| - 1])
        invariant log == old(log) + FanOut(sent, connectedDevices)
        decreases |fullMessage| - offset
      {
        var end := Min(offset + ChunkSize, |fullMessage|);
        var packet := fullMessage[offset..end];
        characteristicValue := Some(packet);
        NotifyAll(packet);
        ChunksAdvance(fullMessage, offset, ChunkSize, sent);
        FanOutSnoc(old(log), sent, packet, connectedDevices);
        sent := sent + [packet];
        offset := end;
      }
      assert Chunks(fullMessage[offset..], ChunkSize) == [];
      assert sent + [] == sent;
    }

    /** `notifyCharacteristicChanged` to every connected central, in list order. */
    method NotifyAll(packet: string)
      modifies this`log
      ensures log == old(log) + NotifyEach(connectedDevices, packet)
    {
      for i := 0 to |connectedDevices|
        invariant log == old(log) + NotifyEach(connectedDevices[..i], packet)
      {
        assert connectedDevices[..i + 1][..i] == connectedDevices[..i];
        log := log + [Notify(connectedDevices[i], packet)];
      }
      assert connectedDevices[..|connectedDevices|] == connectedDevices;
    }
  }
}
