/**
 * The standalone GATT client (`BluetoothClient`): one link to a server, the
 * subscription made once services are discovered, and the forwarding of
 * notified values to the host, with "DisconnectClient" as a control message.
 */
module Client {
  import opened Platform
  import opened Framing
  import opened Gatt

  class BluetoothClient {
    /** The open link (`bluetoothGatt`), given by the peer it was opened to. */
    var link: Option<Device>
    /** Looked up by `ConnectToDevice`; nothing in this class ever inserts into it. */
    var deviceMap: map<string, Device>
    var deviceConnected: Option<Device>
    ghost var log: seq<Action>

    constructor ()
      ensures link == None && deviceMap == map[] && deviceConnected == None && log == []
    {
      link := None;
      deviceMap := map[];
      deviceConnected := None;
      log := [];
    }

    /** Tears the link down and forgets the devices; without a link nothing happens. */
    method StopClient()
      modifies this`link, this`deviceMap, this`deviceConnected, this`log
      ensures link == None
      ensures log == old(log) + Teardown(old(link))
      ensures old(link).Some? ==> log == old(log) + [Disconnect(old(link).value), CloseLink(old(link).value)]
      ensures old(link) == None ==> deviceMap == old(deviceMap) && deviceConnected == old(deviceConnected)
      ensures old(link) != None ==> deviceMap == map[] && deviceConnected == None
    {
      if link == None {
        return;
      }
      log := log + Teardown(link);
      link := None;
      deviceMap := map[];
      deviceConnected := None;
    }

    /** One unchunked characteristic write of `data`; nothing without a link or with empty data. */
    method SendDataToServer(data: string)
      modifies this`log
      ensures link == None || data == [] ==> log == old(log)
      ensures link != None && data != [] ==> log == old(log) + [WriteCharacteristic(link.value, data)]
    {
      if link == None || data == [] {
        return;
      }
      log := log + [WriteCharacteristic(link.value, data)];
    }

    /** Opens a link to a known address; an unknown address changes nothing. */
    method ConnectToDevice(address: string)
      modifies this`link, this`deviceConnected, this`log
      ensures address in deviceMap ==>
        && link == Some(deviceMap[address]) && deviceConnected == Some(deviceMap[address])
        && log == old(log) + [ConnectGatt(deviceMap[address])]
      ensures address !in deviceMap ==>
        link == old(link) && deviceConnected == old(deviceConnected) && log == old(log)
    {
      if address in deviceMap {
        var device := deviceMap[address];
        log := log + [ConnectGatt(device)];
        link := Some(device);
        deviceConnected := Some(device);
      }
    }

    /**
     * A connected link starts service discovery, then the host hears of the
     * peer; a disconnection is only reported; any other state is reported with
     * its numbers.
     */
    method OnConnectionStateChange(peer: Device, status: int, newState: int)
      requires newState == StateConnected ==> link != None
      modifies this`log
      ensures newState == StateConnected ==>
        log == old(log) + [DiscoverServices(link.value), Unity("OnDeviceConnected", DeviceItem(peer))]
      ensures newState == StateDisconnected ==>
        log == old(log) + [Unity("OnDeviceDisconnected", DeviceItem(peer))]
      ensures newState != StateConnected && newState != StateDisconnected ==>
        log == old(log) + [Unity("onConnectionStateChange", StateReport(newState, status))]
    {
      if newState == StateConnected {
        log := log + [DiscoverServices(link.value), Unity("OnDeviceConnected", DeviceItem(peer))];
      } else if newState == StateDisconnected {
        log := log + [Unity("OnDeviceDisconnected", DeviceItem(peer))];
      } else {
        log := log + [Unity("onConnectionStateChange", StateReport(newState, status))];
      }
    }

    method OnServicesDiscovered(peer: Device, status: int, hasService: bool, hasCharacteristic: bool, hasDescriptor: bool)
      modifies this`log
      ensures log == old(log) + ServicesDiscovered(peer, status, hasService, hasCharacteristic, hasDescriptor)
    {
      log := log + ServicesDiscovered(peer, status, hasService, hasCharacteristic, hasDescriptor);
    }

    /**
     * A notified value of the served characteristic goes to the host as it
     * is, packet by packet and marker included; the exact text
     * "DisconnectClient" instead stops the client and reports the peer as
     * disconnected.
     */
    method OnCharacteristicChanged(peer: Device, characteristic: Uuid, value: string)
      modifies this`link, this`deviceMap, this`deviceConnected, this`log
      ensures characteristic != DefaultCharacteristicUuid ==>
        link == old(link) && deviceMap == old(deviceMap) && deviceConnected == old(deviceConnected) && log == old(log)
      ensures characteristic == DefaultCharacteristicUuid && value == DisconnectCommand ==>
        && link == None
        && (old(link) == None ==> deviceMap == old(deviceMap) && deviceConnected == old(deviceConnected))
        && (old(link) != None ==> deviceMap == map[] && deviceConnected == None)
        && log == old(log) + Teardown(old(link)) + [Unity("OnDeviceDisconnected", DeviceItem(peer))]
      ensures characteristic == DefaultCharacteristicUuid && value != DisconnectCommand ==>
        && link == old(link) && deviceMap == old(deviceMap) && deviceConnected == old(deviceConnected)
        && log == old(log) + [Unity("OnDataReceivedFromServer", Text(value))]
    {
      if characteristic == DefaultCharacteristicUuid {
        if value == DisconnectCommand {
          StopClient();
          log := log + [Unity("OnDeviceDisconnected", DeviceItem(peer))];
        } else {
          log := log + [Unity("OnDataReceivedFromServer", Text(value))];
        }
      }
    }
  }

  /**
   * No packet the standalone server cuts from a message is the control text:
   * every packet but the last is 20 characters long, and the last one ends
   * with the end marker's final 'G'. A chunked message can therefore never
   * make this client disconnect.
   */
  lemma DisconnectCommandNeverFramed(data: string)
    ensures forall k | 0 <= k < |Chunks(data + EndMarker, ChunkSize)| ::
      Chunks(data + EndMarker, ChunkSize)[k] != DisconnectCommand
  {
    var full := data + EndMarker;
    var packets := Chunks(full, ChunkSize);
    forall k | 0 <= k < |packets|
      ensures packets[k] != DisconnectCommand
    {
      if k < |packets| - 1 {
        assert |packets[k]| == 20 != |DisconnectCommand|;
      } else {
        ChunkAt(full, ChunkSize, k);
        ChunksCountBounds(full, ChunkSize);
        var p := packets[k];
        assert p == full[k * ChunkSize..];
        assert p[|p| - 1] == full[|full| - 1] == 'G';
        assert DisconnectCommand[|DisconnectCommand| - 1] == 't';
      }
    }
  }
}
