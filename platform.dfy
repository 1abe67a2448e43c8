/**
 * Values the plugin exchanges with the Android Bluetooth stack and with the
 * Unity host. Every call into the platform or the host is recorded as one
 * `Action`; the classes of the model append these to a ghost log, so the order
 * of calls and "nothing else happens" can be stated.
 */
module Platform {

  datatype Option<+T> = None | Some(value: T)

  type Uuid = string

  /** The UUIDs the legacy manager fixes and the standalone server and client reuse. */
  const DefaultServiceUuid: Uuid := "0000180d-0000-1000-8000-00805f9b34fb"
  const DefaultCharacteristicUuid: Uuid := "00002a37-0000-1000-8000-00805f9b34fb"

  /**
   * The Client Characteristic Configuration descriptor (0x2902, Bluetooth Core
   * Specification Vol 3 Part G, section 3.3.3.3) and the value that enables
   * notifications on it.
   */
  const CccdUuid: Uuid := "00002902-0000-1000-8000-00805f9b34fb"
  const EnableNotificationValue: seq<bv8> := [0x01, 0x00]

  /** BluetoothProfile connection states and the GATT success status. */
  const StateDisconnected: int := 0
  const StateConnected: int := 2
  const GattSuccess: int := 0

  /** A peer as the platform reports it; `getName()` may be null. */
  datatype Device = Device(address: string, name: Option<string>)

  /** The payload of a message to the Unity host. `DeviceItem` stands for the JSON text of a device. */
  datatype Payload =
    | Text(text: string)
    | DeviceItem(device: Device)
    | StateReport(newState: int, status: int)
    | ErrorCode(code: int)

  datatype Action =
    | AdvertiseStart(service: Uuid)
    | AdvertiseStop
    | OpenServer(service: Uuid, characteristic: Uuid)
    | CloseServer
    | ScanStart(service: Uuid)
    | ScanStop
    | ConnectGatt(peer: Device)
    | DiscoverServices(peer: Device)
    | Disconnect(peer: Device)
    | CloseLink(peer: Device)
    | SetNotification(peer: Device, enable: bool)
    | WriteDescriptor(peer: Device, descriptor: Uuid, bytes: seq<bv8>)
    | WriteCharacteristic(peer: Device, value: string)
    | Notify(peer: Device, value: string)
    | SendResponse(peer: Device, requestId: int, offset: int, response: Option<string>)
    | Unity(target: string, payload: Payload)

  /** One notification of `value` to each peer, in list order. */
  function NotifyEach(peers: seq<Device>, value: string): (r: seq<Action>)
    ensures |r| == |peers|
    ensures forall i :: 0 <= i < |peers| ==> r[i] == Notify(peers[i], value)
  {
    if peers == [] then []
    else NotifyEach(peers[..|peers| - 1], value) + [Notify(peers[|peers| - 1], value)]
  }

  /** Every packet notified to every peer: packet by packet, and within one packet peer by peer. */
  function FanOut(packets: seq<string>, peers: seq<Device>): (r: seq<Action>)
    ensures forall a | a in r :: a.Notify? && a.peer in peers && a.value in packets
  {
    if packets == [] then []
    else FanOut(packets[..|packets| - 1], peers) + NotifyEach(peers, packets[|packets| - 1])
  }

  lemma MulSucc(a: nat, m: nat)
    ensures (a + 1) * m == a * m + m
  {
  }

  /** One notification per packet and peer. */
  lemma {:induction false} FanOutLength(packets: seq<string>, peers: seq<Device>)
    ensures |FanOut(packets, peers)| == |packets| * |peers|
  {
    if packets != [] {
      var n, m := |packets|, |peers|;
      FanOutLength(packets[..n - 1], peers);
      MulSucc(n - 1, m);
    }
  }

  /** Sending one more packet appends one round of notifications. */
  lemma FanOutSnoc(before: seq<Action>, packets: seq<string>, packet: string, peers: seq<Device>)
    ensures before + FanOut(packets + [packet], peers) == before + FanOut(packets, peers) + NotifyEach(peers, packet)
  {
    assert (packets + [packet])[..|packets|] == packets;
    var a, b := FanOut(packets, peers), NotifyEach(peers, packet);
    assert FanOut(packets + [packet], peers) == a + b;
    assert before + (a + b) == before + a + b;
  }

  /** The notification at position `k * |peers| + i` of a fan-out is packet `k` sent to peer `i`. */
  lemma {:induction false} FanOutAt(packets: seq<string>, peers: seq<Device>, k: nat, i: nat)
    requires k < |packets| && i < |peers|
    ensures k * |peers| + i < |FanOut(packets, peers)|
    ensures FanOut(packets, peers)[k * |peers| + i] == Notify(peers[i], packets[k])
  {
    var n, m := |packets|, |peers|;
    var init := packets[..n - 1];
    var c := |FanOut(init, peers)|;
    FanOutLength(init, peers);
    assert c == (n - 1) * m;
    if k == n - 1 {
      assert k * m == c;
    } else {
      FanOutAt(init, peers, k, i);
      assert init[k] == packets[k];
    }
  }
}
