/**
 * The client-side link decisions the managers share: what a finished service
 * discovery leads to, and what tearing a link down asks of the platform.
 */
module Gatt {
  import opened Platform

  /** The control text a server sends to make the client drop its link. */
  const DisconnectCommand: string := "DisconnectClient"

  /** Writing ENABLE_NOTIFICATION_VALUE into the peer's 0x2902 descriptor. */
  function EnableDescriptor(peer: Device): Action
  {
    WriteDescriptor(peer, CccdUuid, EnableNotificationValue)
  }

  /**
   * `onServicesDiscovered` of the standalone client and the merged manager.
   * A failed discovery does nothing; a missing service, characteristic or
   * 0x2902 descriptor ends in exactly one `disconnect`; when all are there the
   * client turns notifications on and writes the descriptor.
   */
  function ServicesDiscovered(peer: Device, status: int, hasService: bool, hasCharacteristic: bool, hasDescriptor: bool): (r: seq<Action>)
    ensures status != GattSuccess ==> r == []
    ensures Disconnect(peer) in r <==> status == GattSuccess && !(hasService && hasCharacteristic && hasDescriptor)
    ensures EnableDescriptor(peer) in r <==> status == GattSuccess && hasService && hasCharacteristic && hasDescriptor
    ensures SetNotification(peer, true) in r <==> status == GattSuccess && hasService && hasCharacteristic
    ensures multiset(r)[Disconnect(peer)] <= 1
    ensures forall a | a in r :: a == SetNotification(peer, true) || a == EnableDescriptor(peer) || a == Disconnect(peer)
    ensures r != [] ==> r[|r| - 1] == Disconnect(peer) || r[|r| - 1] == EnableDescriptor(peer)
  {
    if status != GattSuccess then []
    else if !hasService then [Disconnect(peer)]
    else if !hasCharacteristic then [Disconnect(peer)]
    else if !hasDescriptor then [SetNotification(peer, true), Disconnect(peer)]
    else [SetNotification(peer, true), EnableDescriptor(peer)]
  }

  /** `onServicesDiscovered` of the legacy manager: the same checks, but it never disconnects. */
  function LegacyServicesDiscovered(peer: Device, status: int, hasService: bool, hasCharacteristic: bool, hasDescriptor: bool): (r: seq<Action>)
    ensures Disconnect(peer) !in r
    ensures EnableDescriptor(peer) in r <==> status == GattSuccess && hasService && hasCharacteristic && hasDescriptor
    ensures SetNotification(peer, true) in r <==> status == GattSuccess && hasService && hasCharacteristic
    ensures forall a | a in r :: a == SetNotification(peer, true) || a == EnableDescriptor(peer)
  {
    if status == GattSuccess && hasService && hasCharacteristic then
      if hasDescriptor then [SetNotification(peer, true), EnableDescriptor(peer)]
      else [SetNotification(peer, true)]
    else []
  }

  /** The two variants agree exactly when the peer offers everything or discovery failed. */
  lemma VariantsAgree(peer: Device, status: int, hasService: bool, hasCharacteristic: bool, hasDescriptor: bool)
    ensures ServicesDiscovered(peer, status, hasService, hasCharacteristic, hasDescriptor)
         == LegacyServicesDiscovered(peer, status, hasService, hasCharacteristic, hasDescriptor)
        <==> status != GattSuccess || (hasService && hasCharacteristic && hasDescriptor)
  {
    var r := ServicesDiscovered(peer, status, hasService, hasCharacteristic, hasDescriptor);
    var l := LegacyServicesDiscovered(peer, status, hasService, hasCharacteristic, hasDescriptor);
    if status == GattSuccess && !(hasService && hasCharacteristic && hasDescriptor) {
      assert Disconnect(peer) in r && Disconnect(peer) !in l;
    }
  }

  /** `bluetoothGatt.disconnect(); bluetoothGatt.close();` when there is a link, nothing otherwise. */
  function Teardown(link: Option<Device>): (r: seq<Action>)
    ensures link == None <==> r == []
    ensures link.Some? ==> forall a | a in r :: a == Disconnect(link.value) || a == CloseLink(link.value)
    ensures link.Some? ==> r[0] == Disconnect(link.value) && r[|r| - 1] == CloseLink(link.value)
  {
    match link
    case None => []
    case Some(peer) => [Disconnect(peer), CloseLink(peer)]
  }
}
