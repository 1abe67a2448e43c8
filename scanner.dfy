/**
 * The standalone scanner (`BLEScanner`): a filtered scan for the plugin's
 * service, the discovered-device list and the address-keyed device map.
 */
module Scanner {
  import opened Platform
  import opened Directory

  class BleScanner {
    /** `bluetoothLeScanner != null`; it is fixed at construction and never cleared. */
    const scannerPresent: bool
    var scanning: bool
    var discoveredDevices: seq<DeviceEntry>
    var deviceMap: map<string, Device>
    ghost var log: seq<Action>

    constructor (scannerAvailable: bool)
      ensures scannerPresent == scannerAvailable && !scanning
      ensures discoveredDevices == [] && deviceMap == map[] && log == []
    {
      scannerPresent := scannerAvailable;
      scanning := false;
      discoveredDevices := [];
      deviceMap := map[];
      log := [];
    }

    /** Forgets the previous results and scans for the plugin's service; the device map is kept. */
    method StartScan()
      modifies this`scanning, this`discoveredDevices, this`log
      ensures scannerPresent ==>
        && scanning && discoveredDevices == []
        && log == old(log) + [ScanStart(DefaultServiceUuid), Unity("OnScanStarted", Text(""))]
      ensures !scannerPresent ==>
        scanning == old(scanning) && discoveredDevices == old(discoveredDevices) && log == old(log)
    {
      if scannerPresent {
        discoveredDevices := [];
        ScanLeDevice();
      }
    }

    method ScanLeDevice()
      requires scannerPresent
      modifies this`scanning, this`log
      ensures scanning
      ensures log == old(log) + [ScanStart(DefaultServiceUuid), Unity("OnScanStarted", Text(""))]
    {
      scanning := true;
      log := log + [ScanStart(DefaultServiceUuid), Unity("OnScanStarted", Text(""))];
    }

    /** Stops only a running scan. */
    method StopScan()
      modifies this`scanning, this`log
      ensures !(old(scanning) && scannerPresent) ==> scanning == old(scanning) && log == old(log)
      ensures old(scanning) && scannerPresent ==> !scanning && log == old(log) + [ScanStop]
    {
      if scanning && scannerPresent {
        scanning := false;
        log := log + [ScanStop];
      }
    }

    /** Every result is recorded in the map (latest wins), reported, and appended to the list (duplicates kept). */
    method OnScanResult(device: Device)
      modifies this`deviceMap, this`discoveredDevices, this`log
      ensures deviceMap == Upsert(old(deviceMap), device)
      ensures discoveredDevices == old(discoveredDevices) + [EntryOf(device)]
      ensures log == old(log) + [Unity("UpdateDeviceList", DeviceItem(device))]
    {
      deviceMap := Upsert(deviceMap, device);
      log := log + [Unity("UpdateDeviceList", DeviceItem(device))];
      discoveredDevices := discoveredDevices + [EntryOf(device)];
    }

    method OnScanFailed(errorCode: int)
      modifies this`log
      ensures log == old(log) + [Unity("OnScanFailed", ErrorCode(errorCode))]
    {
      log := log + [Unity("OnScanFailed", ErrorCode(errorCode))];
    }

    /** One "name - address" line per discovered device, in discovery order. */
    method GetDiscoveredDeviceDetails() returns (details: seq<string>)
      ensures |details| == |discoveredDevices|
      ensures forall i | 0 <= i < |discoveredDevices| :: details[i] == DetailLine(discoveredDevices[i])
    {
      details := FormatDetails(discoveredDevices);
    }
  }
}
