/**
 * The peer bookkeeping shared by the scanner and the managers: the address-keyed
 * `deviceMap`, the append-only `discoveredDevices` list with its text
 * rendering, and the `connectedDevices` list the server side keeps.
 */
module Directory {
  import opened Platform

  /** One row of `discoveredDevices`: the `{name, address}` pair of a scan result. */
  datatype DeviceEntry = DeviceEntry(name: Option<string>, address: string)

  function EntryOf(d: Device): DeviceEntry
  {
    DeviceEntry(d.name, d.address)
  }

  /** Java string concatenation renders a null name as "null". */
  function NameText(name: Option<string>): string
  {
    match name
    case None => "null"
    case Some(s) => s
  }

  /** The text `name + " - " + address` of one discovered device. */
  function DetailLine(e: DeviceEntry): (r: string)
    ensures |r| == |NameText(e.name)| + 3 + |e.address|
    ensures r[..|NameText(e.name)|] == NameText(e.name)
    ensures r[|NameText(e.name)|..|NameText(e.name)| + 3] == " - "
    ensures r[|r| - |e.address|..] == e.address
  {
    NameText(e.name) + " - " + e.address
  }

  /** Position of the last `c` in `s`, or -1 when there is none. */
  function LastIndex(s: string, c: char): (r: int)
    ensures -1 <= r < |s|
    ensures r >= 0 ==> s[r] == c
    ensures forall j | r < j < |s| :: s[j] != c
  {
    if s == [] then -1
    else if s[|s| - 1] == c then |s| - 1
    else LastIndex(s[..|s| - 1], c)
  }

  /**
   * For an address without '-' (a MAC address has none), the last '-' of a
   * details line is the one of the separator, so the host can split the line
   * back into the name text ("null" for a device without a name) and the
   * address even when the name itself contains " - ".
   */
  lemma DetailLineSplits(e: DeviceEntry)
    requires forall j | 0 <= j < |e.address| :: e.address[j] != '-'
    ensures var line := DetailLine(e);
      var k := LastIndex(line, '-');
      && k == |NameText(e.name)| + 1
      && line[..k - 1] == NameText(e.name)
      && line[k + 2..] == e.address
      && (e.name == None ==> line[..k - 1] == "null")
  {
    var line := DetailLine(e);
    var n := |NameText(e.name)|;
    assert line[n + 1] == '-';
    forall j | n + 1 < j < |line|
      ensures line[j] != '-'
    {
      if j > n + 2 {
        assert line[j] == e.address[j - n - 3];
      }
    }
  }

  /** `deviceMap.put(address, device)`: keyed by address, the latest device wins. */
  function Upsert(m: map<string, Device>, d: Device): (r: map<string, Device>)
    ensures r.Keys == m.Keys + {d.address}
    ensures r[d.address] == d
    ensures forall a | a in m && a != d.address :: r[a] == m[a]
    ensures d.address in m ==> |r| == |m|
    ensures d.address !in m ==> |r| == |m| + 1
  {
    var r := m[d.address := d];
    assert d.address in m ==> r.Keys == m.Keys;
    assert d.address !in m ==> r.Keys == m.Keys + {d.address} && m.Keys !! {d.address};
    r
  }

  /**
   * `List.indexOf(device)`: the first position holding a device with that
   * address (`BluetoothDevice.equals` compares addresses), or -1.
   */
  function IndexOfAddress(peers: seq<Device>, address: string): (r: int)
    ensures -1 <= r < |peers|
    ensures r == -1 <==> forall j | 0 <= j < |peers| :: peers[j].address != address
    ensures r >= 0 ==> peers[r].address == address
    ensures r >= 0 ==> forall j | 0 <= j < r :: peers[j].address != address
  {
    if peers == [] then -1
    else if peers[0].address == address then 0
    else
      var k := IndexOfAddress(peers[1..], address);
      if k == -1 then -1 else k + 1
  }

  /** `List.remove(device)`: the first device with that address is dropped, if there is one. */
  function RemoveFirst(peers: seq<Device>, address: string): (r: seq<Device>)
    ensures IndexOfAddress(peers, address) == -1 ==> r == peers
    ensures IndexOfAddress(peers, address) >= 0 ==>
      && |r| == |peers| - 1
      && multiset(r) + multiset{peers[IndexOfAddress(peers, address)]} == multiset(peers)
    ensures forall j {:trigger r[j]} | 0 <= j < IndexOfAddress(peers, address) :: r[j] == peers[j]
    ensures IndexOfAddress(peers, address) >= 0 ==>
      forall j | IndexOfAddress(peers, address) <= j < |r| :: r[j] == peers[j + 1]
  {
    var k := IndexOfAddress(peers, address);
    if k < 0 then peers else RemoveAt(peers, k)
  }

  /** Dropping position `k` keeps every other entry, in order. */
  function RemoveAt(peers: seq<Device>, k: nat): (r: seq<Device>)
    requires k < |peers|
    ensures |r| == |peers| - 1
    ensures multiset(r) + multiset{peers[k]} == multiset(peers)
    ensures forall j {:trigger r[j]} | 0 <= j < k :: r[j] == peers[j]
    ensures forall j | k <= j < |r| :: r[j] == peers[j + 1]
  {
    var r := peers[..k] + peers[k + 1..];
    assert peers == peers[..k] + [peers[k]] + peers[k + 1..];
    assert multiset(peers) == multiset(peers[..k]) + multiset{peers[k]} + multiset(peers[k + 1..]);
    assert forall j | k <= j < |r| :: r[j] == peers[k + 1..][j - k];
    r
  }

  /** `getDiscoveredDeviceDetails`: one line per discovered device, same order. */
  method FormatDetails(entries: seq<DeviceEntry>) returns (lines: seq<string>)
    ensures |lines| == |entries|
    ensures forall i | 0 <= i < |entries| :: lines[i] == DetailLine(entries[i])
  {
    lines := [];
    for i := 0 to |entries|
      invariant |lines| == i
      invariant forall j | 0 <= j < i :: lines[j] == DetailLine(entries[j])
    {
      lines := lines + [DetailLine(entries[i])];
    }
  }
}
