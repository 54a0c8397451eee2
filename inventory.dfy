/**
 * The two inventory normalisers: Meraki dashboard devices and Catalyst
 * Center (DNAC) devices become device-import records for the RADKit
 * service, all sharing one operator-entered credential triple.
 */
module Inventory {
  import opened Text
  import opened Sequences

  /** The SSH username, password and enable secret entered once per batch. */
  datatype Credentials = Credentials(username: string, password: string, enable: string)

  /** The `terminal` object of a device-import record. */
  datatype Terminal = Terminal(
    port: int,
    connectionMethod: string,
    username: string,
    enableSet: bool,
    useInsecureAlgorithms: bool,
    useTunnelingIfJumphost: bool,
    password: string,
    enable: string)

  /** One element of the JSON list the normalisers write. */
  datatype DeviceImport = DeviceImport(
    deviceType: string,
    enabled: bool,
    host: string,
    name: string,
    description: string,
    terminal: Terminal)

  /** The fields of a Meraki `getNetworkDevices` element that the tool reads. */
  datatype MerakiDevice = MerakiDevice(model: string, name: string, lanIp: string)

  /** The fields of a Catalyst Center device-list element that the tool reads. */
  datatype DnacDevice = DnacDevice(hostname: string, managementIpAddress: string)

  /** The Catalyst Center `get_device_list` reply: its devices are under `response`. */
  datatype DnacDeviceList = DnacDeviceList(response: seq<DnacDevice>)

  /** The record both normalisers append, for a host, a raw name and a provenance tag. */
  function ImportRecord(host: string, rawName: string, description: string, cred: Credentials, canon: string -> string): DeviceImport {
    DeviceImport(
      "IOS_XE", true, host, canon(rawName), description,
      Terminal(22, "SSH", cred.username, true, false, true, cred.password, cred.enable))
  }

  /** Every field the normalisers fix, and the shared credentials. */
  predicate HasFixedFields(r: DeviceImport, cred: Credentials, description: string) {
    && r.deviceType == "IOS_XE"
    && r.enabled
    && r.description == description
    && r.terminal.port == 22
    && r.terminal.connectionMethod == "SSH"
    && r.terminal.enableSet
    && !r.terminal.useInsecureAlgorithms
    && r.terminal.useTunnelingIfJumphost
    && r.terminal.username == cred.username
    && r.terminal.password == cred.password
    && r.terminal.enable == cred.enable
  }

  /** The Meraki filter: only Catalyst 9000 models are imported. */
  predicate IsCatalyst9k(d: MerakiDevice) {
    StartsWith(d.model, "C9")
  }

  function MerakiRecord(d: MerakiDevice, cred: Credentials, canon: string -> string): DeviceImport {
    ImportRecord(d.lanIp, d.name, "meraki", cred, canon)
  }

  function DnacRecord(d: DnacDevice, cred: Credentials, canon: string -> string): DeviceImport {
    ImportRecord(d.managementIpAddress, d.hostname, "dnac", cred, canon)
  }

  /** The list the Meraki normaliser builds, one element at a time. */
  function MerakiRecords(devices: seq<MerakiDevice>, cred: Credentials, canon: string -> string): seq<DeviceImport> {
    if devices == [] then []
    else
      var last := devices[|devices| - 1];
      MerakiRecords(devices[..|devices| - 1], cred, canon)
        + (if IsCatalyst9k(last) then [MerakiRecord(last, cred, canon)] else [])
  }

  /** The list the Catalyst Center normaliser builds, one element at a time. */
  function DnacRecords(devices: seq<DnacDevice>, cred: Credentials, canon: string -> string): seq<DeviceImport> {
    if devices == [] then []
    else DnacRecords(devices[..|devices| - 1], cred, canon) + [DnacRecord(devices[|devices| - 1], cred, canon)]
  }

  /** The record-building loop of `meraki_prepare_and_write_json`. */
  method MerakiPrepare(devices: seq<MerakiDevice>, cred: Credentials, canon: string -> string)
    returns (jsonData: seq<DeviceImport>)
    ensures jsonData == MerakiRecords(devices, cred, canon)
  {
    jsonData := [];
    var i := 0;
    while i < |devices|
      invariant 0 <= i <= |devices|
      invariant jsonData == MerakiRecords(devices[..i], cred, canon)
    {
      var device := devices[i];
      if StartsWith(device.model, "C9") {
        jsonData := jsonData + [ImportRecord(device.lanIp, device.name, "meraki", cred, canon)];
      }
      assert devices[..i + 1][..i] == devices[..i];
      i := i + 1;
    }
    assert devices[..i] == devices;
  }

  /** The record-building loop of `dnac_prepare_and_write_json`. */
  method DnacPrepare(devices: DnacDeviceList, cred: Credentials, canon: string -> string)
    returns (jsonData: seq<DeviceImport>)
    ensures jsonData == DnacRecords(devices.response, cred, canon)
  {
    jsonData := [];
    var i := 0;
    while i < |devices.response|
      invariant 0 <= i <= |devices.response|
      invariant jsonData == DnacRecords(devices.response[..i], cred, canon)
    {
      var device := devices.response[i];
      jsonData := jsonData + [ImportRecord(device.managementIpAddress, device.hostname, "dnac", cred, canon)];
      assert devices.response[..i + 1][..i] == devices.response[..i];
      i := i + 1;
    }
    assert devices.response[..i] == devices.response;
  }

  /**
   * The Meraki output is exactly the Catalyst 9000 devices, in input order:
   * its j-th record is built from the j-th device whose model starts with "C9".
   */
  lemma {:induction false} MerakiKeepsCatalyst9k(devices: seq<MerakiDevice>, cred: Credentials, canon: string -> string)
    ensures |MerakiRecords(devices, cred, canon)| == |Positions(devices, IsCatalyst9k)|
    ensures forall j :: 0 <= j < |Positions(devices, IsCatalyst9k)| ==>
      MerakiRecords(devices, cred, canon)[j] == MerakiRecord(devices[Positions(devices, IsCatalyst9k)[j]], cred, canon)
  {
    if devices != [] {
      var front, last := devices[..|devices| - 1], devices[|devices| - 1];
      MerakiKeepsCatalyst9k(front, cred, canon);
      var pos, pos' := Positions(devices, IsCatalyst9k), Positions(front, IsCatalyst9k);
      var out, out' := MerakiRecords(devices, cred, canon), MerakiRecords(front, cred, canon);
      assert pos == if IsCatalyst9k(last) then pos' + [|devices| - 1] else pos';
      assert out == out' + if IsCatalyst9k(last) then [MerakiRecord(last, cred, canon)] else [];
      forall j | 0 <= j < |pos|
        ensures out[j] == MerakiRecord(devices[pos[j]], cred, canon)
      {
        if j < |pos'| {
          assert pos[j] == pos'[j] && out[j] == out'[j];
          assert devices[pos'[j]] == front[pos'[j]];
        }
      }
    }
  }

  /** The Catalyst Center output has one record per device, in the same order, with no filter. */
  lemma {:induction false} DnacMapsEveryDevice(devices: seq<DnacDevice>, cred: Credentials, canon: string -> string)
    ensures |DnacRecords(devices, cred, canon)| == |devices|
    ensures forall k :: 0 <= k < |devices| ==> DnacRecords(devices, cred, canon)[k] == DnacRecord(devices[k], cred, canon)
  {
    if devices != [] {
      DnacMapsEveryDevice(devices[..|devices| - 1], cred, canon);
    }
  }

  /** Every Meraki record carries the fixed fields, the batch credentials, its device's LAN IP and canonical name. */
  lemma MerakiRecordFields(devices: seq<MerakiDevice>, cred: Credentials, canon: string -> string)
    ensures forall r :: r in MerakiRecords(devices, cred, canon) ==>
      HasFixedFields(r, cred, "meraki")
      && exists d :: d in devices && IsCatalyst9k(d) && r.host == d.lanIp && r.name == canon(d.name)
  {
    MerakiKeepsCatalyst9k(devices, cred, canon);
    var out, pos := MerakiRecords(devices, cred, canon), Positions(devices, IsCatalyst9k);
    forall r | r in out
      ensures HasFixedFields(r, cred, "meraki")
      ensures exists d :: d in devices && IsCatalyst9k(d) && r.host == d.lanIp && r.name == canon(d.name)
    {
      var j :| 0 <= j < |out| && out[j] == r;
      assert devices[pos[j]] in devices;
    }
  }

  /** Every Catalyst Center record carries the fixed fields, the batch credentials, its management IP and canonical hostname. */
  lemma DnacRecordFields(devices: seq<DnacDevice>, cred: Credentials, canon: string -> string)
    ensures |DnacRecords(devices, cred, canon)| == |devices|
    ensures forall k :: 0 <= k < |devices| ==>
      var r := DnacRecords(devices, cred, canon)[k];
      HasFixedFields(r, cred, "dnac") && r.host == devices[k].managementIpAddress && r.name == canon(devices[k].hostname)
  {
    DnacMapsEveryDevice(devices, cred, canon);
  }

  /** The two-device dashboard scenario: only the C9300 switch is imported. */
  lemma MerakiScenario(canon: string -> string)
    ensures
      var cred := Credentials("admin", "x", "y");
      var out := MerakiRecords([MerakiDevice("C9300-24", "SW1", "10.0.0.1"), MerakiDevice("C8200", "RTR1", "10.0.0.2")], cred, canon);
      && |out| == 1
      && out[0].host == "10.0.0.1" && out[0].name == canon("SW1")
      && out[0].description == "meraki" && out[0].terminal.port == 22 && out[0].terminal.connectionMethod == "SSH"
  {
    var ds := [MerakiDevice("C9300-24", "SW1", "10.0.0.1"), MerakiDevice("C8200", "RTR1", "10.0.0.2")];
    assert ds[1].model[..2][1] == '8';
    assert IsCatalyst9k(ds[0]);
    assert ds[..1][..0] == [];
  }
}
