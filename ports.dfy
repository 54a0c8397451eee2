/**
 * The per-switch interface document of `create_yaml`: each switch port
 * becomes an `interface` entry with trunk, access and voice VLAN blocks
 * chosen by the port's type.
 */
module PortConfig {
  import opened Wrappers
  import opened Text
  import opened Sequences

  /** The fields of a Meraki switch-port record that the tool reads (`type` is `portType`). */
  datatype Port = Port(
    name: Option<string>,
    enabled: bool,
    portType: string,
    allowedVlans: string,
    vlan: Option<int>,
    voiceVlan: Option<int>)

  /** One element of `getOrganizationSwitchPortsBySwitch`: a switch and its ports. */
  datatype SwitchPorts = SwitchPorts(name: string, ports: seq<Port>)

  datatype TrunkBlock = TrunkBlock(allowedVlans: string, nativeVlan: Option<int>)

  datatype AccessBlock = AccessBlock(vlan: Option<int>)

  datatype VoiceBlock = VoiceBlock(vlan: int)

  /**
   * The `interface` mapping; fields in the order the keys are inserted.
   * `description` is always present, and None stands for a null value.
   * For `trunk`, `access` and `voice`, None means the key is absent.
   */
  datatype Interface = Interface(
    name: string,
    description: Option<string>,
    enabled: bool,
    mode: string,
    trunk: Option<TrunkBlock>,
    access: Option<AccessBlock>,
    voice: Option<VoiceBlock>)

  /** One element of the `interfaces` list: `{interface: ...}`. */
  datatype PortEntry = PortEntry(interface: Interface)

  datatype SystemEntry = SystemEntry(deviceName: string)

  /** The YAML document: `system` first, then `interfaces`. */
  datatype DeviceDocument = DeviceDocument(system: seq<SystemEntry>, interfaces: seq<PortEntry>)

  /**
   * Interface name and description from a present port name: split at the
   * first '-' into two stripped parts, or the name as it is and no description.
   */
  function SplitPortName(name: string): (r: (string, Option<string>))
    ensures r.1.None? <==> '-' !in name
    ensures r.1.None? ==> r.0 == name
    ensures r.1.Some? ==> '-' !in r.0 && |r.0| + |r.1.value| < |name|
  {
    if name != [] && '-' in name then
      var parts := SplitFirst(name, '-');
      StripAddsNothing(parts.0, '-');
      (Strip(parts.0), Some(Strip(parts.1)))
    else
      (name, None)
  }

  /** The entry derived from one port, or None when the port is skipped. */
  function DerivePort(p: Port, canonIf: string -> string): (r: Option<PortEntry>)
    ensures r.None? <==> p.name.None?
    ensures r.Some? ==>
      var e := r.value.interface;
      && e.name == canonIf(SplitPortName(p.name.value).0)
      && e.description == SplitPortName(p.name.value).1
      && e.enabled == p.enabled && e.mode == p.portType
      && (e.trunk.Some? <==> p.portType == "trunk")
      && (e.access.Some? <==> p.portType == "access")
      && (e.voice.Some? <==> p.portType == "access" && p.voiceVlan.Some?)
      && (e.trunk.Some? ==> e.trunk.value == TrunkBlock(p.allowedVlans, p.vlan))
      && (e.access.Some? ==> e.access.value == AccessBlock(p.vlan))
      && (e.voice.Some? ==> e.voice.value == VoiceBlock(p.voiceVlan.value))
  {
    match p.name
    case None => None
    case Some(n) =>
      var (ifName, description) := SplitPortName(n);
      var base := Interface(canonIf(ifName), description, p.enabled, p.portType, None, None, None);
      Some(PortEntry(
        if p.portType == "trunk" then base.(trunk := Some(TrunkBlock(p.allowedVlans, p.vlan)))
        else if p.portType == "access" then
          base.(access := Some(AccessBlock(p.vlan)),
                voice := if p.voiceVlan.Some? then Some(VoiceBlock(p.voiceVlan.value)) else None)
        else base))
  }

  predicate IsNamed(p: Port) {
    p.name.Some?
  }

  /** The `yaml_data` list built from a sequence of ports. */
  function DeriveInterfaces(ports: seq<Port>, canonIf: string -> string): (r: seq<PortEntry>)
    ensures |r| <= |ports|
    ensures |r| == |ports| <==> forall k :: 0 <= k < |ports| ==> IsNamed(ports[k])
  {
    if ports == [] then []
    else
      var front := ports[..|ports| - 1];
      var last := DerivePort(ports[|ports| - 1], canonIf);
      assert forall k :: 0 <= k < |front| ==> front[k] == ports[k];
      DeriveInterfaces(front, canonIf) + (if last.Some? then [last.value] else [])
  }

  /** Taking one more port appends its entry, if it has one. */
  lemma DeriveOneMore(ports: seq<Port>, i: nat, canonIf: string -> string)
    requires i < |ports|
    ensures DeriveInterfaces(ports[..i + 1], canonIf) ==
      DeriveInterfaces(ports[..i], canonIf) + if DerivePort(ports[i], canonIf).Some? then [DerivePort(ports[i], canonIf).value] else []
  {
    assert ports[..i + 1][..i] == ports[..i];
  }

  /** `create_yaml`: the file name and the document written to it. */
  method CreateYaml(device: SwitchPorts, outputDir: string, canonIf: string -> string)
    returns (filename: string, doc: DeviceDocument)
    ensures filename == JoinPath(outputDir, Lower(device.name) + ".yaml")
    ensures doc == DeviceDocument([SystemEntry(device.name)], DeriveInterfaces(device.ports, canonIf))
  {
    var hostname := device.name;
    filename := JoinPath(outputDir, Lower(hostname) + ".yaml");
    var yamlData: seq<PortEntry> := [];
    var ports := device.ports;
    var i := 0;
    while i < |ports|
      invariant 0 <= i <= |ports|
      invariant yamlData == DeriveInterfaces(ports[..i], canonIf)
    {
      var port := ports[i];
      DeriveOneMore(ports, i, canonIf);
      i := i + 1;
      var interfaceName := port.name;
      var description: Option<string> := None;
      if interfaceName.Some? && interfaceName.value != [] {
        if '-' in interfaceName.value {
          var parts := SplitFirst(interfaceName.value, '-');
          interfaceName, description := Some(Strip(parts.0)), Some(Strip(parts.1));
        }
      }
      if interfaceName.None? {
        continue;
      }
      var entry := PortEntry(Interface(canonIf(interfaceName.value), description, port.enabled, port.portType, None, None, None));
      if port.portType == "trunk" {
        entry := entry.(interface := entry.interface.(trunk := Some(TrunkBlock(port.allowedVlans, port.vlan))));
      } else if port.portType == "access" {
        entry := entry.(interface := entry.interface.(access := Some(AccessBlock(port.vlan))));
        if port.voiceVlan.Some? {
          entry := entry.(interface := entry.interface.(voice := Some(VoiceBlock(port.voiceVlan.value))));
        }
      }
      assert Some(entry) == DerivePort(port, canonIf);
      yamlData := yamlData + [entry];
    }
    assert ports[..i] == ports;
    doc := DeviceDocument([SystemEntry(hostname)], yamlData);
  }

  /**
   * Only ports without a name are dropped, and the rest keep their order:
   * the j-th entry is derived from the j-th named port.
   */
  lemma {:induction false} DeriveKeepsNamedPorts(ports: seq<Port>, canonIf: string -> string)
    ensures |DeriveInterfaces(ports, canonIf)| == |Positions(ports, IsNamed)|
    ensures forall j :: 0 <= j < |Positions(ports, IsNamed)| ==>
      Some(DeriveInterfaces(ports, canonIf)[j]) == DerivePort(ports[Positions(ports, IsNamed)[j]], canonIf)
  {
    if ports != [] {
      var front, last := ports[..|ports| - 1], ports[|ports| - 1];
      DeriveKeepsNamedPorts(front, canonIf);
      var pos, pos' := Positions(ports, IsNamed), Positions(front, IsNamed);
      var out, out' := DeriveInterfaces(ports, canonIf), DeriveInterfaces(front, canonIf);
      assert pos == if IsNamed(last) then pos' + [|ports| - 1] else pos';
      assert out == out' + if DerivePort(last, canonIf).Some? then [DerivePort(last, canonIf).value] else [];
      forall j | 0 <= j < |pos|
        ensures Some(out[j]) == DerivePort(ports[pos[j]], canonIf)
      {
        if j < |pos'| {
          assert pos[j] == pos'[j] && out[j] == out'[j];
          assert ports[pos'[j]] == front[pos'[j]];
        }
      }
    }
  }

  /** A name with a '-' splits at its first '-' only, and both halves are stripped. */
  lemma SplitAtFirstDash(name: string, left: string, right: string)
    requires name == left + "-" + right && '-' !in left
    ensures SplitPortName(name) == (Strip(left), Some(Strip(right)))
  {
    SplitFirstUnique(name, '-', left, right);
  }

  /** A name without '-' (the empty name included) is kept whole, with no description. */
  lemma NoDashKeepsName(name: string)
    requires '-' !in name
    ensures SplitPortName(name) == (name, None)
  {
  }

  /** The usual "<interface> - <description>" naming gives back both parts. */
  lemma SpacedDashName(ifName: string, description: string)
    requires '-' !in ifName
    requires ifName != [] && !IsSpace(ifName[0]) && !IsSpace(ifName[|ifName| - 1])
    requires description != [] && !IsSpace(description[0]) && !IsSpace(description[|description| - 1])
    ensures SplitPortName(ifName + " - " + description) == (ifName, Some(description))
  {
    var l, r := ifName + " ", " " + description;
    assert ifName + " - " + description == l + "-" + r;
    SplitAtFirstDash(ifName + " - " + description, l, r);
    StripOneSpace(ifName);
    StripOneSpace(description);
  }

  /** "Gi1/0/1 - uplink to core" names interface "Gi1/0/1" with description "uplink to core". */
  lemma SplitExample()
    ensures SplitPortName("Gi1/0/1 - uplink to core") == ("Gi1/0/1", Some("uplink to core"))
  {
    var ifName, description := "Gi1/0/1", "uplink to core";
    assert ifName + " - " + description == "Gi1/0/1 - uplink to core";
    SpacedDashName(ifName, description);
  }

  /**
   * A name that starts with '-' is not dropped: it is emitted with an empty
   * interface name, and the rest of the name, stripped, is its description.
   */
  lemma LeadingDashKept(p: Port, canonIf: string -> string)
    requires p.name.Some? && p.name.value != [] && p.name.value[0] == '-'
    ensures DerivePort(p, canonIf).Some?
    ensures DerivePort(p, canonIf).value.interface.name == canonIf("")
    ensures DerivePort(p, canonIf).value.interface.description == Some(Strip(p.name.value[1..]))
  {
    var n := p.name.value;
    assert n == [] + "-" + n[1..];
    SplitAtFirstDash(n, [], n[1..]);
    StripAround([], [], []);
  }

  /** An empty name is present, so the port is not dropped: it is emitted with an empty interface name and no description. */
  lemma EmptyNameKept(p: Port, canonIf: string -> string)
    requires p.name == Some("")
    ensures DerivePort(p, canonIf).Some?
    ensures DerivePort(p, canonIf).value.interface.name == canonIf("")
    ensures DerivePort(p, canonIf).value.interface.description.None?
  {
  }

  /**
   * The file is `<output_dir>/<lower-cased name>.yaml`; a name starting with '/'
   * replaces the directory, as `os.path.join` does with an absolute component.
   */
  lemma YamlFileName(outputDir: string, name: string)
    ensures name != [] && name[0] == '/' ==> JoinPath(outputDir, Lower(name) + ".yaml") == Lower(name) + ".yaml"
    ensures (name == [] || name[0] != '/') && outputDir != [] && outputDir[|outputDir| - 1] != '/' ==>
      JoinPath(outputDir, Lower(name) + ".yaml") == outputDir + "/" + Lower(name) + ".yaml"
    ensures (name == [] || name[0] != '/') && (outputDir == [] || outputDir[|outputDir| - 1] == '/') ==>
      JoinPath(outputDir, Lower(name) + ".yaml") == outputDir + Lower(name) + ".yaml"
  {
    var base := Lower(name);
    var f := base + ".yaml";
    assert f != [] && (f[0] == '/' <==> name != [] && name[0] == '/') by {
      if name != [] {
        assert f[0] == base[0];
      } else {
        assert f[0] == '.';
      }
    }
  }
}
