/**
 * The two import readers of the upload actions: a JSON list of device
 * records, or CSV rows, become the device list handed to the RADKit
 * control API, which is called only when that list is non-empty.
 */
module Importer {
  import opened Wrappers
  import opened Sequences
  import opened Inventory

  /** A value decoded by `json.load` (floating-point numbers are not modelled). */
  datatype Json =
    | JNull
    | JBool(b: bool)
    | JInt(i: int)
    | JString(s: string)
    | JArray(items: seq<Json>)
    | JObject(fields: map<string, Json>)

  /** The exceptions a read can raise; none is caught, so each aborts the read. */
  datatype ReadError =
    | KeyError(key: string)          // a missing key or column
    | TypeError                      // subscripting a value that is not a mapping, or iterating one that is not a collection
    | UnknownDeviceType(given: Json) // `DeviceType[...]` of a name that is not a member
    | NameNotText(given: Json)       // `to_canonical_name` of a name that is not a string

  /** `NewTerminal`: None for an argument the reader does not pass. */
  datatype NewTerminal = NewTerminal(
    port: Option<Json>,
    connectionMethod: Option<Json>,
    username: Json,
    enableSet: Json,
    useInsecureAlgorithms: Option<Json>,
    useTunnelingIfJumphost: Option<Json>,
    password: Json,
    enable: Json)

  /** `NewDevice`; `enabled` stays as read, a boolean from JSON and a string from CSV. */
  datatype NewDevice = NewDevice(
    name: string,
    host: Json,
    description: Option<Json>,
    deviceType: string,
    terminal: NewTerminal,
    enabled: Json)

  /** `v[key]` in Python, for a JSON value. */
  function Field(v: Json, key: string): (r: Result<Json, ReadError>)
    ensures r.Ok? <==> v.JObject? && key in v.fields
    ensures r.Ok? ==> r.value == v.fields[key]
    ensures r.Err? ==> r.error == if v.JObject? then KeyError(key) else TypeError
  {
    match v
    case JObject(m) => if key in m then Ok(m[key]) else Err(KeyError(key))
    case _ => Err(TypeError)
  }

  /** `DeviceType[v]`: the member name, given the set of member names. */
  function LookupDeviceType(v: Json, deviceTypes: set<string>): (r: Result<string, ReadError>)
    ensures r.Ok? <==> v.JString? && v.s in deviceTypes
    ensures r.Ok? ==> r.value == v.s
    ensures r.Err? ==> r.error == if v.JArray? || v.JObject? then TypeError else UnknownDeviceType(v)
  {
    match v
    case JString(s) => if s in deviceTypes then Ok(s) else Err(UnknownDeviceType(v))
    case JArray(_) => Err(TypeError)
    case JObject(_) => Err(TypeError)
    case _ => Err(UnknownDeviceType(v))
  }

  /**
   * The name canonicaliser is modelled on strings only; what it does with
   * any other JSON value is not part of this model, so such a name ends the
   * read with an error of its own.
   */
  function AsString(v: Json): (r: Result<string, ReadError>)
    ensures r.Ok? <==> v.JString?
    ensures r.Ok? ==> JString(r.value) == v
    ensures r.Err? ==> r.error == NameNotText(v)
  {
    if v.JString? then Ok(v.s) else Err(NameNotText(v))
  }

  /** The keys of `entry['terminal']` the JSON reader subscripts, in the order it does. */
  const TerminalKeys: seq<string> := [
    "port", "connectionMethod", "username", "enableSet",
    "useInsecureAlgorithms", "useTunnelingIfJumphost", "password", "enable"]

  /** `keys[j]` is the first of `keys` that is not in `present`. */
  predicate FirstMissing(keys: seq<string>, present: set<string>, j: int) {
    0 <= j < |keys| && keys[j] !in present && forall i :: 0 <= i < j ==> keys[i] in present
  }

  /** All eight terminal keys are present. */
  predicate TerminalComplete(t: map<string, Json>) {
    && "port" in t && "connectionMethod" in t && "username" in t && "enableSet" in t
    && "useInsecureAlgorithms" in t && "useTunnelingIfJumphost" in t && "password" in t && "enable" in t
  }

  /** The entry is a mapping whose `terminal` is a mapping. */
  predicate HasTerminalObject(entry: Json) {
    entry.JObject? && "terminal" in entry.fields && entry.fields["terminal"].JObject?
  }

  /** The `NewTerminal` of one JSON entry: `entry['terminal'][...]` for its eight keys, in argument order. */
  function JsonTerminal(entry: Json): (r: Result<NewTerminal, ReadError>)
    ensures r.Ok? <==> HasTerminalObject(entry) && TerminalComplete(entry.fields["terminal"].fields)
    ensures r.Ok? ==>
      var t := entry.fields["terminal"].fields;
      r.value == NewTerminal(Some(t["port"]), Some(t["connectionMethod"]), t["username"], t["enableSet"],
                             Some(t["useInsecureAlgorithms"]), Some(t["useTunnelingIfJumphost"]), t["password"], t["enable"])
    ensures !entry.JObject? ==> r == Err(TypeError)
    ensures entry.JObject? && "terminal" !in entry.fields ==> r == Err(KeyError("terminal"))
    ensures entry.JObject? && "terminal" in entry.fields && !entry.fields["terminal"].JObject? ==> r == Err(TypeError)
  {
    var terminal :- Field(entry, "terminal");
    if !terminal.JObject? then Err(TypeError) else
    var v :- ReadKeys(terminal.fields, TerminalKeys);
    Ok(NewTerminal(Some(v[0]), Some(v[1]), v[2], v[3], Some(v[4]), Some(v[5]), v[6], v[7]))
  }

  /** `m[key]` for each of `keys` in turn: the values, or the KeyError of the first key missing. */
  function ReadKeys(m: map<string, Json>, keys: seq<string>): (r: Result<seq<Json>, ReadError>)
    ensures r.Ok? <==> forall k :: 0 <= k < |keys| ==> keys[k] in m
    ensures r.Ok? ==> |r.value| == |keys| && forall k :: 0 <= k < |keys| ==> r.value[k] == m[keys[k]]
  {
    if keys == [] then Ok([])
    else if keys[0] !in m then Err(KeyError(keys[0]))
    else
      var rest :- ReadKeys(m, keys[1..]);
      Ok([m[keys[0]]] + rest)
  }

  /** Reading stops at the first key missing, with its KeyError. */
  lemma {:induction false} ReadKeysFirstMissing(m: map<string, Json>, keys: seq<string>, j: int)
    requires FirstMissing(keys, m.Keys, j)
    ensures ReadKeys(m, keys) == Err(KeyError(keys[j]))
    decreases |keys|
  {
    if j > 0 {
      assert FirstMissing(keys[1..], m.Keys, j - 1) by {
        forall i | 0 <= i < j - 1 ensures keys[1..][i] in m.Keys {
          assert keys[1..][i] == keys[i + 1];
        }
      }
      ReadKeysFirstMissing(m, keys[1..], j - 1);
    }
  }

  /** A terminal missing some of its keys raises the KeyError of the first one missing, in argument order. */
  lemma TerminalFirstMissing(entry: Json, j: int)
    requires HasTerminalObject(entry)
    requires FirstMissing(TerminalKeys, entry.fields["terminal"].fields.Keys, j)
    ensures JsonTerminal(entry) == Err(KeyError(TerminalKeys[j]))
  {
    ReadKeysFirstMissing(entry.fields["terminal"].fields, TerminalKeys, j);
  }

  /** Every device key the JSON reader subscripts is present, the name is a string and the device type a member name. */
  predicate DeviceFieldsReadable(f: map<string, Json>, deviceTypes: set<string>) {
    && "name" in f && f["name"].JString?
    && "host" in f && "description" in f
    && "deviceType" in f && f["deviceType"].JString? && f["deviceType"].s in deviceTypes
    && "enabled" in f
  }

  /** One JSON entry: the terminal first, then the device keys in the order the Python reader reads them. */
  function JsonEntryDevice(entry: Json, deviceTypes: set<string>, canon: string -> string): (r: Result<NewDevice, ReadError>)
    ensures r.Ok? <==> JsonTerminal(entry).Ok? && DeviceFieldsReadable(entry.fields, deviceTypes)
    ensures r.Ok? ==>
      var f := entry.fields;
      r.value == NewDevice(canon(f["name"].s), f["host"], Some(f["description"]), f["deviceType"].s,
                           JsonTerminal(entry).value, f["enabled"])
    ensures (entry.JObject? && "deviceType" in entry.fields && entry.fields["deviceType"].JString?
             && entry.fields["deviceType"].s !in deviceTypes) ==> r.Err?
  {
    var terminal :- JsonTerminal(entry);
    var nameValue :- Field(entry, "name");
    var name :- AsString(nameValue);
    var host :- Field(entry, "host");
    var description :- Field(entry, "description");
    var deviceTypeValue :- Field(entry, "deviceType");
    var deviceType :- LookupDeviceType(deviceTypeValue, deviceTypes);
    var enabled :- Field(entry, "enabled");
    Ok(NewDevice(canon(name), host, Some(description), deviceType, terminal, enabled))
  }

  /**
   * Which exception a JSON entry raises: the terminal's, else that of the
   * first device key missing, of a name that is not a string or of a device
   * type that is not a member, in the order the reader subscripts them.
   */
  lemma EntryFirstError(entry: Json, deviceTypes: set<string>, canon: string -> string)
    ensures JsonTerminal(entry).Err? ==> JsonEntryDevice(entry, deviceTypes, canon) == Err(JsonTerminal(entry).error)
    ensures JsonTerminal(entry).Ok? ==>
      var f := entry.fields;
      && ("name" !in f ==> JsonEntryDevice(entry, deviceTypes, canon) == Err(KeyError("name")))
      && ("name" in f && !f["name"].JString? ==> JsonEntryDevice(entry, deviceTypes, canon) == Err(NameNotText(f["name"])))
      && ("name" in f && f["name"].JString? && "host" !in f ==> JsonEntryDevice(entry, deviceTypes, canon) == Err(KeyError("host")))
      && ("name" in f && f["name"].JString? && "host" in f && "description" !in f ==> JsonEntryDevice(entry, deviceTypes, canon) == Err(KeyError("description")))
      && (("name" in f && f["name"].JString? && "host" in f && "description" in f && "deviceType" !in f)
            ==> JsonEntryDevice(entry, deviceTypes, canon) == Err(KeyError("deviceType")))
      && (("name" in f && f["name"].JString? && "host" in f && "description" in f && "deviceType" in f
            && LookupDeviceType(f["deviceType"], deviceTypes).Err?)
            ==> JsonEntryDevice(entry, deviceTypes, canon) == Err(LookupDeviceType(f["deviceType"], deviceTypes).error))
      && (("name" in f && f["name"].JString? && "host" in f && "description" in f && "deviceType" in f
            && LookupDeviceType(f["deviceType"], deviceTypes).Ok? && "enabled" !in f) ==> JsonEntryDevice(entry, deviceTypes, canon) == Err(KeyError("enabled")))
  {
  }

  function JsonEntryReader(deviceTypes: set<string>, canon: string -> string): Json -> Result<NewDevice, ReadError> {
    entry => JsonEntryDevice(entry, deviceTypes, canon)
  }

  /** The device list read from a JSON document, or the first error raised. */
  function JsonDevices(data: seq<Json>, deviceTypes: set<string>, canon: string -> string): Result<seq<NewDevice>, ReadError> {
    MapAll(data, JsonEntryReader(deviceTypes, canon))
  }

  /**
   * `for entry in data` over whatever `json.load` returned: a list gives its
   * entries; a mapping gives its keys and a string its characters, so an
   * empty one reads nothing and any other fails at its first `entry['terminal']`;
   * a number, a boolean or null is not iterable.
   */
  function JsonDocumentDevices(doc: Json, deviceTypes: set<string>, canon: string -> string): Result<seq<NewDevice>, ReadError> {
    match doc
    case JArray(data) => JsonDevices(data, deviceTypes, canon)
    case JObject(fields) => if fields == map[] then Ok([]) else Err(TypeError)
    case JString(text) => if text == [] then Ok([]) else Err(TypeError)
    case _ => Err(TypeError)
  }

  /** A document that is not a list yields no device: nothing is read, or the read fails with a TypeError. */
  lemma NonListDocumentReadsNothing(doc: Json, deviceTypes: set<string>, canon: string -> string)
    requires !doc.JArray?
    ensures JsonUpload(doc, deviceTypes, canon) == Ok(NothingImported) || JsonUpload(doc, deviceTypes, canon) == Err(TypeError)
    ensures JsonUpload(doc, deviceTypes, canon) == Ok(NothingImported) <==>
      (doc.JObject? && doc.fields == map[]) || (doc.JString? && doc.s == [])
  {
  }

  /** The reading loop of `upload_devices_to_radkit_service_from_json`. */
  method ReadJsonDevices(doc: Json, deviceTypes: set<string>, canon: string -> string)
    returns (r: Result<seq<NewDevice>, ReadError>)
    ensures r == JsonDocumentDevices(doc, deviceTypes, canon)
  {
    if !doc.JArray? {
      // a mapping or a string yields entries only when it is non-empty, and each fails when subscripted
      var empty := (doc.JObject? && doc.fields == map[]) || (doc.JString? && doc.s == []);
      return if empty then Ok([]) else Err(TypeError);
    }
    var data := doc.items;
    var f := JsonEntryReader(deviceTypes, canon);
    var devices: seq<NewDevice> := [];
    var i := 0;
    while i < |data|
      invariant 0 <= i <= |data|
      invariant |devices| == i
      invariant forall k :: 0 <= k < i ==> f(data[k]).Ok? && devices[k] == f(data[k]).value
    {
      var device := f(data[i]);
      if device.Err? {
        MapAllFirstError(data, f, i);
        return Err(device.error);
      }
      devices := devices + [device.value];
      i := i + 1;
    }
    assert MapAll(data, f).Ok?;
    assert MapAll(data, f).value == devices;
    return Ok(devices);
  }

  /** A CSV row from `csv.DictReader`: column header to cell text. */
  type CsvRow = map<string, string>

  /** `row[column]` in Python. */
  function Column(row: CsvRow, column: string): (r: Result<string, ReadError>)
    ensures r.Ok? <==> column in row
    ensures r.Ok? ==> r.value == row[column]
    ensures r.Err? ==> r.error == KeyError(column)
  {
    if column in row then Ok(row[column]) else Err(KeyError(column))
  }

  /**
   * One CSV row, its columns read in the order the Python reader reads them.
   * Only four terminal fields are passed, there is no description, and
   * `enabled` and `terminal.enableSet` stay the raw cell text.
   */
  function CsvRowDevice(row: CsvRow, deviceTypes: set<string>, canon: string -> string): (r: Result<NewDevice, ReadError>)
    ensures r.Ok? <==> CsvRowComplete(row) && row["deviceType(mandatory)"] in deviceTypes
    ensures r.Ok? ==>
      r.value == NewDevice(
        canon(row["name(mandatory)"]), JString(row["host(mandatory)"]), None, row["deviceType(mandatory)"],
        NewTerminal(None, None, JString(row["terminal.username"]), JString(row["terminal.enableSet"]),
                    None, None, JString(row["terminal.password"]), JString(row["terminal.enable"])),
        JString(row["enabled"]))
    ensures "deviceType(mandatory)" in row && row["deviceType(mandatory)"] !in deviceTypes ==> r.Err?
  {
    var username :- Column(row, "terminal.username");
    var enableSet :- Column(row, "terminal.enableSet");
    var password :- Column(row, "terminal.password");
    var enable :- Column(row, "terminal.enable");
    var name :- Column(row, "name(mandatory)");
    var host :- Column(row, "host(mandatory)");
    var deviceTypeText :- Column(row, "deviceType(mandatory)");
    var deviceType :- LookupDeviceType(JString(deviceTypeText), deviceTypes);
    var enabled :- Column(row, "enabled");
    Ok(NewDevice(
      canon(name), JString(host), None, deviceType,
      NewTerminal(None, None, JString(username), JString(enableSet), None, None, JString(password), JString(enable)),
      JString(enabled)))
  }

  /** The columns the CSV reader subscripts, in the order it does. */
  const CsvColumns: seq<string> := [
    "terminal.username", "terminal.enableSet", "terminal.password", "terminal.enable",
    "name(mandatory)", "host(mandatory)", "deviceType(mandatory)", "enabled"]

  /** Every column the CSV reader subscripts is present. */
  predicate CsvRowComplete(row: CsvRow) {
    && "terminal.username" in row && "terminal.enableSet" in row && "terminal.password" in row
    && "terminal.enable" in row && "name(mandatory)" in row && "host(mandatory)" in row
    && "deviceType(mandatory)" in row && "enabled" in row
  }

  /**
   * Which exception a CSV row raises: the KeyError of the first column
   * missing, except that an unknown device type is raised before `enabled`
   * is looked at.
   */
  lemma CsvRowFirstError(row: CsvRow, deviceTypes: set<string>, canon: string -> string, j: int)
    requires FirstMissing(CsvColumns, row.Keys, j)
    ensures CsvRowDevice(row, deviceTypes, canon) ==
      var deviceType := CsvColumns[6];
      if j == 7 && row[deviceType] !in deviceTypes then Err(UnknownDeviceType(JString(row[deviceType])))
      else Err(KeyError(CsvColumns[j]))
  {
    // the columns before the j-th are present, one by one
    if j > 0 { assert CsvColumns[0] in row; }
    if j > 1 { assert CsvColumns[1] in row; }
    if j > 2 { assert CsvColumns[2] in row; }
    if j > 3 { assert CsvColumns[3] in row; }
    if j > 4 { assert CsvColumns[4] in row; }
    if j > 5 { assert CsvColumns[5] in row; }
    if j > 6 { assert CsvColumns[6] in row; }
  }

  function CsvRowReader(deviceTypes: set<string>, canon: string -> string): CsvRow -> Result<NewDevice, ReadError> {
    row => CsvRowDevice(row, deviceTypes, canon)
  }

  /** The device list read from CSV rows, or the first error raised. */
  function CsvDevices(rows: seq<CsvRow>, deviceTypes: set<string>, canon: string -> string): Result<seq<NewDevice>, ReadError> {
    MapAll(rows, CsvRowReader(deviceTypes, canon))
  }

  /** The reading loop of `upload_devices_to_radkit_service_from_csv`. */
  method ReadCsvDevices(rows: seq<CsvRow>, deviceTypes: set<string>, canon: string -> string)
    returns (r: Result<seq<NewDevice>, ReadError>)
    ensures r == CsvDevices(rows, deviceTypes, canon)
  {
    ghost var f := CsvRowReader(deviceTypes, canon);
    var devices: seq<NewDevice> := [];
    var i := 0;
    while i < |rows|
      invariant 0 <= i <= |rows|
      invariant |devices| == i
      invariant forall k :: 0 <= k < i ==> f(rows[k]).Ok? && devices[k] == f(rows[k]).value
    {
      var device := CsvRowDevice(rows[i], deviceTypes, canon);
      if device.Err? {
        MapAllFirstError(rows, f, i);
        return Err(device.error);
      }
      devices := devices + [device.value];
      i := i + 1;
    }
    assert MapAll(rows, f).Ok?;
    assert MapAll(rows, f).value == devices;
    return Ok(devices);
  }

  /** What the upload does with the list it read. */
  datatype UploadStep = CreateDevices(devices: seq<NewDevice>) | NothingImported

  /** `create_devices` is called with the whole list exactly when the list is non-empty. */
  function UploadGuard(devices: seq<NewDevice>): (step: UploadStep)
    ensures step.CreateDevices? <==> devices != []
    ensures step.CreateDevices? ==> step.devices == devices
  {
    if devices != [] then CreateDevices(devices) else NothingImported
  }

  /** The JSON upload action up to the control API: read, then the guard. */
  function JsonUpload(doc: Json, deviceTypes: set<string>, canon: string -> string): Result<UploadStep, ReadError> {
    var devices :- JsonDocumentDevices(doc, deviceTypes, canon);
    Ok(UploadGuard(devices))
  }

  /** The CSV upload action up to the control API: read, then the guard. */
  function CsvUpload(rows: seq<CsvRow>, deviceTypes: set<string>, canon: string -> string): Result<UploadStep, ReadError> {
    var devices :- CsvDevices(rows, deviceTypes, canon);
    Ok(UploadGuard(devices))
  }

  /**
   * The JSON reader makes one device per entry, in order, each named by the
   * canonicaliser; `create_devices` is reached exactly when every entry
   * reads and there is at least one.
   */
  lemma JsonUploadCreates(data: seq<Json>, deviceTypes: set<string>, canon: string -> string)
    ensures JsonUpload(JArray(data), deviceTypes, canon).Ok? <==> forall k :: 0 <= k < |data| ==> JsonEntryDevice(data[k], deviceTypes, canon).Ok?
    ensures JsonUpload(JArray(data), deviceTypes, canon).Ok? ==>
      var step := JsonUpload(JArray(data), deviceTypes, canon).value;
      && (step.CreateDevices? <==> data != [])
      && (step.CreateDevices? ==> (|step.devices| == |data| &&
            forall k :: 0 <= k < |data| ==> step.devices[k] == JsonEntryDevice(data[k], deviceTypes, canon).value))
  {
    var f := JsonEntryReader(deviceTypes, canon);
    assert forall k :: 0 <= k < |data| ==> f(data[k]) == JsonEntryDevice(data[k], deviceTypes, canon);
  }

  /** The first JSON entry that raises, a `deviceType` that is not a member name among others, aborts the whole read with its error. */
  lemma FailingEntryAborts(data: seq<Json>, deviceTypes: set<string>, canon: string -> string, i: nat)
    requires i < |data|
    requires forall k :: 0 <= k < i ==> JsonEntryDevice(data[k], deviceTypes, canon).Ok?
    requires JsonEntryDevice(data[i], deviceTypes, canon).Err?
    ensures JsonUpload(JArray(data), deviceTypes, canon) == Err(JsonEntryDevice(data[i], deviceTypes, canon).error)
  {
    MapAllFirstError(data, JsonEntryReader(deviceTypes, canon), i);
  }

  /**
   * The CSV reader makes one device per row, in order; `create_devices` is
   * reached exactly when every row reads and there is at least one.
   */
  lemma CsvUploadCreates(rows: seq<CsvRow>, deviceTypes: set<string>, canon: string -> string)
    ensures CsvUpload(rows, deviceTypes, canon).Ok? <==> forall k :: 0 <= k < |rows| ==> CsvRowDevice(rows[k], deviceTypes, canon).Ok?
    ensures CsvUpload(rows, deviceTypes, canon).Ok? ==>
      var step := CsvUpload(rows, deviceTypes, canon).value;
      && (step.CreateDevices? <==> rows != [])
      && (step.CreateDevices? ==> (|step.devices| == |rows| &&
            forall k :: 0 <= k < |rows| ==> step.devices[k] == CsvRowDevice(rows[k], deviceTypes, canon).value))
  {
    var f := CsvRowReader(deviceTypes, canon);
    assert forall k :: 0 <= k < |rows| ==> f(rows[k]) == CsvRowDevice(rows[k], deviceTypes, canon);
  }

  /** The dictionary the normalisers append for a record, as `json.load` gives it back. */
  function ExportJson(r: DeviceImport): (j: Json)
    ensures j.JObject? && j.fields.Keys == {"deviceType", "enabled", "host", "name", "description", "terminal"}
    ensures j.fields["terminal"].JObject? && TerminalComplete(j.fields["terminal"].fields)
    ensures j.fields["terminal"].fields.Keys == {
      "port", "connectionMethod", "username", "enableSet",
      "useInsecureAlgorithms", "useTunnelingIfJumphost", "password", "enable"}
  {
    JObject(map[
      "deviceType" := JString(r.deviceType),
      "enabled" := JBool(r.enabled),
      "host" := JString(r.host),
      "name" := JString(r.name),
      "description" := JString(r.description),
      "terminal" := JObject(map[
        "port" := JInt(r.terminal.port),
        "connectionMethod" := JString(r.terminal.connectionMethod),
        "username" := JString(r.terminal.username),
        "enableSet" := JBool(r.terminal.enableSet),
        "useInsecureAlgorithms" := JBool(r.terminal.useInsecureAlgorithms),
        "useTunnelingIfJumphost" := JBool(r.terminal.useTunnelingIfJumphost),
        "password" := JString(r.terminal.password),
        "enable" := JString(r.terminal.enable)])])
  }

  /** The terminal the JSON reader should make of an exported record: all eight fields carried over. */
  function ReimportedTerminal(t: Terminal): NewTerminal {
    NewTerminal(
      Some(JInt(t.port)), Some(JString(t.connectionMethod)), JString(t.username), JBool(t.enableSet),
      Some(JBool(t.useInsecureAlgorithms)), Some(JBool(t.useTunnelingIfJumphost)), JString(t.password), JString(t.enable))
  }

  /** The device the JSON reader should make of an exported record: every field carried over, the name canonicalised again. */
  function Reimported(r: DeviceImport, canon: string -> string): NewDevice {
    NewDevice(
      canon(r.name), JString(r.host), Some(JString(r.description)), r.deviceType,
      ReimportedTerminal(r.terminal), JBool(r.enabled))
  }

  /** Reading back the terminal of one exported record gives all eight of its fields back. */
  lemma ExportTerminalThenRead(r: DeviceImport)
    ensures JsonTerminal(ExportJson(r)) == Ok(ReimportedTerminal(r.terminal))
  {
  }

  /** Reading back one exported record gives every field back, given its device type is a member. */
  lemma ExportThenRead(r: DeviceImport, deviceTypes: set<string>, canon: string -> string)
    requires r.deviceType in deviceTypes
    ensures JsonEntryDevice(ExportJson(r), deviceTypes, canon) == Ok(Reimported(r, canon))
  {
    var f := ExportJson(r).fields;
    ExportTerminalThenRead(r);
    assert f["name"] == JString(r.name) && f["deviceType"] == JString(r.deviceType);
    assert JsonEntryDevice(ExportJson(r), deviceTypes, canon).Ok?;
  }

  /** The list of dictionaries `json.dump` writes for a list of records. */
  function ExportList(records: seq<DeviceImport>): (data: seq<Json>)
    ensures |data| == |records|
    ensures forall k :: 0 <= k < |records| ==> data[k] == ExportJson(records[k])
  {
    seq(|records|, k requires 0 <= k < |records| => ExportJson(records[k]))
  }

  /**
   * Round trip: a list the normalisers wrote is read back whole, in order,
   * field for field, as long as "IOS_XE" is a device type.
   */
  lemma NormalisedListReadsBack(records: seq<DeviceImport>, deviceTypes: set<string>, canon: string -> string)
    requires forall k :: 0 <= k < |records| ==> records[k].deviceType in deviceTypes
    ensures JsonDevices(ExportList(records), deviceTypes, canon)
      == Ok(seq(|records|, k requires 0 <= k < |records| => Reimported(records[k], canon)))
  {
    var data := ExportList(records);
    var expected := seq(|records|, k requires 0 <= k < |records| => Reimported(records[k], canon));
    var f := JsonEntryReader(deviceTypes, canon);
    forall k | 0 <= k < |data|
      ensures f(data[k]) == Ok(expected[k])
    {
      ExportThenRead(records[k], deviceTypes, canon);
    }
    assert MapAll(data, f).Ok?;
    assert MapAll(data, f).value == expected;
  }

  /** The Meraki list written and read back gives one device per Catalyst 9000, named canon(canon(name)). */
  lemma MerakiExportReadsBack(devices: seq<MerakiDevice>, cred: Credentials, canon: string -> string, deviceTypes: set<string>)
    requires "IOS_XE" in deviceTypes
    ensures
      var records := MerakiRecords(devices, cred, canon);
      var read := JsonDevices(ExportList(records), deviceTypes, canon);
      && read.Ok? && |read.value| == |Positions(devices, IsCatalyst9k)|
      && forall j :: 0 <= j < |read.value| ==>
           read.value[j].name == canon(canon(devices[Positions(devices, IsCatalyst9k)[j]].name))
  {
    var records := MerakiRecords(devices, cred, canon);
    MerakiKeepsCatalyst9k(devices, cred, canon);
    NormalisedListReadsBack(records, deviceTypes, canon);
  }
}
