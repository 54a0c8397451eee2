# RADKit device tool — a Dafny model of its data transforms

The RADKit device tool (`python/radkit-device-tool.py`) is an interactive
script. It collects switches from a Meraki dashboard or from Catalyst
Center, writes them as a JSON list of device-import records, and uploads
such a list (as JSON or CSV) to a RADKit service. It can also write one
YAML document per Meraki switch that describes its ports' VLAN settings.

This project models the parts of the tool that compute something:

* **Inventory** (`inventory.dfy`). The two normalisers.
  * Meraki keeps only models whose name starts with `C9`.
  * Catalyst Center keeps every device.
  * Both fill in the same fixed fields: `IOS_XE`, enabled, SSH on port 22,
    enable set, no insecure algorithms, tunnelling through a jump host.
  * Both use the batch credentials and a provenance tag (`meraki` or
    `dnac`) as the description.
* **PortConfig** (`ports.dfy`). `create_yaml` builds one interface entry
  per port.
  * A name is split at its first `-` and both halves are stripped.
  * A port is dropped only when its name is absent.
  * Trunk, access and voice blocks depend on the port type.
  * The document is `{system: [{device_name}], interfaces}`, written to
    `<output_dir>/<name.lower()>.yaml`.
* **Importer** (`importer.dfy`). The JSON and CSV readers build
  `NewDevice`/`NewTerminal` records in the order Python evaluates the
  subscripts.
  * The document may be any JSON value; only a list yields devices.
  * Any exception aborts the whole read.
  * The upload guard calls `create_devices` only with a non-empty list.
  * A list the normalisers wrote reads back field for field.
* **Selection** (`selection.dfy`). Choosing an organization or a network
  by the index the operator types is `items[int(text) - 1]`, with Python's
  negative indexing. So `0` selects the last item, `-k` counts from the
  end, and `ValueError`/`IndexError` give no selection.
* **Text** (`text.dfy`). The Python string operations the transforms
  depend on:
  * `str.strip()` over Python's whitespace set;
  * `split('-', 1)`;
  * `startswith`;
  * ASCII `lower()`;
  * POSIX `os.path.join`;
  * `int()` on text, which skips a narrower set of whitespace than
    `strip()` and reads at most 4300 digits.
* **Sequences** (`sequences.dfy`). The two loop shapes as reference
  definitions: an order-preserving filter (`Positions`), and a map that
  stops at the first error (`MapAll`).

Each loop of the tool is a method with a `while` loop. The method is
proved equal to a specification function, and the lemmas state what the
tool promises about that function.

The name canonicalisers `to_canonical_name` and `canonical_interface_name`
belong to libraries outside this model. They are parameters (`canon`,
`canonIf`) about which nothing is assumed; in particular they are not
assumed idempotent. So the round trip through the JSON file gives the
name `canon(canon(name))`.

`create_yaml` drops a port only when its name is `None`
(`python/radkit-device-tool.py:273-274`). An empty name, or one such as
`- uplink` that starts with `-`, is kept and emitted with an empty
interface name. `PortConfig.EmptyNameKept` and `PortConfig.LeadingDashKept`
state this behaviour.

## Model

| member | source | states |
|---|---|---|
| Inventory.MerakiPrepare | python/radkit-device-tool.py:99-118 | the loop builds exactly the list `MerakiRecords` specifies |
| Inventory.MerakiKeepsCatalyst9k | python/radkit-device-tool.py:100-118 | the output holds one record per device whose model starts with "C9", in input order: the j-th record is built from the j-th such device |
| Inventory.MerakiRecordFields | python/radkit-device-tool.py:102-118 | every Meraki record has the fixed fields, the batch credentials and description "meraki", and its host and canonical name come from a Catalyst 9000 device of the input |
| Inventory.MerakiScenario | python/radkit-device-tool.py:100-118 | of a C9300 and a C8200, only the C9300 is imported, with its LAN IP, canonical name, port 22 and SSH |
| Inventory.DnacPrepare | python/radkit-device-tool.py:144-162 | the loop over `devices['response']` builds exactly the list `DnacRecords` specifies |
| Inventory.DnacMapsEveryDevice | python/radkit-device-tool.py:145-162 | there is no filter: one record per device, in the same order |
| Inventory.DnacRecordFields | python/radkit-device-tool.py:146-162 | the k-th record has the fixed fields, the batch credentials, description "dnac", and the k-th device's management IP and canonical hostname |
| PortConfig.DerivePort | python/radkit-device-tool.py:261-301 | a port is dropped iff its name is None. Otherwise the entry has the canonical split name, the description, enabled and mode. It has a trunk block iff the type is "trunk" (allowed VLANs, native VLAN) and an access block iff the type is "access". It has a voice block iff the type is "access" and a voice VLAN is set |
| PortConfig.SplitPortName | python/radkit-device-tool.py:266-270 | a name gets a description iff it contains '-'. Without one it is kept as it is; with one, the interface part has no '-', and the two parts are shorter than the name together |
| PortConfig.DeriveInterfaces | python/radkit-device-tool.py:261-301 | there is at most one entry per port, and exactly one per port iff every port is named |
| PortConfig.CreateYaml | python/radkit-device-tool.py:252-304 | the file name is `join(output_dir, lower(name) + ".yaml")`, and the document is the device name followed by the entries the loop derives from the ports |
| PortConfig.DeriveKeepsNamedPorts | python/radkit-device-tool.py:261-301 | the output holds one entry per named port, in port order: the j-th entry is derived from the j-th port whose name is not None |
| PortConfig.SplitAtFirstDash | python/radkit-device-tool.py:266-270 | a name `left-right` with no '-' in `left` becomes (strip(left), strip(right)), even when `right` contains more dashes |
| PortConfig.NoDashKeepsName | python/radkit-device-tool.py:266-270 | a name without '-', the empty name included, is kept as it is, with no description |
| PortConfig.SpacedDashName | python/radkit-device-tool.py:266-270 | "<interface> - <description>" gives back both parts unchanged |
| PortConfig.SplitExample | python/radkit-device-tool.py:266-270 | "Gi1/0/1 - uplink to core" gives interface "Gi1/0/1" and description "uplink to core" |
| PortConfig.LeadingDashKept | python/radkit-device-tool.py:266-278 | a name that starts with '-' is not dropped: it gets interface name canonIf("") and the stripped rest as its description |
| PortConfig.EmptyNameKept | python/radkit-device-tool.py:266-279 | an empty name is not dropped: it gets interface name canonIf("") and no description |
| PortConfig.YamlFileName | python/radkit-device-tool.py:254-255 | the file is `<output_dir>/<lower(name)>.yaml`, with no separator added after a trailing '/'; a name starting with '/' replaces the directory |
| Importer.Field | python/radkit-device-tool.py:176-191 | `v[key]` succeeds iff `v` is an object holding `key`. Otherwise it raises KeyError(key) for an object and TypeError for anything else |
| Importer.LookupDeviceType | python/radkit-device-tool.py:189 | `DeviceType[v]` succeeds iff `v` is a member name. Otherwise it raises TypeError for a list or object and a lookup error for anything else |
| Importer.AsString | python/radkit-device-tool.py:186 | a name is used iff it is a JSON string, and then as that string; any other value ends the read with `NameNotText` of that value |
| Importer.ReadKeys | python/radkit-device-tool.py:176-183 | subscripting keys in turn succeeds iff every key is present, and then gives their values in key order |
| Importer.ReadKeysFirstMissing | python/radkit-device-tool.py:176-183 | when keys are missing, the error is the KeyError of the first one missing |
| Importer.JsonTerminal | python/radkit-device-tool.py:175-184 | the terminal reads iff the entry is an object whose `terminal` is an object holding all eight keys. It then carries the eight values as found, port, connection method and the two algorithm flags included. A non-object entry or terminal raises TypeError, and a missing `terminal` raises KeyError("terminal") |
| Importer.TerminalFirstMissing | python/radkit-device-tool.py:175-184 | a terminal missing some keys raises the KeyError of the first one missing, in argument order |
| Importer.JsonEntryDevice | python/radkit-device-tool.py:174-192 | an entry reads iff its terminal reads and `name` (a string), `host`, `description`, `deviceType` (a member name) and `enabled` are present. The device then has the canonical name and every other value as found. An unknown device-type string makes the entry fail |
| Importer.EntryFirstError | python/radkit-device-tool.py:174-192 | the exception an entry raises is the terminal's, else the first of: KeyError of a missing `name`, `NameNotText`, KeyError of `host`, `description` or `deviceType`, the device-type lookup error, KeyError of `enabled`, in subscript order |
| Importer.NonListDocumentReadsNothing | python/radkit-device-tool.py:173-174 | a document that is not a list yields no device: an empty object or empty string reads nothing, and any other value raises TypeError |
| Importer.ReadJsonDevices | python/radkit-device-tool.py:171-193 | the loop returns what `JsonDocumentDevices` specifies: for a list, all devices in order or the error of the first entry that fails, as `MapAll` specifies |
| Importer.Column | python/radkit-device-tool.py:217-228 | `row[column]` succeeds iff the column exists, and raises KeyError(column) otherwise |
| Importer.CsvRowDevice | python/radkit-device-tool.py:216-229 | a row reads iff all eight columns are present and "deviceType(mandatory)" is a member name. The device then has the canonical name, the host, username, enable-set, password, enable and `enabled` cells as text, and neither a description nor a port. An unknown device type makes the row fail |
| Importer.CsvRowFirstError | python/radkit-device-tool.py:216-229 | a row missing columns raises the KeyError of the first one missing in subscript order, except that an unknown device type is raised before `enabled` is looked at |
| Importer.ReadCsvDevices | python/radkit-device-tool.py:213-230 | the loop returns all devices in order, or the error of the first row that fails |
| Sequences.MapAllFirstError | python/radkit-device-tool.py:174-192 | when entry i is the first that raises, the whole read fails with that entry's error |
| Importer.FailingEntryAborts | python/radkit-device-tool.py:174-193 | the first entry that fails, for instance on an unknown device type, aborts the JSON upload with its error, so nothing is created |
| Importer.UploadGuard | python/radkit-device-tool.py:198-206 | `create_devices` is called iff the device list is non-empty, and then with the whole list |
| Importer.JsonUploadCreates | python/radkit-device-tool.py:171-206 | the JSON upload reads successfully iff every entry reads. It then reaches `create_devices` iff there was at least one entry, with one device per entry in order |
| Importer.CsvUploadCreates | python/radkit-device-tool.py:213-243 | the CSV upload reads successfully iff every row reads. It then reaches `create_devices` iff there was at least one row, with one device per row in order |
| Importer.ExportJson | python/radkit-device-tool.py:102-117 | a written record has exactly the keys deviceType, enabled, host, name, description and terminal, and its terminal exactly the eight terminal keys |
| Importer.ExportList | python/radkit-device-tool.py:99-120 | the written list has one dictionary per record, in order |
| Importer.ExportTerminalThenRead | python/radkit-device-tool.py:175-184 | reading back an exported record's terminal gives all eight of its fields back |
| Importer.ExportThenRead | python/radkit-device-tool.py:174-192 | an exported record whose device type is a member reads back with every field carried over and the name canonicalised once more |
| Importer.NormalisedListReadsBack | python/radkit-device-tool.py:173-192 | a whole exported list reads back without error, in order, field for field |
| Importer.MerakiExportReadsBack | python/radkit-device-tool.py:100-118 | writing the Meraki list and reading it back gives one device per Catalyst 9000 device, named canon(canon(name)) |
| Selection.PyIndex | python/radkit-device-tool.py:71 | Python's `items[i]` succeeds iff -n <= i < n, and a negative i counts from the end |
| Selection.SelectByIndex | python/radkit-device-tool.py:71 | `items[int(text) - 1]` selects iff `int()` accepts the text as k with -n < k <= n, and then selects `items[(k - 1) mod n]`: the k-th item for k >= 1, counted from the end for k <= 0 |
| Selection.PyIndexModulo | python/radkit-device-tool.py:71 | wherever Python's `items[i]` succeeds it is the item at i mod n |
| Selection.WrapIndex | python/radkit-device-tool.py:71 | an index i with -n <= i < n addresses position i mod n: i itself when non-negative, n + i when negative |
| Selection.SelectOrganization | python/radkit-device-tool.py:69-76 | an organization is chosen iff the index text selects one. The result is the id of exactly the organization `SelectByIndex` selects, with the networks listed for it |
| Selection.SelectNetwork | python/radkit-device-tool.py:83-89 | a network is chosen iff the index text selects one, and the result is the id of exactly the network `SelectByIndex` selects |
| Selection.SelectListedNumber | python/radkit-device-tool.py:67-71 | typing the number k shown next to an item (1..n) selects that item, for k within the 4300-digit limit of `int()` |
| Selection.SelectZeroIsLast | python/radkit-device-tool.py:71 | "0" is accepted and selects the last item |
| Selection.SelectNegative | python/radkit-device-tool.py:71 | "-k" selects the item k + 1 places from the end, for k < n within the digit limit |
| Selection.SelectOutOfRange | python/radkit-device-tool.py:70-76 | a number above n, or "-k" for k >= n, selects nothing: IndexError, or ValueError when it has more than 4300 digits |
| Selection.SelectTooManyDigits | python/radkit-device-tool.py:70-76 | an index of more than 4300 digits selects nothing even when its value is in range, such as 4300 zeros followed by "1" |
| Selection.SelectNonNumeric | python/radkit-device-tool.py:70-76 | text that `int()` rejects selects nothing |
| Selection.NonNumericExamples | python/radkit-device-tool.py:69-76 | `int()` rejects the empty text and a word; only a word can reach it, since the prompt asks again on an empty answer |
| Text.StripWith | python/radkit-device-tool.py:269-270 | stripping keeps a run of the text with only whitespace before and after it, and no whitespace at its ends |
| Text.Strip | python/radkit-device-tool.py:269-270 | `strip()` does that over the whitespace of `str.isspace()` |
| Text.IntStrip | python/radkit-device-tool.py:71 | `int()` trims its argument the same way, over its own whitespace set |
| Text.StripWithTrimmed | python/radkit-device-tool.py:269-270 | a text that neither starts nor ends with whitespace is left unchanged |
| Text.StripAddsNothing | python/radkit-device-tool.py:268-270 | `strip()` brings in no character and never lengthens the text |
| Text.SeparatorStrippedNotSkipped | python/radkit-device-tool.py:71 | U+001C is removed by `strip()` but not skipped by `int()`: "\x1c1" strips to "1", while `int()` rejects it |
| Text.StripUnique | python/radkit-device-tool.py:269-270 | any run of the text with only whitespace around it and none at its ends is what `strip()` returns |
| Text.StripAround | python/radkit-device-tool.py:269-270 | whitespace around a trimmed core is exactly what `strip()` removes |
| Text.StripOneSpace | python/radkit-device-tool.py:269-270 | one space on either side of a trimmed word is removed |
| Text.StartsWith | python/radkit-device-tool.py:101 | `startswith` holds iff the prefix is no longer than the text and matches it character for character |
| Text.IndexOf | python/radkit-device-tool.py:267 | '-' in name holds iff there is an index; the index is that of the first '-' |
| Text.SplitFirst | python/radkit-device-tool.py:268 | `split('-', 1)` gives two parts that rebuild the name around one '-', and the first part has no '-' |
| Text.SplitFirstUnique | python/radkit-device-tool.py:268 | that split is the only way to write the name as left + '-' + right with no '-' in left |
| Text.JoinPath | python/radkit-device-tool.py:255 | an absolute name replaces the directory. Otherwise the path starts with the directory; it always ends with the name and adds at most one separator |
| Text.Lower | python/radkit-device-tool.py:255 | `lower()` keeps the length and maps each ASCII capital to its small letter, leaving every other character alone |
| Text.ParseInt | python/radkit-device-tool.py:71 | `int()` of text that is empty once trimmed raises ValueError; an accepted text ends in a digit, and a negative result comes from a leading '-' |
| Text.ParseIntDigitLimit | python/radkit-device-tool.py:71 | `int()` rejects a digit run with more than 4300 digits (leading zeros counted, underscores not), with or without a '-' |
| Text.AllDigitsCount | python/radkit-device-tool.py:71 | in a text of digits only, every character counts toward the limit |
| Text.ParseDecimal | python/radkit-device-tool.py:71 | `int()` reads back the decimal text of every natural number of at most 4300 digits, with or without a leading '-' |
| Text.ParseUnsigned | python/radkit-device-tool.py:71 | `int()` of a digit run (underscores allowed between digits) of at most 4300 digits is its value |
| Text.ParseNegated | python/radkit-device-tool.py:71 | `int()` of '-' followed by a digit run of at most 4300 digits is its value negated |

## Left out

- Calls to the Meraki dashboard, Catalyst Center and RADKit control APIs are external services. The lists they return are inputs, and `create_devices` is the `CreateDevices` step.
- Prompts (`input`, `getpass`, `click.prompt`), messages, the menu loop in `main` and `initialize_dashboard` are terminal I/O. The answers are parameters.
- `json.dump`, `yaml.dump` and file writes are serialisation and I/O. The model returns the list or document. `ExportJson` is what `json.load` gives back for one written record. YAML key order follows the datatype field order.
- The `except Exception` around the upload is left out. It catches only failures of the service session, which is external.
- `to_canonical_name` and `canonical_interface_name` are library code outside this model. They are the `canon` and `canonIf` parameters, with no assumed properties.
- The `DeviceType` enumeration is library code. Its member names are the `deviceTypes` parameter.
- `NewDevice` and `NewTerminal` validation is library code. The model keeps the values as read, so the CSV reader's `enabled` and `enableSet` stay cell text.
- Floating-point JSON numbers are not modelled: the `Json` datatype has integers only.
- Importer.CsvRowDevice: a short CSV row gives `None` for the missing cells (`csv.DictReader` fills them in). The model only sees rows as maps from header to text.
- Inventory.MerakiPrepare: Meraki and Catalyst Center elements are typed records whose fields are present strings. A missing key or a null model or name (KeyError, AttributeError) is not modelled.
- PortConfig.CreateYaml: a port's fields are typed. A missing `enabled`, `type`, `allowedVlans`, `vlan` or `voiceVlan` key (KeyError) is not modelled.
- Selection.SelectOrganization: an organization or network always has an `id`. The network listing for an organization is the `networksOf` parameter.
- Text.Lower: lower-cases ASCII letters only. Python's `str.lower` also maps other Unicode letters.
- Text.ParseInt: accepts ASCII digits only. Python's `int()` also accepts other Unicode decimal digits.
- Importer.AsString: what `to_canonical_name` does with a name that is not a string is not modelled. Such a name ends the read with `NameNotText` instead.
- Text.JoinPath: `os.path.join` is modelled in its POSIX two-argument form.
