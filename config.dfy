/**
 * The installer's persisted configuration (src-tauri/src/app/config.rs):
 * the entities, their `Default` values, the `is_default` test, the JSON
 * each derived `Serialize` writes, the derived `Deserialize` of the
 * entities whose decoding is fully determined by that file, and the total
 * `Config::from_json_string` entry point.
 */
module AppConfig {
  import opened Wrappers
  import opened Json
  import opened Serde

  /** `partition::device::SuggestedPartition` is not part of this model; it is only ever held, never encoded. */
  type SuggestedPartition

  // ---------------------------------------------------------------------------
  // Entities
  // ---------------------------------------------------------------------------

  /** One row of an observed or planned partition table; every field may still be undetermined. */
  datatype P = P(
    name: Option<string>,
    partitionName: Option<string>,
    start: Option<I128>,
    size: Option<I128>,
    action: Option<string>,
    end: Option<I128>,
    fileSytem: Option<string>)   // spelled as in the source, and written under that key

  /** A snapshot of the disk layout. */
  datatype SystemStorageInfo = SystemStorageInfo(partitions: seq<P>)

  /** The partitioning choice. The last three sequences are scratch data and are never serialized. */
  datatype Partition = Partition(
    device: string,
    mode: string,
    efi: bool,
    swap: bool,
    swapSize: string,
    partitions: Json,
    installAlongPartitions: seq<SuggestedPartition>,
    systemStorageInfo: seq<SystemStorageInfo>,
    systemStorageInfoCurrent: seq<SystemStorageInfo>,
    encryptCheck: bool)

  /** The field `r#type` is written under the key "type". */
  datatype Bootloader = Bootloader(loaderType: string, location: string)

  /** What to do with an existing partition while planning. */
  datatype PartitionAction = Delete | Shrink | Create | None

  datatype Locale = Locale(locale: seq<string>, timezone: string, virtkeymap: string, x11keymap: string)

  datatype Networking = Networking(hostname: string, ipv6: bool)

  datatype Params = Params(cores: I32, jobs: I32, keep: bool)

  /** The whole configuration; apart from `partition` and `base` every section is an open JSON value. */
  datatype Config = Config(
    partition: Partition,
    bootloader: Json,
    locale: Json,
    networking: Json,
    users: Json,
    rootpass: Json,
    desktop: Json,
    theme: Json,
    displayManager: Json,
    browser: Json,
    packagesStore: Json,
    extraPackages: Json,
    kernel: Json,
    snapper: Json,
    zramd: Json,
    hardened: Json,
    flatpak: Json,
    params: Json,
    terminal: Json,
    base: string)

  // ---------------------------------------------------------------------------
  // The field declarations, with their serde attributes, in declaration order
  // ---------------------------------------------------------------------------

  const PartitionFields: seq<FieldDecl> := [
    FieldDecl("device", Plain),
    FieldDecl("mode", Plain),
    FieldDecl("efi", Plain),
    FieldDecl("swap", Plain),
    FieldDecl("swap_size", SkipSerializingIfDefault),
    FieldDecl("partitions", Plain),
    FieldDecl("installAlongPartitions", SkipSerializing),
    FieldDecl("system_storage_info", SkipSerializing),
    FieldDecl("system_storage_info_current", SkipSerializing),
    FieldDecl("encrypt_check", Plain)
  ]

  const SystemStorageInfoFields: seq<FieldDecl> := [FieldDecl("partitions", Plain)]

  const PFields: seq<FieldDecl> := [
    FieldDecl("name", Plain),
    FieldDecl("partitionName", Plain),
    FieldDecl("start", Plain),
    FieldDecl("size", Plain),
    FieldDecl("action", Plain),
    FieldDecl("end", Plain),
    FieldDecl("fileSytem", Plain)
  ]

  const BootloaderFields: seq<FieldDecl> := [
    FieldDecl("r#type", Rename("type")),
    FieldDecl("location", Plain)
  ]

  const LocaleFields: seq<FieldDecl> := [
    FieldDecl("locale", Plain),
    FieldDecl("timezone", Plain),
    FieldDecl("virtkeymap", Plain),
    FieldDecl("x11keymap", Plain)
  ]

  const NetworkingFields: seq<FieldDecl> := [FieldDecl("hostname", Plain), FieldDecl("ipv6", Plain)]

  const ParamsFields: seq<FieldDecl> := [FieldDecl("cores", Plain), FieldDecl("jobs", Plain), FieldDecl("keep", Plain)]

  /**
   * `Config`'s fields, given in two halves (up to `browser`, and from
   * `packagesStore` on) so that proofs can compute the keys of each half
   * separately.
   */
  const ConfigFields: seq<FieldDecl> := ConfigFieldsToBrowser + ConfigFieldsFromPackagesStore

  const ConfigFieldsToBrowser: seq<FieldDecl> := [
    FieldDecl("partition", Plain),
    FieldDecl("bootloader", Plain),
    FieldDecl("locale", Plain),
    FieldDecl("networking", Plain),
    FieldDecl("users", Plain),
    FieldDecl("rootpass", Plain),
    FieldDecl("desktop", Plain),
    FieldDecl("theme", Plain),
    FieldDecl("displayManager", Plain),
    FieldDecl("browser", Plain)
  ]

  const ConfigFieldsFromPackagesStore: seq<FieldDecl> := [
    FieldDecl("packagesStore", SkipSerializing),
    FieldDecl("extra_packages", Plain),
    FieldDecl("kernel", Plain),
    FieldDecl("snapper", Plain),
    FieldDecl("zramd", Plain),
    FieldDecl("hardened", Plain),
    FieldDecl("flatpak", Plain),
    FieldDecl("params", Plain),
    FieldDecl("terminal", Plain),
    FieldDecl("base", SkipSerializing)
  ]

  // ---------------------------------------------------------------------------
  // Defaults and `is_default`
  // ---------------------------------------------------------------------------

  function DefaultPartition(): Partition
  {
    Partition("", "", false, false, "", Null, [], [], [], false)
  }

  function DefaultBootloader(): Bootloader
  {
    Bootloader("", "")
  }

  function DefaultLocale(): Locale
  {
    Locale([], "", "", "")
  }

  function DefaultNetworking(): Networking
  {
    Networking("", false)
  }

  function DefaultParams(): Params
  {
    Params(0, 0, false)
  }

  function DefaultConfig(): Config
  {
    Config(DefaultPartition(), Null, Null, Null, Null, Null, Null, Null, Null, Null, Null,
           Null, Null, Null, Null, Null, Null, Null, Null, "arch")
  }

  /** The test behind `skip_serializing_if` on `swap_size`: the string is empty. */
  function IsDefault(s: string): (b: bool)
    ensures b <==> s == ""
  {
    |s| == 0
  }

  /** The identifiers of the `Partition` fields whose value `is_default` accepts. */
  function PartitionEmptyFields(p: Partition): set<string>
  {
    if IsDefault(p.swapSize) then {"swap_size"} else {}
  }

  // ---------------------------------------------------------------------------
  // Encoding: what each derived `Serialize` writes
  // ---------------------------------------------------------------------------

  function EncodeString(s: string): Json
  {
    Str(s)
  }

  function EncodeI128(n: I128): Json
  {
    Int(n as int)
  }

  function EncodeP(p: P): (j: Json)
    ensures j.Object? && DistinctKeys(j.fields)
    ensures Keys(j.fields) == EmittedKeys(PFields, {})
  {
    Object([
      ("name", EncodeOption(p.name, EncodeString)),
      ("partitionName", EncodeOption(p.partitionName, EncodeString)),
      ("start", EncodeOption(p.start, EncodeI128)),
      ("size", EncodeOption(p.size, EncodeI128)),
      ("action", EncodeOption(p.action, EncodeString)),
      ("end", EncodeOption(p.end, EncodeI128)),
      ("fileSytem", EncodeOption(p.fileSytem, EncodeString))
    ])
  }

  function EncodePs(ps: seq<P>): (items: seq<Json>)
    ensures |items| == |ps|
    ensures forall i :: 0 <= i < |ps| ==> items[i] == EncodeP(ps[i])
  {
    if ps == [] then [] else [EncodeP(ps[0])] + EncodePs(ps[1..])
  }

  function EncodeSystemStorageInfo(info: SystemStorageInfo): (j: Json)
    ensures j.Object? && DistinctKeys(j.fields)
    ensures Keys(j.fields) == EmittedKeys(SystemStorageInfoFields, {})
  {
    Object([("partitions", Array(EncodePs(info.partitions)))])
  }

  function EncodePartition(p: Partition): (j: Json)
    ensures j.Object? && DistinctKeys(j.fields)
  {
    Object(
      [("device", Str(p.device)), ("mode", Str(p.mode)), ("efi", Bool(p.efi)), ("swap", Bool(p.swap))]
      + (if IsDefault(p.swapSize) then [] else [("swap_size", Str(p.swapSize))])
      + [("partitions", p.partitions), ("encrypt_check", Bool(p.encryptCheck))])
  }

  function EncodeBootloader(b: Bootloader): (j: Json)
    ensures j.Object? && DistinctKeys(j.fields)
    ensures Keys(j.fields) == EmittedKeys(BootloaderFields, {})
  {
    Object([("type", Str(b.loaderType)), ("location", Str(b.location))])
  }

  /** A unit variant is written as its name. */
  function EncodePartitionAction(a: PartitionAction): (j: Json)
    ensures j.Str?
  {
    match a
    case Delete => Str("Delete")
    case Shrink => Str("Shrink")
    case Create => Str("Create")
    case None => Str("None")
  }

  function EncodeStrings(xs: seq<string>): (items: seq<Json>)
    ensures |items| == |xs|
    ensures forall i :: 0 <= i < |xs| ==> items[i] == Str(xs[i])
  {
    if xs == [] then [] else [Str(xs[0])] + EncodeStrings(xs[1..])
  }

  function EncodeLocale(l: Locale): (j: Json)
    ensures j.Object? && DistinctKeys(j.fields)
    ensures Keys(j.fields) == EmittedKeys(LocaleFields, {})
  {
    Object([
      ("locale", Array(EncodeStrings(l.locale))),
      ("timezone", Str(l.timezone)),
      ("virtkeymap", Str(l.virtkeymap)),
      ("x11keymap", Str(l.x11keymap))
    ])
  }

  function EncodeNetworking(n: Networking): (j: Json)
    ensures j.Object? && DistinctKeys(j.fields)
    ensures Keys(j.fields) == EmittedKeys(NetworkingFields, {})
  {
    Object([("hostname", Str(n.hostname)), ("ipv6", Bool(n.ipv6))])
  }

  function EncodeParams(p: Params): (j: Json)
    ensures j.Object? && DistinctKeys(j.fields)
    ensures Keys(j.fields) == EmittedKeys(ParamsFields, {})
  {
    Object([("cores", Int(p.cores as int)), ("jobs", Int(p.jobs as int)), ("keep", Bool(p.keep))])
  }

  /** The fields of an encoded `Config` from `partition` to `browser`. */
  function EncodeConfigToBrowser(c: Config): (fs: seq<(string, Json)>)
    ensures Keys(fs) == EmittedKeys(ConfigFieldsToBrowser, {})
  {
    [
      ("partition", EncodePartition(c.partition)),
      ("bootloader", c.bootloader),
      ("locale", c.locale),
      ("networking", c.networking),
      ("users", c.users),
      ("rootpass", c.rootpass),
      ("desktop", c.desktop),
      ("theme", c.theme),
      ("displayManager", c.displayManager),
      ("browser", c.browser)
    ]
  }

  /** The fields of an encoded `Config` from `packagesStore` on: `packagesStore` and `base` are skipped. */
  function EncodeConfigFromPackagesStore(c: Config): (fs: seq<(string, Json)>)
    ensures Keys(fs) == EmittedKeys(ConfigFieldsFromPackagesStore, {})
  {
    [
      ("extra_packages", c.extraPackages),
      ("kernel", c.kernel),
      ("snapper", c.snapper),
      ("zramd", c.zramd),
      ("hardened", c.hardened),
      ("flatpak", c.flatpak),
      ("params", c.params),
      ("terminal", c.terminal)
    ]
  }

  function EncodeConfig(c: Config): (j: Json)
    ensures j.Object?
    ensures Keys(j.fields) == EmittedKeys(ConfigFields, {})
  {
    KeysAppend(EncodeConfigToBrowser(c), EncodeConfigFromPackagesStore(c));
    EmittedKeysAppend(ConfigFieldsToBrowser, ConfigFieldsFromPackagesStore, {});
    Object(EncodeConfigToBrowser(c) + EncodeConfigFromPackagesStore(c))
  }

  // ---------------------------------------------------------------------------
  // Decoding: what each derived `Deserialize` accepts (object form)
  // ---------------------------------------------------------------------------

  function DecodeP(j: Json): (r: Decoded<P>)
    ensures !j.Object? ==> r.Err?
    ensures j == Object([]) ==> r == Ok(P(Option.None, Option.None, Option.None, Option.None, Option.None, Option.None, Option.None))
  {
    if !j.Object? then Err(InvalidType("struct P"))
    else
      var name :- Optional(j.fields, "name", DecodeString);
      var partitionName :- Optional(j.fields, "partitionName", DecodeString);
      var start :- Optional(j.fields, "start", DecodeI128);
      var size :- Optional(j.fields, "size", DecodeI128);
      var action :- Optional(j.fields, "action", DecodeString);
      var end :- Optional(j.fields, "end", DecodeI128);
      var fileSytem :- Optional(j.fields, "fileSytem", DecodeString);
      Ok(P(name, partitionName, start, size, action, end, fileSytem))
  }

  function DecodePs(items: seq<Json>): (r: Decoded<seq<P>>)
    ensures r.Ok? ==> |r.value| == |items|
    ensures r.Ok? <==> forall i :: 0 <= i < |items| ==> DecodeP(items[i]).Ok?
    ensures r.Ok? ==> forall i :: 0 <= i < |items| ==> DecodeP(items[i]) == Ok(r.value[i])
  {
    if items == [] then Ok([])
    else
      var p :- DecodeP(items[0]);
      var ps :- DecodePs(items[1..]);
      Ok([p] + ps)
  }

  function DecodePArray(j: Json): Decoded<seq<P>>
  {
    if j.Array? then DecodePs(j.items) else Err(InvalidType("sequence"))
  }

  function DecodeSystemStorageInfo(j: Json): (r: Decoded<SystemStorageInfo>)
    ensures !j.Object? ==> r.Err?
  {
    if !j.Object? then Err(InvalidType("struct SystemStorageInfo"))
    else
      var partitions :- Required(j.fields, "partitions", DecodePArray);
      Ok(SystemStorageInfo(partitions))
  }

  function DecodeBootloader(j: Json): (r: Decoded<Bootloader>)
    ensures !j.Object? ==> r.Err?
    ensures j.Object? && Get(j.fields, "type").None? &&
            (Get(j.fields, "location").Some? ==> Get(j.fields, "location").value.Str?) ==>
              r == Err(MissingField("type"))
  {
    if !j.Object? then Err(InvalidType("struct Bootloader"))
    else
      var loaderType :- Required(j.fields, "type", DecodeString);
      var location :- Required(j.fields, "location", DecodeString);
      Ok(Bootloader(loaderType, location))
  }

  function DecodePartitionAction(j: Json): (r: Decoded<PartitionAction>)
    ensures r.Ok? <==> j in {Str("Delete"), Str("Shrink"), Str("Create"), Str("None")}
  {
    match j
    case Str("Delete") => Ok(Delete)
    case Str("Shrink") => Ok(Shrink)
    case Str("Create") => Ok(Create)
    case Str("None") => Ok(PartitionAction.None)
    case Str(s) => Err(UnknownVariant(s))
    case _ => Err(InvalidType("enum PartitionAction"))
  }

  function DecodeStrings(items: seq<Json>): (r: Decoded<seq<string>>)
    ensures r.Ok? <==> forall i :: 0 <= i < |items| ==> items[i].Str?
    ensures r.Ok? ==> |r.value| == |items| && forall i :: 0 <= i < |items| ==> items[i] == Str(r.value[i])
  {
    if items == [] then Ok([])
    else
      var s :- DecodeString(items[0]);
      var rest :- DecodeStrings(items[1..]);
      Ok([s] + rest)
  }

  function DecodeStringArray(j: Json): Decoded<seq<string>>
  {
    if j.Array? then DecodeStrings(j.items) else Err(InvalidType("sequence"))
  }

  function DecodeLocale(j: Json): (r: Decoded<Locale>)
    ensures !j.Object? ==> r.Err?
  {
    if !j.Object? then Err(InvalidType("struct Locale"))
    else
      var locale :- Required(j.fields, "locale", DecodeStringArray);
      var timezone :- Required(j.fields, "timezone", DecodeString);
      var virtkeymap :- Required(j.fields, "virtkeymap", DecodeString);
      var x11keymap :- Required(j.fields, "x11keymap", DecodeString);
      Ok(Locale(locale, timezone, virtkeymap, x11keymap))
  }

  function DecodeNetworking(j: Json): (r: Decoded<Networking>)
    ensures !j.Object? ==> r.Err?
  {
    if !j.Object? then Err(InvalidType("struct Networking"))
    else
      var hostname :- Required(j.fields, "hostname", DecodeString);
      var ipv6 :- Required(j.fields, "ipv6", DecodeBool);
      Ok(Networking(hostname, ipv6))
  }

  function DecodeParams(j: Json): (r: Decoded<Params>)
    ensures !j.Object? ==> r.Err?
  {
    if !j.Object? then Err(InvalidType("struct Params"))
    else
      var cores :- Required(j.fields, "cores", DecodeI32);
      var jobs :- Required(j.fields, "jobs", DecodeI32);
      var keep :- Required(j.fields, "keep", DecodeBool);
      Ok(Params(cores, jobs, keep))
  }

  /**
   * How a derived `Deserialize` for `Partition` reads `swap_size`, which
   * carries `#[serde(default)]`: an absent key gives the empty string.
   */
  function DecodeSwapSize(j: Json): (r: Decoded<string>)
    ensures j.Object? && Get(j.fields, "swap_size").None? ==> r == Ok("")
  {
    if !j.Object? then Err(InvalidType("struct Partition"))
    else Defaulted(j.fields, "swap_size", DecodeString, "")
  }

  // ---------------------------------------------------------------------------
  // `Config::from_json_string`
  // ---------------------------------------------------------------------------

  /** The level of the one log line `from_json_string` writes. */
  datatype LogLevel = Info | Error

  /**
   * `partition::utils::unmarshal_json` is not part of this model: it is
   * passed in as `unmarshal`, which receives the text and the configuration
   * it may overwrite, and gives back that configuration and its outcome.
   * Whatever it does, `from_json_string` starts from the default
   * configuration, never fails, and logs at error level exactly when the
   * overlay reported an error.
   */
  function FromJsonString(v: string, unmarshal: (string, Config) -> (Config, Result<(), string>)): (r: (Config, LogLevel))
    ensures r.0 == unmarshal(v, DefaultConfig()).0
    ensures r.1 == Error <==> unmarshal(v, DefaultConfig()).1.Err?
  {
    var (conf, outcome) := unmarshal(v, DefaultConfig());
    (conf, if outcome.Ok? then Info else Error)
  }
}
