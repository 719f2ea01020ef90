/**
 * Properties of the configuration model: the default values, which keys the
 * encoders emit and in what order, what they never emit, and the round trips
 * through the derived decoders.
 */
module ConfigProperties {
  import opened Wrappers
  import opened Json
  import opened Serde
  import opened AppConfig

  // ---------------------------------------------------------------------------
  // Defaults
  // ---------------------------------------------------------------------------

  /** A fresh `Partition` is all empty, and encodes without a `swap_size` key. */
  lemma DefaultPartitionIsEmpty()
    ensures var p := DefaultPartition();
      && IsDefault(p.device) && IsDefault(p.mode) && IsDefault(p.swapSize)
      && !p.efi && !p.swap && !p.encryptCheck
      && p.partitions == Null
      && p.installAlongPartitions == [] && p.systemStorageInfo == [] && p.systemStorageInfoCurrent == []
    ensures EncodePartition(DefaultPartition()) == Object([
      ("device", Str("")), ("mode", Str("")), ("efi", Bool(false)), ("swap", Bool(false)),
      ("partitions", Null), ("encrypt_check", Bool(false))])
  {
  }

  /** A fresh `Config` holds a fresh `Partition`, null in every open section and "arch" as its base. */
  lemma DefaultConfigIsNull()
    ensures var c := DefaultConfig();
      && c.partition == DefaultPartition()
      && c.bootloader == Null && c.locale == Null && c.networking == Null && c.users == Null
      && c.rootpass == Null && c.desktop == Null && c.theme == Null && c.displayManager == Null
      && c.browser == Null && c.packagesStore == Null && c.extraPackages == Null && c.kernel == Null
      && c.snapper == Null && c.zramd == Null && c.hardened == Null && c.flatpak == Null
      && c.params == Null && c.terminal == Null
      && c.base == "arch"
    ensures var fs := EncodeConfig(DefaultConfig()).fields;
      |fs| == 18 && fs[0].1 == EncodePartition(DefaultPartition()) &&
      forall i :: 1 <= i < 18 ==> fs[i].1 == Null
  {
  }

  /** A fresh `Bootloader` has two empty strings, the first written under "type". */
  lemma DefaultBootloaderIsEmpty()
    ensures DefaultBootloader().loaderType == "" && DefaultBootloader().location == ""
    ensures EncodeBootloader(DefaultBootloader()) == Object([("type", Str("")), ("location", Str(""))])
  {
  }

  lemma DefaultLocaleIsEmpty()
    ensures var l := DefaultLocale();
      l.locale == [] && l.timezone == "" && l.virtkeymap == "" && l.x11keymap == ""
    ensures EncodeLocale(DefaultLocale()) == Object([
      ("locale", Array([])), ("timezone", Str("")), ("virtkeymap", Str("")), ("x11keymap", Str(""))])
  {
  }

  lemma DefaultNetworkingIsEmpty()
    ensures DefaultNetworking().hostname == "" && !DefaultNetworking().ipv6
    ensures EncodeNetworking(DefaultNetworking()) == Object([("hostname", Str("")), ("ipv6", Bool(false))])
  {
  }

  lemma DefaultParamsIsZero()
    ensures DefaultParams().cores == 0 && DefaultParams().jobs == 0 && !DefaultParams().keep
    ensures EncodeParams(DefaultParams()) == Object([("cores", Int(0)), ("jobs", Int(0)), ("keep", Bool(false))])
  {
  }

  // ---------------------------------------------------------------------------
  // Partition: keys, the swap_size rule, the internal fields
  // ---------------------------------------------------------------------------

  /** The keys of an encoded `Partition` are the declared fields its attributes let through, in declaration order. */
  lemma PartitionFieldsKeysWhenSwapSizeEmpty()
    ensures EmittedKeys(PartitionFields, {"swap_size"}) ==
      ["device", "mode", "efi", "swap", "partitions", "encrypt_check"]
  {
  }

  lemma PartitionFieldsKeysWhenSwapSizeSet()
    ensures EmittedKeys(PartitionFields, {}) ==
      ["device", "mode", "efi", "swap", "swap_size", "partitions", "encrypt_check"]
  {
  }

  lemma PartitionEncodingKeys(p: Partition)
    ensures IsDefault(p.swapSize) ==>
      Keys(EncodePartition(p).fields) == ["device", "mode", "efi", "swap", "partitions", "encrypt_check"]
    ensures !IsDefault(p.swapSize) ==>
      Keys(EncodePartition(p).fields) == ["device", "mode", "efi", "swap", "swap_size", "partitions", "encrypt_check"]
  {
  }

  lemma PartitionKeysFollowDeclarations(p: Partition)
    ensures Keys(EncodePartition(p).fields) == EmittedKeys(PartitionFields, PartitionEmptyFields(p))
  {
    PartitionEncodingKeys(p);
    if IsDefault(p.swapSize) {
      PartitionFieldsKeysWhenSwapSizeEmpty();
    } else {
      PartitionFieldsKeysWhenSwapSizeSet();
    }
  }

  /** No two `Partition` fields share a key. */
  lemma PartitionKeysUnique(i: nat)
    requires i < |PartitionFields|
    ensures forall j :: 0 <= j < |PartitionFields| && j != i ==> KeyOf(PartitionFields[j]) != KeyOf(PartitionFields[i])
  {
  }

  /**
   * The three `skip_serializing` fields never appear in an encoded
   * `Partition`, and changing them does not change the encoding.
   */
  lemma PartitionInternalFieldsNeverEmitted(p: Partition, along: seq<SuggestedPartition>,
                                            info: seq<SystemStorageInfo>, current: seq<SystemStorageInfo>)
    ensures var ks := Keys(EncodePartition(p).fields);
      "installAlongPartitions" !in ks && "system_storage_info" !in ks && "system_storage_info_current" !in ks
    ensures EncodePartition(p.(installAlongPartitions := along, systemStorageInfo := info,
                               systemStorageInfoCurrent := current)) == EncodePartition(p)
  {
    PartitionKeysFollowDeclarations(p);
    var empty := PartitionEmptyFields(p);
    PartitionKeysUnique(6);
    SkippedNeverEmitted(PartitionFields, empty, 6);
    PartitionKeysUnique(7);
    SkippedNeverEmitted(PartitionFields, empty, 7);
    PartitionKeysUnique(8);
    SkippedNeverEmitted(PartitionFields, empty, 8);
  }

  /** `swap_size` is written exactly when `is_default` rejects it, as its attribute says. */
  lemma SwapSizeEmittedIffNonEmpty(p: Partition)
    ensures "swap_size" in Keys(EncodePartition(p).fields) <==> !IsDefault(p.swapSize)
  {
    PartitionKeysFollowDeclarations(p);
    PartitionKeysUnique(4);
    SkipIfDefaultEmittedIff(PartitionFields, PartitionEmptyFields(p), 4);
  }

  /** When `swap_size` is written, it is written as that exact string. */
  lemma SwapSizeWrittenAsIs(p: Partition)
    ensures Get(EncodePartition(p).fields, "swap_size") ==
              if IsDefault(p.swapSize) then Option.None else Some(Str(p.swapSize))
  {
    var fs := EncodePartition(p).fields;
    SwapSizeEmittedIffNonEmpty(p);
    GetSomeIffKey(fs, "swap_size");
    if !IsDefault(p.swapSize) {
      assert fs[4] == ("swap_size", Str(p.swapSize));
      GetDistinct(fs, 4);
    }
  }

  /** Because `swap_size` has `#[serde(default)]`, leaving it out when empty loses nothing. */
  lemma SwapSizeRoundTrip(p: Partition)
    ensures DecodeSwapSize(EncodePartition(p)) == Ok(p.swapSize)
  {
    SwapSizeWrittenAsIs(p);
  }

  /** Without `default`, an encoded `Partition` with an empty `swap_size` could not be read back. */
  lemma SwapSizeWithoutDefaultIsMissing(p: Partition)
    requires IsDefault(p.swapSize)
    ensures Required(EncodePartition(p).fields, "swap_size", DecodeString) == Err(MissingField("swap_size"))
  {
    SwapSizeWrittenAsIs(p);
  }

  /** Every field that is written carries exactly the field's value. */
  lemma PartitionFieldsCarryValues(p: Partition)
    ensures var fs := EncodePartition(p).fields;
      && Get(fs, "device") == Some(Str(p.device))
      && Get(fs, "mode") == Some(Str(p.mode))
      && Get(fs, "efi") == Some(Bool(p.efi))
      && Get(fs, "swap") == Some(Bool(p.swap))
      && Get(fs, "partitions") == Some(p.partitions)
      && Get(fs, "encrypt_check") == Some(Bool(p.encryptCheck))
  {
    var fs := EncodePartition(p).fields;
    var n := |fs|;
    GetDistinct(fs, 0);
    GetDistinct(fs, 1);
    GetDistinct(fs, 2);
    GetDistinct(fs, 3);
    GetDistinct(fs, n - 2);
    GetDistinct(fs, n - 1);
  }

  // ---------------------------------------------------------------------------
  // Config: keys, the internal fields, null sections
  // ---------------------------------------------------------------------------

  lemma ConfigFieldsToBrowserKeys()
    ensures EmittedKeys(ConfigFieldsToBrowser, {}) ==
      ["partition", "bootloader", "locale", "networking", "users", "rootpass", "desktop", "theme",
       "displayManager", "browser"]
  {
  }

  lemma ConfigFieldsFromPackagesStoreKeys()
    ensures EmittedKeys(ConfigFieldsFromPackagesStore, {}) ==
      ["extra_packages", "kernel", "snapper", "zramd", "hardened", "flatpak", "params", "terminal"]
  {
  }

  /**
   * The keys of an encoded `Config` are its declared fields less the two
   * `skip_serializing` ones, in declaration order, whatever the values: a
   * null section is written as null, never left out.
   */
  lemma ConfigEncodingKeys(c: Config)
    ensures Keys(EncodeConfig(c).fields) ==
      ["partition", "bootloader", "locale", "networking", "users", "rootpass", "desktop", "theme",
       "displayManager", "browser",
       "extra_packages", "kernel", "snapper", "zramd", "hardened", "flatpak", "params", "terminal"]
  {
    EmittedKeysAppend(ConfigFieldsToBrowser, ConfigFieldsFromPackagesStore, {});
    ConfigFieldsToBrowserKeys();
    ConfigFieldsFromPackagesStoreKeys();
  }

  /** `packagesStore` and `base` are never written; the other 18 fields always are. */
  lemma ConfigInternalFieldsNeverEmitted(c: Config)
    ensures "packagesStore" !in Keys(EncodeConfig(c).fields) && "base" !in Keys(EncodeConfig(c).fields)
    ensures |EncodeConfig(c).fields| == 18
  {
    ConfigEncodingKeys(c);
  }

  /** Changing `packagesStore` or `base` does not change the encoding. */
  lemma ConfigEncodingIgnoresInternalFields(c: Config, store: Json, base: string)
    ensures EncodeConfig(c.(packagesStore := store, base := base)) == EncodeConfig(c)
  {
    var c' := c.(packagesStore := store, base := base);
    assert EncodeConfigToBrowser(c') == EncodeConfigToBrowser(c);
    assert EncodeConfigFromPackagesStore(c') == EncodeConfigFromPackagesStore(c);
  }

  // The lookups below are grouped a few keys at a time: each lookup must
  // rule out every earlier key, and the groups keep those comparisons small.

  lemma ConfigSectionsPartitionToLocale(c: Config)
    ensures var fs := EncodeConfigToBrowser(c);
      && Get(fs, "partition") == Some(EncodePartition(c.partition))
      && Get(fs, "bootloader") == Some(c.bootloader)
      && Get(fs, "locale") == Some(c.locale)
  {
    var fs := EncodeConfigToBrowser(c);
    GetAt(fs, 0);
    GetAt(fs, 1);
    GetAt(fs, 2);
  }

  lemma ConfigSectionsNetworkingToRootpass(c: Config)
    ensures var fs := EncodeConfigToBrowser(c);
      && Get(fs, "networking") == Some(c.networking)
      && Get(fs, "users") == Some(c.users)
      && Get(fs, "rootpass") == Some(c.rootpass)
  {
    var fs := EncodeConfigToBrowser(c);
    GetAt(fs, 3);
    GetAt(fs, 4);
    GetAt(fs, 5);
  }

  lemma ConfigSectionsDesktopToBrowser(c: Config)
    ensures var fs := EncodeConfigToBrowser(c);
      && Get(fs, "desktop") == Some(c.desktop)
      && Get(fs, "theme") == Some(c.theme)
      && Get(fs, "displayManager") == Some(c.displayManager)
      && Get(fs, "browser") == Some(c.browser)
  {
    var fs := EncodeConfigToBrowser(c);
    GetAt(fs, 6);
    GetAt(fs, 7);
    GetAt(fs, 8);
    GetAt(fs, 9);
  }

  lemma ConfigSectionsExtraPackagesToHardened(c: Config)
    ensures var fs := EncodeConfigFromPackagesStore(c);
      && Get(fs, "extra_packages") == Some(c.extraPackages)
      && Get(fs, "kernel") == Some(c.kernel)
      && Get(fs, "snapper") == Some(c.snapper)
      && Get(fs, "zramd") == Some(c.zramd)
      && Get(fs, "hardened") == Some(c.hardened)
  {
    var fs := EncodeConfigFromPackagesStore(c);
    GetAt(fs, 0);
    GetAt(fs, 1);
    GetAt(fs, 2);
    GetAt(fs, 3);
    GetAt(fs, 4);
  }

  lemma ConfigSectionsFlatpakToTerminal(c: Config)
    ensures var fs := EncodeConfigFromPackagesStore(c);
      && Get(fs, "flatpak") == Some(c.flatpak)
      && Get(fs, "params") == Some(c.params)
      && Get(fs, "terminal") == Some(c.terminal)
  {
    var fs := EncodeConfigFromPackagesStore(c);
    GetAt(fs, 5);
    GetAt(fs, 6);
    GetAt(fs, 7);
  }

  // Which second-half keys are absent from the first half is checked four
  // keys at a time: all eight in one proof strain the solver.

  /** `extra_packages` to `zramd` are not bound in the first half of the encoding. */
  lemma ConfigExtraPackagesToZramdNotInFirstHalf(c: Config, key: string)
    requires key in ["extra_packages", "kernel", "snapper", "zramd"]
    ensures Get(EncodeConfigToBrowser(c), key).None?
  {
    GetSomeIffKey(EncodeConfigToBrowser(c), key);
  }

  /** `hardened` to `terminal` are not bound in the first half of the encoding. */
  lemma ConfigHardenedToTerminalNotInFirstHalf(c: Config, key: string)
    requires key in ["hardened", "flatpak", "params", "terminal"]
    ensures Get(EncodeConfigToBrowser(c), key).None?
  {
    GetSomeIffKey(EncodeConfigToBrowser(c), key);
  }

  lemma ConfigFirstHalfCarriesValues(c: Config)
    ensures var fs := EncodeConfig(c).fields;
      && Get(fs, "partition") == Some(EncodePartition(c.partition))
      && Get(fs, "bootloader") == Some(c.bootloader)
      && Get(fs, "locale") == Some(c.locale)
      && Get(fs, "networking") == Some(c.networking)
      && Get(fs, "users") == Some(c.users)
      && Get(fs, "rootpass") == Some(c.rootpass)
      && Get(fs, "desktop") == Some(c.desktop)
      && Get(fs, "theme") == Some(c.theme)
      && Get(fs, "displayManager") == Some(c.displayManager)
      && Get(fs, "browser") == Some(c.browser)
  {
    var a, b := EncodeConfigToBrowser(c), EncodeConfigFromPackagesStore(c);
    ConfigSectionsPartitionToLocale(c);
    ConfigSectionsNetworkingToRootpass(c);
    ConfigSectionsDesktopToBrowser(c);
    forall key | key in ["partition", "bootloader", "locale", "networking", "users", "rootpass", "desktop", "theme",
                         "displayManager", "browser"]
      ensures Get(a + b, key) == if Get(a, key).Some? then Get(a, key) else Get(b, key)
    {
      GetAppend(a, b, key);
    }
  }

  lemma ConfigSecondHalfCarriesValues(c: Config)
    ensures var fs := EncodeConfig(c).fields;
      && Get(fs, "extra_packages") == Some(c.extraPackages)
      && Get(fs, "kernel") == Some(c.kernel)
      && Get(fs, "snapper") == Some(c.snapper)
      && Get(fs, "zramd") == Some(c.zramd)
      && Get(fs, "hardened") == Some(c.hardened)
      && Get(fs, "flatpak") == Some(c.flatpak)
      && Get(fs, "params") == Some(c.params)
      && Get(fs, "terminal") == Some(c.terminal)
  {
    var a, b := EncodeConfigToBrowser(c), EncodeConfigFromPackagesStore(c);
    ConfigSectionsExtraPackagesToHardened(c);
    ConfigSectionsFlatpakToTerminal(c);
    forall key | key in ["extra_packages", "kernel", "snapper", "zramd"]
      ensures Get(a + b, key) == Get(b, key)
    {
      ConfigExtraPackagesToZramdNotInFirstHalf(c, key);
      GetAppend(a, b, key);
    }
    forall key | key in ["hardened", "flatpak", "params", "terminal"]
      ensures Get(a + b, key) == Get(b, key)
    {
      ConfigHardenedToTerminalNotInFirstHalf(c, key);
      GetAppend(a, b, key);
    }
  }

  /**
   * Every written section of a `Config` carries exactly that field's value;
   * in particular a null section is written as null.
   */
  lemma ConfigFieldsCarryValues(c: Config)
    ensures var fs := EncodeConfig(c).fields;
      && Get(fs, "partition") == Some(EncodePartition(c.partition))
      && Get(fs, "bootloader") == Some(c.bootloader)
      && Get(fs, "locale") == Some(c.locale)
      && Get(fs, "networking") == Some(c.networking)
      && Get(fs, "users") == Some(c.users)
      && Get(fs, "rootpass") == Some(c.rootpass)
      && Get(fs, "desktop") == Some(c.desktop)
      && Get(fs, "theme") == Some(c.theme)
      && Get(fs, "displayManager") == Some(c.displayManager)
      && Get(fs, "browser") == Some(c.browser)
      && Get(fs, "extra_packages") == Some(c.extraPackages)
      && Get(fs, "kernel") == Some(c.kernel)
      && Get(fs, "snapper") == Some(c.snapper)
      && Get(fs, "zramd") == Some(c.zramd)
      && Get(fs, "hardened") == Some(c.hardened)
      && Get(fs, "flatpak") == Some(c.flatpak)
      && Get(fs, "params") == Some(c.params)
      && Get(fs, "terminal") == Some(c.terminal)
  {
    ConfigFirstHalfCarriesValues(c);
    ConfigSecondHalfCarriesValues(c);
  }

  // ---------------------------------------------------------------------------
  // Round trips through the derived decoders
  // ---------------------------------------------------------------------------

  /** Each `P` field is written under its own key (`fileSytem` included), `None` as null. */
  lemma PFieldsCarryValues(p: P)
    ensures var fs := EncodeP(p).fields;
      && Get(fs, "name") == Some(EncodeOption(p.name, EncodeString))
      && Get(fs, "partitionName") == Some(EncodeOption(p.partitionName, EncodeString))
      && Get(fs, "start") == Some(EncodeOption(p.start, EncodeI128))
      && Get(fs, "size") == Some(EncodeOption(p.size, EncodeI128))
      && Get(fs, "action") == Some(EncodeOption(p.action, EncodeString))
      && Get(fs, "end") == Some(EncodeOption(p.end, EncodeI128))
      && Get(fs, "fileSytem") == Some(EncodeOption(p.fileSytem, EncodeString))
  {
    var fs := EncodeP(p).fields;
    GetDistinct(fs, 0);
    GetDistinct(fs, 1);
    GetDistinct(fs, 2);
    GetDistinct(fs, 3);
    GetDistinct(fs, 4);
    GetDistinct(fs, 5);
    GetDistinct(fs, 6);
  }

  /** Every `P` reads back from its encoding. */
  lemma PRoundTrip(p: P)
    ensures DecodeP(EncodeP(p)) == Ok(p)
  {
    var fs := EncodeP(p).fields;
    PFieldsCarryValues(p);
    OptionalRoundTrip(fs, "name", p.name, EncodeString, DecodeString);
    OptionalRoundTrip(fs, "partitionName", p.partitionName, EncodeString, DecodeString);
    OptionalRoundTrip(fs, "start", p.start, EncodeI128, DecodeI128);
    OptionalRoundTrip(fs, "size", p.size, EncodeI128, DecodeI128);
    OptionalRoundTrip(fs, "action", p.action, EncodeString, DecodeString);
    OptionalRoundTrip(fs, "end", p.end, EncodeI128, DecodeI128);
    OptionalRoundTrip(fs, "fileSytem", p.fileSytem, EncodeString, DecodeString);
  }

  /** An object in which every `P` key is absent or null reads as a `P` with nothing determined. */
  lemma PMissingOrNullIsNone(j: Json)
    requires j.Object?
    requires Get(j.fields, "name") in {Option.None, Some(Null)}
    requires Get(j.fields, "partitionName") in {Option.None, Some(Null)}
    requires Get(j.fields, "start") in {Option.None, Some(Null)}
    requires Get(j.fields, "size") in {Option.None, Some(Null)}
    requires Get(j.fields, "action") in {Option.None, Some(Null)}
    requires Get(j.fields, "end") in {Option.None, Some(Null)}
    requires Get(j.fields, "fileSytem") in {Option.None, Some(Null)}
    ensures DecodeP(j) == Ok(P(Option.None, Option.None, Option.None, Option.None, Option.None, Option.None, Option.None))
  {
  }

  /** One step of `DecodePs`: a decoded head followed by a decoded tail. */
  lemma DecodePsCons(items: seq<Json>, p: P, ps: seq<P>)
    requires items != [] && DecodeP(items[0]) == Ok(p) && DecodePs(items[1..]) == Ok(ps)
    ensures DecodePs(items) == Ok([p] + ps)
  {
  }

  lemma {:induction false} PsRoundTrip(ps: seq<P>)
    ensures DecodePs(EncodePs(ps)) == Ok(ps)
  {
    if ps != [] {
      var items := EncodePs(ps);
      assert items[0] == EncodeP(ps[0]);
      assert items[1..] == EncodePs(ps[1..]);
      PRoundTrip(ps[0]);
      PsRoundTrip(ps[1..]);
      DecodePsCons(items, ps[0], ps[1..]);
      assert [ps[0]] + ps[1..] == ps;
    } else {
      assert EncodePs(ps) == [];
    }
  }

  lemma SystemStorageInfoRoundTrip(info: SystemStorageInfo)
    ensures DecodeSystemStorageInfo(EncodeSystemStorageInfo(info)) == Ok(info)
  {
    PsRoundTrip(info.partitions);
  }

  /** `r#type` is written under "type", never under its Rust name, and reads back from there. */
  lemma BootloaderRoundTrip(b: Bootloader)
    ensures Get(EncodeBootloader(b).fields, "type") == Some(Str(b.loaderType))
    ensures "r#type" !in Keys(EncodeBootloader(b).fields)
    ensures DecodeBootloader(EncodeBootloader(b)) == Ok(b)
  {
    GetDistinct(EncodeBootloader(b).fields, 1);
  }

  /** The four variants are written as their names and read back; nothing else reads as a variant. */
  lemma PartitionActionRoundTrip(a: PartitionAction, j: Json)
    ensures DecodePartitionAction(EncodePartitionAction(a)) == Ok(a)
    ensures DecodePartitionAction(j).Ok? ==> EncodePartitionAction(DecodePartitionAction(j).value) == j
  {
  }

  /** One step of `DecodeStrings`: a decoded head followed by a decoded tail. */
  lemma DecodeStringsCons(items: seq<Json>, x: string, xs: seq<string>)
    requires items != [] && items[0] == Str(x) && DecodeStrings(items[1..]) == Ok(xs)
    ensures DecodeStrings(items) == Ok([x] + xs)
  {
  }

  lemma {:induction false} StringsRoundTrip(xs: seq<string>)
    ensures DecodeStrings(EncodeStrings(xs)) == Ok(xs)
  {
    if xs != [] {
      var items := EncodeStrings(xs);
      assert items[0] == Str(xs[0]);
      assert items[1..] == EncodeStrings(xs[1..]);
      StringsRoundTrip(xs[1..]);
      DecodeStringsCons(items, xs[0], xs[1..]);
      assert [xs[0]] + xs[1..] == xs;
    } else {
      assert EncodeStrings(xs) == [];
    }
  }

  lemma LocaleRoundTrip(l: Locale)
    ensures DecodeLocale(EncodeLocale(l)) == Ok(l)
  {
    var fs := EncodeLocale(l).fields;
    StringsRoundTrip(l.locale);
    GetDistinct(fs, 1);
    GetDistinct(fs, 2);
    GetDistinct(fs, 3);
  }

  lemma NetworkingRoundTrip(n: Networking)
    ensures DecodeNetworking(EncodeNetworking(n)) == Ok(n)
  {
    GetDistinct(EncodeNetworking(n).fields, 1);
  }

  lemma ParamsRoundTrip(p: Params)
    ensures DecodeParams(EncodeParams(p)) == Ok(p)
  {
    var fs := EncodeParams(p).fields;
    GetDistinct(fs, 1);
    GetDistinct(fs, 2);
  }
}
