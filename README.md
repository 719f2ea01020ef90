# Installer configuration: entities, defaults and serde encoding

This project models the persisted configuration of the aegis installer GUI
(`src-tauri/src/app/config.rs`). That file holds:

- the entities `Config`, `Partition`, `SystemStorageInfo`, `P`, `Bootloader`,
  `Locale`, `Networking`, `Params` and `PartitionAction`;
- their `Default` impls;
- the `is_default` test on strings;
- the serde attributes that fix how the entities are written as JSON;
- `Config::from_json_string`, which overlays frontend JSON on a default
  configuration.

The model works on JSON values, not text. It has five files:

- `wrappers.dfy`: `Option` and `Result`.
- `json.dfy`: the `Json` value. Objects are ordered key/value sequences. The
  file defines key lookup and proves the lemmas that go with it.
- `serde.dfy`: the serde-derive rules the file relies on.
  - A field declaration carries its attribute. The attribute is `rename`,
    `skip_serializing`, `skip_serializing_if`, or none.
  - `EmittedKeys` is a reference definition of the keys a derived `Serialize`
    writes, in declaration order.
  - Field-level decoders model a required field, a `default` field and an
    `Option` field.
  - `I32` and `I128` are the Rust integer widths.
- `config.dfy`: the entities, the declaration tables, the defaults,
  `IsDefault`, one encoder per entity, the derived decoders and
  `FromJsonString`.
- `config_properties.dfy`: the properties.
  - The defaults.
  - Keys emitted in declaration order.
  - Skipped keys are never emitted.
  - `swap_size` is omitted exactly when it is empty, and it round-trips.
  - The rename of `r#type`.
  - The `fileSytem` spelling.
  - The four `PartitionAction` variants.
  - Round trips for every entity whose derived decoder can read back its own
    encoding.

Each encoder is written out by hand, field by field. Lemmas tie it to the
attribute table. So "the keys of `EncodeConfig(c)`" and "the keys the
declarations let through" are two independent definitions, and they are
proved equal.

## Model

| member | source | states |
|---|---|---|
| AppConfig.DefaultPartition | src-tauri/src/app/config.rs:44-59 | the `Partition` default: empty strings, false flags, null `partitions`, three empty vectors; its contract is stated by `ConfigProperties.DefaultPartitionIsEmpty` |
| AppConfig.DefaultBootloader | src-tauri/src/app/config.rs:67-74 | the `Bootloader` default: two empty strings; stated by `ConfigProperties.DefaultBootloaderIsEmpty` |
| AppConfig.DefaultLocale | src-tauri/src/app/config.rs:90-99 | the `Locale` default: an empty list and three empty strings; stated by `ConfigProperties.DefaultLocaleIsEmpty` |
| AppConfig.DefaultNetworking | src-tauri/src/app/config.rs:106-113 | the `Networking` default: empty hostname, IPv6 off; stated by `ConfigProperties.DefaultNetworkingIsEmpty` |
| AppConfig.DefaultParams | src-tauri/src/app/config.rs:121-129 | the `Params` default: 0, 0 and false; stated by `ConfigProperties.DefaultParamsIsZero` |
| AppConfig.DefaultConfig | src-tauri/src/app/config.rs:161-186 | the `Config` default: the default `Partition`, 18 null sections and `base` "arch"; stated by `ConfigProperties.DefaultConfigIsNull` |
| AppConfig.IsDefault | src-tauri/src/app/config.rs:30-32 | `is_default(s)` holds exactly when `s` is the empty string |
| AppConfig.EncodeP | src-tauri/src/app/config.rs:35-43 | a `P` is written as an object with distinct keys, which are its seven field names in declaration order, `fileSytem` spelled as in the source |
| AppConfig.EncodePs | src-tauri/src/app/config.rs:28 | a `Vec<P>` is written as an array of the same length whose i-th item is the encoding of the i-th `P` |
| AppConfig.EncodeSystemStorageInfo | src-tauri/src/app/config.rs:26-29 | a `SystemStorageInfo` is written as an object whose only key is `partitions` |
| AppConfig.EncodePartition | src-tauri/src/app/config.rs:5-25 | a `Partition` is written as an object with no key repeated |
| AppConfig.EncodeBootloader | src-tauri/src/app/config.rs:60-65 | a `Bootloader` is written as an object with distinct keys, exactly the keys the declarations give once `rename = "type"` is applied |
| AppConfig.EncodePartitionAction | src-tauri/src/app/config.rs:75-82 | a unit variant is written as a JSON string |
| AppConfig.EncodeStrings | src-tauri/src/app/config.rs:85 | a `Vec<String>` is written as an array of the same length holding the same strings in order |
| AppConfig.EncodeLocale | src-tauri/src/app/config.rs:83-89 | a `Locale` is written as an object with distinct keys, exactly its four declared field names in order |
| AppConfig.EncodeNetworking | src-tauri/src/app/config.rs:100-104 | a `Networking` is written as an object with distinct keys, exactly `hostname` and `ipv6` |
| AppConfig.EncodeParams | src-tauri/src/app/config.rs:114-119 | a `Params` is written as an object with distinct keys, exactly `cores`, `jobs` and `keep` |
| AppConfig.EncodeConfigToBrowser | src-tauri/src/app/config.rs:133-142 | the fields from `partition` to `browser` are written under exactly the keys their declarations give, in order |
| AppConfig.EncodeConfigFromPackagesStore | src-tauri/src/app/config.rs:143-155 | of the fields from `packagesStore` to `base`, exactly the keys the declarations let through are written, in order |
| AppConfig.EncodeConfig | src-tauri/src/app/config.rs:130-156 | for every `Config`, null sections included, the encoded keys are exactly those the attribute table lets through, in declaration order |
| AppConfig.DecodeP | src-tauri/src/app/config.rs:33-43 | only an object can decode as `P`; the empty object decodes to a `P` whose seven fields are all `None` |
| AppConfig.DecodePs | src-tauri/src/app/config.rs:28 | an array decodes as `Vec<P>` exactly when every item decodes as `P`, and then item i of the result is the decoding of item i |
| AppConfig.DecodeSystemStorageInfo | src-tauri/src/app/config.rs:26-29 | only an object can decode as `SystemStorageInfo` |
| AppConfig.DecodeBootloader | src-tauri/src/app/config.rs:60-65 | only an object can decode as `Bootloader`; an object without the key `type`, whose `location` (if present) is a string, is rejected as missing `type` |
| AppConfig.DecodePartitionAction | src-tauri/src/app/config.rs:75-82 | a value decodes as `PartitionAction` exactly when it is one of the four strings `Delete`, `Shrink`, `Create`, `None` |
| AppConfig.DecodeStrings | src-tauri/src/app/config.rs:85 | an array decodes as `Vec<String>` exactly when every item is a string, and then item i is the i-th string |
| AppConfig.DecodeLocale | src-tauri/src/app/config.rs:83-89 | only an object can decode as `Locale` |
| AppConfig.DecodeNetworking | src-tauri/src/app/config.rs:100-104 | only an object can decode as `Networking` |
| AppConfig.DecodeParams | src-tauri/src/app/config.rs:114-119 | only an object can decode as `Params` |
| AppConfig.DecodeSwapSize | src-tauri/src/app/config.rs:12-13 | because of `default`, a `Partition` object with no `swap_size` key reads `swap_size` as the empty string |
| AppConfig.FromJsonString | src-tauri/src/app/config.rs:188-198 | total; the result is whatever the overlay makes of the default configuration, and the log line is at error level exactly when the overlay reported an error |
| Serde.EmittedKeysAppend | src-tauri/src/app/config.rs:132-156 | the keys emitted for two concatenated declaration lists are the keys of the first list followed by those of the second |
| Serde.EmittedKeysIff | src-tauri/src/app/config.rs:5-25 | a key is emitted exactly when some declaration has that key and its attribute lets it through |
| Serde.SkippedNeverEmitted | src-tauri/src/app/config.rs:15-23 | a field marked `skip_serializing`, whose key no other field shares, is never among the emitted keys |
| Serde.SkipIfDefaultEmittedIff | src-tauri/src/app/config.rs:12-13 | a field marked `skip_serializing_if`, whose key no other field shares, is emitted exactly when its value is not default |
| Serde.DecodeString | src-tauri/src/app/config.rs:8-9 | a value decodes as `String` exactly when it is a JSON string, and then the string is re-encoded to the same value |
| Serde.DecodeBool | src-tauri/src/app/config.rs:10-11 | a value decodes as `bool` exactly when it is a JSON boolean, and then re-encodes to the same value |
| Serde.DecodeI32 | src-tauri/src/app/config.rs:116-117 | a value decodes as `i32` exactly when it is an integer in [-2^31, 2^31), and then re-encodes to the same value |
| Serde.DecodeI128 | src-tauri/src/app/config.rs:38-41 | a value decodes as `i128` exactly when it is an integer in [-2^127, 2^127), and then re-encodes to the same value |
| Serde.Required | src-tauri/src/app/config.rs:61-64 | a field without attributes is an error naming the field when its key is absent, and otherwise is the decoding of its value |
| Serde.Defaulted | src-tauri/src/app/config.rs:12-13 | a field with `default` gives the default when its key is absent, and otherwise is the decoding of its value |
| Serde.Optional | src-tauri/src/app/config.rs:35-43 | an `Option` field is `None` when its key is absent or null, and otherwise is `Some` of its value's decoding, failing when that fails |
| Serde.EncodeOption | src-tauri/src/app/config.rs:35-43 | an `Option` field is written as null exactly when it is `None` or its value itself writes as null, and a `Some` is written as its value's encoding |
| Serde.OptionalRoundTrip | src-tauri/src/app/config.rs:35-43 | an `Option` written as null or as its inner value reads back as the same `Option`, provided the inner value round-trips and is never null |
| ConfigProperties.DefaultPartitionIsEmpty | src-tauri/src/app/config.rs:44-59 | the default `Partition` has empty strings, false flags, null `partitions` and three empty vectors; it encodes without a `swap_size` key |
| ConfigProperties.DefaultConfigIsNull | src-tauri/src/app/config.rs:161-186 | the default `Config` holds the default `Partition`, null in all 18 `Value` fields and `base` "arch"; its encoding has 18 entries, all null except the partition |
| ConfigProperties.DefaultBootloaderIsEmpty | src-tauri/src/app/config.rs:67-74 | the default `Bootloader` is two empty strings, the first written under `type` |
| ConfigProperties.DefaultLocaleIsEmpty | src-tauri/src/app/config.rs:90-99 | the default `Locale` has an empty list and three empty strings |
| ConfigProperties.DefaultNetworkingIsEmpty | src-tauri/src/app/config.rs:106-113 | the default `Networking` is the empty hostname with IPv6 off |
| ConfigProperties.DefaultParamsIsZero | src-tauri/src/app/config.rs:121-129 | the default `Params` is 0 cores, 0 jobs and `keep` false |
| ConfigProperties.PartitionFieldsKeysWhenSwapSizeEmpty | src-tauri/src/app/config.rs:7-25 | with an empty `swap_size`, the `Partition` declarations let through exactly `device, mode, efi, swap, partitions, encrypt_check` |
| ConfigProperties.PartitionFieldsKeysWhenSwapSizeSet | src-tauri/src/app/config.rs:7-25 | with a non-empty `swap_size`, the declarations let through exactly `device, mode, efi, swap, swap_size, partitions, encrypt_check` |
| ConfigProperties.PartitionEncodingKeys | src-tauri/src/app/config.rs:7-25 | the keys an encoded `Partition` has in each of the two cases |
| ConfigProperties.PartitionKeysFollowDeclarations | src-tauri/src/app/config.rs:7-25 | the keys of an encoded `Partition` are exactly those its attribute table lets through, in declaration order |
| ConfigProperties.PartitionKeysUnique | src-tauri/src/app/config.rs:7-25 | no two `Partition` fields share a key |
| ConfigProperties.PartitionInternalFieldsNeverEmitted | src-tauri/src/app/config.rs:15-23 | `installAlongPartitions`, `system_storage_info` and `system_storage_info_current` are never written, and changing them leaves the encoding unchanged |
| ConfigProperties.SwapSizeEmittedIffNonEmpty | src-tauri/src/app/config.rs:12-13 | `swap_size` is among the written keys exactly when it is non-empty |
| ConfigProperties.SwapSizeWrittenAsIs | src-tauri/src/app/config.rs:12-13 | when written, `swap_size` carries that exact string; otherwise the key is absent |
| ConfigProperties.SwapSizeRoundTrip | src-tauri/src/app/config.rs:12-13 | reading `swap_size` back from an encoded `Partition` gives the original string, the empty one included |
| ConfigProperties.SwapSizeWithoutDefaultIsMissing | src-tauri/src/app/config.rs:12-13 | without `default`, reading an encoded `Partition` with an empty `swap_size` would fail on the missing field |
| ConfigProperties.PartitionFieldsCarryValues | src-tauri/src/app/config.rs:7-25 | each always-written `Partition` key carries that field's value |
| ConfigProperties.ConfigFieldsToBrowserKeys | src-tauri/src/app/config.rs:133-142 | the fields from `partition` to `browser` are all written, in that order |
| ConfigProperties.ConfigFieldsFromPackagesStoreKeys | src-tauri/src/app/config.rs:143-155 | of the fields from `packagesStore` to `base`, the eight from `extra_packages` to `terminal` are written, in order |
| ConfigProperties.ConfigEncodingKeys | src-tauri/src/app/config.rs:132-156 | every encoded `Config` has the 18 keys `partition` … `browser`, `extra_packages` … `terminal`, in declaration order, null-valued sections included |
| ConfigProperties.ConfigInternalFieldsNeverEmitted | src-tauri/src/app/config.rs:143-155 | `packagesStore` and `base` are never among the keys of an encoded `Config`, which always has 18 entries |
| ConfigProperties.ConfigFieldsCarryValues | src-tauri/src/app/config.rs:132-156 | for every `Config`, each of the 18 written keys carries exactly that field's value (the encoded partition under `partition`), so a null section is written as null |
| ConfigProperties.ConfigEncodingIgnoresInternalFields | src-tauri/src/app/config.rs:143-155 | changing `packagesStore` or `base` leaves the encoding of a `Config` unchanged |
| ConfigProperties.PFieldsCarryValues | src-tauri/src/app/config.rs:35-43 | each `P` field is written under its own key (`fileSytem` included), with `None` as null |
| ConfigProperties.PRoundTrip | src-tauri/src/app/config.rs:35-43 | every `P` reads back from its encoding |
| ConfigProperties.PMissingOrNullIsNone | src-tauri/src/app/config.rs:35-43 | an object in which every `P` key is absent or null reads as a `P` with every field `None` |
| ConfigProperties.PsRoundTrip | src-tauri/src/app/config.rs:28 | every `Vec<P>` reads back from its encoding |
| ConfigProperties.SystemStorageInfoRoundTrip | src-tauri/src/app/config.rs:26-29 | every `SystemStorageInfo` reads back from its encoding |
| ConfigProperties.BootloaderRoundTrip | src-tauri/src/app/config.rs:61-64 | `r#type` is written under `type` and never under `r#type`, and every `Bootloader` reads back |
| ConfigProperties.PartitionActionRoundTrip | src-tauri/src/app/config.rs:77-82 | each of the four variants reads back from its name; any value that decodes is the encoding of what it decodes to |
| ConfigProperties.StringsRoundTrip | src-tauri/src/app/config.rs:85 | every `Vec<String>` reads back from its encoding |
| ConfigProperties.LocaleRoundTrip | src-tauri/src/app/config.rs:83-89 | every `Locale` reads back from its encoding |
| ConfigProperties.NetworkingRoundTrip | src-tauri/src/app/config.rs:100-104 | every `Networking` reads back from its encoding |
| ConfigProperties.ParamsRoundTrip | src-tauri/src/app/config.rs:114-119 | every `Params` reads back from its encoding |

## Left out

- The body of `partition::utils::unmarshal_json` is not part of this model. `FromJsonString` takes it as a function parameter. So the model does not say whether a failed parse leaves the configuration at its default or partly overwritten.
- The log calls are I/O. They are modelled only as the `LogLevel` that `FromJsonString` returns.
- Parsing and printing JSON text belongs to serde_json. The model works on JSON values.
- JSON floating-point numbers are left out. So are serde_json's own limits on integers: a number is an unbounded integer, and only the target field's width (`i32`, `i128`) is checked.
- serde's derived `Deserialize` also accepts a struct written as a positional array, and a unit enum variant written in its map form. Only the object form of structs and the string form of variants are modelled.
- AppConfig.DecodeBootloader, and likewise `DecodeP`, `DecodeSystemStorageInfo`, `DecodeLocale`, `DecodeNetworking` and `DecodeParams`: whether decoding succeeds agrees with a derived `Deserialize`, but when several fields are bad the error reported is the first one in declaration order. serde's generated visitor reads the keys in input order and reports a field of the wrong type as soon as it meets it, and it checks for missing fields only after the whole object has been read.
- When a decoded object repeats a key, the model uses the first binding. serde rejects a duplicate field. The encoders never write duplicate keys, so the round trips do not depend on this.
- `partition::device::SuggestedPartition` is opaque. It is only ever held in `installAlongPartitions`, never written.
- `serialize_params` and its commented-out attribute are dead code.
- There is no decoder or round trip for a whole `Partition` or `Config`. Their `skip_serializing` fields have no `default`, so a derived decoder cannot read back their own encoding. Only the `swap_size` part of `Partition` decoding is modelled (`DecodeSwapSize`).
- That each `Default` impl returns the same value on every call holds by construction. The defaults are Dafny functions without parameters.
- `Debug`, `PartialEq` and `Clone` derives are not modelled. Dafny's equality on datatypes plays the role of `PartialEq`.
