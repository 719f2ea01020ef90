/**
 * What the serde derive macros do with a struct's fields, at the level of
 * JSON values: the field attributes that decide which keys a serializer
 * emits and under what name, the primitive decoders, and how a derived
 * deserializer treats a key that is missing, null or of the wrong type.
 */
module Serde {
  import opened Wrappers
  import opened Json

  /** Rust's `i32` and `i128`. */
  newtype I32 = x: int | -0x8000_0000 <= x < 0x8000_0000
  newtype I128 = x: int | -0x8000_0000_0000_0000_0000_0000_0000_0000 <= x < 0x8000_0000_0000_0000_0000_0000_0000_0000

  /** The `#[serde(...)]` attribute a field carries, as far as serialization is concerned. */
  datatype Attr =
    | Plain                        // no attribute: always emitted under its own name
    | Rename(key: string)          // `rename = "..."`: always emitted, under `key`
    | SkipSerializing              // `skip_serializing`: never emitted
    | SkipSerializingIfDefault     // `skip_serializing_if = "is_default"`: emitted unless the value is empty

  /** One field of a struct declaration: its Rust identifier and its attribute. */
  datatype FieldDecl = FieldDecl(ident: string, attr: Attr)

  /** The JSON key a field is written under. */
  function KeyOf(d: FieldDecl): string
  {
    if d.attr.Rename? then d.attr.key else d.ident
  }

  /** Whether a derived serializer writes the field; `empty` holds the identifiers whose value `is_default` accepts. */
  predicate Emitted(d: FieldDecl, empty: set<string>)
  {
    match d.attr
    case SkipSerializing => false
    case SkipSerializingIfDefault => d.ident !in empty
    case _ => true
  }

  /** The keys a derived serializer writes for a struct declared as `decls`, in declaration order. */
  function EmittedKeys(decls: seq<FieldDecl>, empty: set<string>): seq<string>
  {
    EmittedKeysFrom(decls, empty, 0)
  }

  /** The keys written for the fields from position `i` on. */
  function EmittedKeysFrom(decls: seq<FieldDecl>, empty: set<string>, i: nat): seq<string>
    decreases |decls| - i
  {
    if i >= |decls| then []
    else (if Emitted(decls[i], empty) then [KeyOf(decls[i])] else []) + EmittedKeysFrom(decls, empty, i + 1)
  }

  lemma {:induction false} EmittedKeysFromShift(a: seq<FieldDecl>, b: seq<FieldDecl>, empty: set<string>, j: nat)
    ensures EmittedKeysFrom(a + b, empty, |a| + j) == EmittedKeysFrom(b, empty, j)
    decreases |b| - j
  {
    if j < |b| {
      assert (a + b)[|a| + j] == b[j];
      EmittedKeysFromShift(a, b, empty, j + 1);
    }
  }

  lemma {:induction false} EmittedKeysFromAppend(a: seq<FieldDecl>, b: seq<FieldDecl>, empty: set<string>, i: nat)
    requires i <= |a|
    ensures EmittedKeysFrom(a + b, empty, i) == EmittedKeysFrom(a, empty, i) + EmittedKeysFrom(b, empty, 0)
    decreases |a| - i
  {
    if i == |a| {
      EmittedKeysFromShift(a, b, empty, 0);
      assert EmittedKeysFrom(a, empty, i) == [];
    } else {
      var d := a[i];
      assert (a + b)[i] == d;
      var here := if Emitted(d, empty) then [KeyOf(d)] else [];
      EmittedKeysFromAppend(a, b, empty, i + 1);
      calc {
        EmittedKeysFrom(a + b, empty, i);
        here + EmittedKeysFrom(a + b, empty, i + 1);
        here + (EmittedKeysFrom(a, empty, i + 1) + EmittedKeysFrom(b, empty, 0));
        (here + EmittedKeysFrom(a, empty, i + 1)) + EmittedKeysFrom(b, empty, 0);
        EmittedKeysFrom(a, empty, i) + EmittedKeysFrom(b, empty, 0);
      }
    }
  }

  /** The keys of concatenated declarations are the concatenated keys. */
  lemma EmittedKeysAppend(a: seq<FieldDecl>, b: seq<FieldDecl>, empty: set<string>)
    ensures EmittedKeys(a + b, empty) == EmittedKeys(a, empty) + EmittedKeys(b, empty)
  {
    EmittedKeysFromAppend(a, b, empty, 0);
  }

  lemma {:induction false} EmittedKeysFromIff(decls: seq<FieldDecl>, empty: set<string>, i: nat, key: string)
    ensures key in EmittedKeysFrom(decls, empty, i) <==>
            exists j :: i <= j < |decls| && Emitted(decls[j], empty) && KeyOf(decls[j]) == key
    decreases |decls| - i
  {
    if i < |decls| {
      EmittedKeysFromIff(decls, empty, i + 1, key);
      var here := if Emitted(decls[i], empty) then [KeyOf(decls[i])] else [];
      var rest := EmittedKeysFrom(decls, empty, i + 1);
      assert EmittedKeysFrom(decls, empty, i) == here + rest;
      assert key in here + rest <==> key in here || key in rest;
      if key in here {
        assert Emitted(decls[i], empty) && KeyOf(decls[i]) == key;
      }
      if exists j :: i <= j < |decls| && Emitted(decls[j], empty) && KeyOf(decls[j]) == key {
        var j :| i <= j < |decls| && Emitted(decls[j], empty) && KeyOf(decls[j]) == key;
        if j == i {
          assert key in here;
        } else {
          assert key in rest;
        }
      }
    }
  }

  /** A key is emitted exactly when some emitted field is written under it. */
  lemma EmittedKeysIff(decls: seq<FieldDecl>, empty: set<string>, key: string)
    ensures key in EmittedKeys(decls, empty) <==>
            exists i :: 0 <= i < |decls| && Emitted(decls[i], empty) && KeyOf(decls[i]) == key
  {
    EmittedKeysFromIff(decls, empty, 0, key);
  }

  /** A `skip_serializing` field whose key no other field shares never shows up in the output. */
  lemma SkippedNeverEmitted(decls: seq<FieldDecl>, empty: set<string>, i: nat)
    requires i < |decls| && decls[i].attr == SkipSerializing
    requires forall j :: 0 <= j < |decls| && j != i ==> KeyOf(decls[j]) != KeyOf(decls[i])
    ensures KeyOf(decls[i]) !in EmittedKeys(decls, empty)
  {
    EmittedKeysIff(decls, empty, KeyOf(decls[i]));
  }

  /** A `skip_serializing_if` field whose key no other field shares shows up exactly when its value is not empty. */
  lemma SkipIfDefaultEmittedIff(decls: seq<FieldDecl>, empty: set<string>, i: nat)
    requires i < |decls| && decls[i].attr == SkipSerializingIfDefault
    requires forall j :: 0 <= j < |decls| && j != i ==> KeyOf(decls[j]) != KeyOf(decls[i])
    ensures KeyOf(decls[i]) in EmittedKeys(decls, empty) <==> decls[i].ident !in empty
  {
    EmittedKeysIff(decls, empty, KeyOf(decls[i]));
  }

  /** The errors a derived deserializer reports. */
  datatype DecodeError =
    | InvalidType(expected: string)    // a value of the wrong JSON type
    | OutOfRange                       // a number the target integer type cannot hold
    | MissingField(field: string)      // a required key is absent
    | UnknownVariant(variant: string)  // a string that names no enum variant

  type Decoded<T> = Result<T, DecodeError>

  function DecodeString(j: Json): (r: Decoded<string>)
    ensures r.Ok? <==> j.Str?
    ensures r.Ok? ==> Str(r.value) == j
  {
    if j.Str? then Ok(j.s) else Err(InvalidType("string"))
  }

  function DecodeBool(j: Json): (r: Decoded<bool>)
    ensures r.Ok? <==> j.Bool?
    ensures r.Ok? ==> Bool(r.value) == j
  {
    if j.Bool? then Ok(j.b) else Err(InvalidType("bool"))
  }

  function DecodeI32(j: Json): (r: Decoded<I32>)
    ensures r.Ok? <==> j.Int? && -0x8000_0000 <= j.n < 0x8000_0000
    ensures r.Ok? ==> Int(r.value as int) == j
  {
    if !j.Int? then Err(InvalidType("i32"))
    else if -0x8000_0000 <= j.n < 0x8000_0000 then Ok(j.n as I32)
    else Err(OutOfRange)
  }

  function DecodeI128(j: Json): (r: Decoded<I128>)
    ensures r.Ok? <==> j.Int? && -0x8000_0000_0000_0000_0000_0000_0000_0000 <= j.n < 0x8000_0000_0000_0000_0000_0000_0000_0000
    ensures r.Ok? ==> Int(r.value as int) == j
  {
    if !j.Int? then Err(InvalidType("i128"))
    else if -0x8000_0000_0000_0000_0000_0000_0000_0000 <= j.n < 0x8000_0000_0000_0000_0000_0000_0000_0000 then Ok(j.n as I128)
    else Err(OutOfRange)
  }

  /** A field without attributes: it must be present. */
  function Required<T>(fields: seq<(string, Json)>, key: string, decode: Json -> Decoded<T>): (r: Decoded<T>)
    ensures Get(fields, key).None? ==> r == Err(MissingField(key))
    ensures Get(fields, key).Some? ==> r == decode(Get(fields, key).value)
  {
    match Get(fields, key)
    case None => Err(MissingField(key))
    case Some(v) => decode(v)
  }

  /** A field with `#[serde(default)]`: an absent key gives the type's default. */
  function Defaulted<T>(fields: seq<(string, Json)>, key: string, decode: Json -> Decoded<T>, default: T): (r: Decoded<T>)
    ensures Get(fields, key).None? ==> r == Ok(default)
    ensures Get(fields, key).Some? ==> r == decode(Get(fields, key).value)
  {
    match Get(fields, key)
    case None => Ok(default)
    case Some(v) => decode(v)
  }

  /** A field of type `Option<T>`: an absent key and an explicit null both give `None`. */
  function Optional<T>(fields: seq<(string, Json)>, key: string, decode: Json -> Decoded<T>): (r: Decoded<Option<T>>)
    ensures Get(fields, key) in {None, Some(Null)} ==> r == Ok(None)
    ensures Get(fields, key).Some? && Get(fields, key).value != Null ==>
              r.Ok? == decode(Get(fields, key).value).Ok? &&
              (r.Ok? ==> r.value == Some(decode(Get(fields, key).value).value))
  {
    match Get(fields, key)
    case None => Ok(None)
    case Some(Null) => Ok(None)
    case Some(v) =>
      match decode(v)
      case Ok(x) => Ok(Some(x))
      case Err(e) => Err(e)
  }

  /** How `Option<T>` serializes: `None` is null, `Some(x)` is `x`'s encoding. */
  function EncodeOption<T>(o: Option<T>, encode: T -> Json): (j: Json)
    ensures j == Null <==> o.None? || encode(o.value) == Null
    ensures o.Some? ==> j == encode(o.value)
  {
    match o
    case None => Null
    case Some(x) => encode(x)
  }

  /**
   * An `Option` field written by `EncodeOption` reads back as the same `Option`,
   * provided the inner type round-trips and never encodes as null.
   */
  lemma OptionalRoundTrip<T>(fields: seq<(string, Json)>, key: string, o: Option<T>,
                             encode: T -> Json, decode: Json -> Decoded<T>)
    requires Get(fields, key) == Some(EncodeOption(o, encode))
    requires o.Some? ==> encode(o.value) != Null && decode(encode(o.value)) == Ok(o.value)
    ensures Optional(fields, key, decode) == Ok(o)
  {
  }
}
