/**
 The configuration form of an instance (crates/floatile-shell/src/instance_control.rs:988-1137): a schema and a
 configuration become text fields, and text fields become a configuration again.

 Printing and parsing of JSON are parameters; `Faithful` is what the form relies on of them.
 */
module Forms {
  import opened Prelude

  /** A fraction is an opaque code of a finite float, such as its bits. */
  datatype Json =
    | Null
    | Bool(b: bool)
    | Whole(n: int)
    | Fraction(code: int)
    | Str(s: string)
    | Array(elements: seq<Json>)
    | Object(members: map<string, Json>)

  type Config = map<string, Json>

  /** `nearest` is the float an integer is read as; `bounded` the size and depth check of `InstanceConfig::new`. */
  datatype Codec = Codec(
    show: Json -> string,
    parse: string -> Option<Json>,
    parseWhole: string -> Option<int>,
    parseFraction: string -> Option<int>,
    parseBool: string -> Option<bool>,
    nearest: int -> int,
    bounded: Config -> bool)

  predicate Fits64(n: int)
  {
    -0x8000_0000_0000_0000 <= n < 0x8000_0000_0000_0000
  }

  /** A printed value parses back as itself; as an i64, an f64 or a bool it parses exactly when it is one. */
  predicate Faithful(codec: Codec, v: Json)
  {
    var text := codec.show(v);
    && codec.parse(text) == Some(v)
    && codec.parseWhole(text) == (if v.Whole? && Fits64(v.n) then Some(v.n) else None)
    && codec.parseFraction(text) ==
       (if v.Fraction? then Some(v.code) else if v.Whole? then Some(codec.nearest(v.n)) else None)
    && codec.parseBool(text) == (if v.Bool? then Some(v.b) else None)
  }

  /** What the form relies on for one configuration: its values, and it as a whole, print and parse back. */
  predicate FaithfulTo(codec: Codec, config: Config)
  {
    Faithful(codec, Object(config)) && forall key | key in config :: Faithful(codec, config[key])
  }

  datatype Kind = KString | KInteger | KNumber | KBoolean | KJson | KRoot

  datatype Field = Field(key: string, kind: Kind, text: string, required: bool, present: bool)

  /** One property after `$ref` was resolved. */
  datatype Property = Property(kind: Kind, default: Option<Json>)

  /** `composed`: a composition keyword is present. `properties` is None when the schema lists none. */
  datatype Schema = Schema(properties: Option<map<string, Property>>, composed: bool, required: set<string>)

  datatype FormError = InvalidField(key: string) | InvalidConfig

  // ---- From configuration to fields ----

  function FieldText(codec: Codec, kind: Kind, v: Json): string
  {
    if kind.KString? && v.Str? then v.s else codec.show(v)
  }

  function RootField(codec: Codec, config: Config): Field
  {
    Field("", KRoot, codec.show(Object(config)), true, true)
  }

  function FieldOf(codec: Codec, schema: Schema, key: string, config: Config): Field
    requires schema.properties.Some? && key in schema.properties.value
  {
    var p := schema.properties.value[key];
    var value := if key in config then Some(config[key]) else p.default;
    Field(key, p.kind, if value.Some? then FieldText(codec, p.kind, value.value) else "",
          key in schema.required, key in config || p.default.Some? || key in schema.required)
  }

  /** The form falls back on one field with the whole configuration. */
  predicate UsesRoot(schema: Schema, config: Config)
  {
    schema.properties.None? || schema.composed || exists key | key in config :: key !in schema.properties.value
  }

  predicate Keys(keys: seq<string>, properties: map<string, Property>)
  {
    && (forall i | 0 <= i < |keys| :: keys[i] in properties)
    && (forall key | key in properties :: key in keys)
    && (forall i, j | 0 <= i < j < |keys| :: keys[i] != keys[j])
  }

  /** `form_fields`; `keys` are the property names in order. */
  function FormFields(codec: Codec, schema: Option<Schema>, keys: seq<string>, config: Config): seq<Field>
    requires schema.Some? && schema.value.properties.Some? ==> Keys(keys, schema.value.properties.value)
  {
    if schema.None? then []
    else if UsesRoot(schema.value, config) then [RootField(codec, config)]
    else seq(|keys|, i requires 0 <= i < |keys| => FieldOf(codec, schema.value, keys[i], config))
  }

  // ---- From fields to configuration ----

  function Decode(codec: Codec, kind: Kind, text: string): Option<Json>
  {
    match kind
    case KString => Some(Str(text))
    case KInteger => (match codec.parseWhole(text) case Some(n) => Some(Whole(n)) case None => None)
    case KNumber => (match codec.parseFraction(text) case Some(r) => Some(Fraction(r)) case None => None)
    case KBoolean => (match codec.parseBool(text) case Some(b) => Some(Bool(b)) case None => None)
    case KJson => codec.parse(text)
    case KRoot => codec.parse(text)
  }

  predicate Used(f: Field)
  {
    f.present || f.required
  }

  /** `InstanceConfig::new`. */
  function NewConfig(codec: Codec, v: Json): Result<Config, FormError>
  {
    if v.Object? && codec.bounded(v.members) then Ok(v.members) else Err(InvalidConfig)
  }

  /** The object of the first `n` fields, or the first of them that does not parse. */
  function Assembled(codec: Codec, fields: seq<Field>, n: nat): Result<Config, FormError>
    requires n <= |fields|
  {
    if n == 0 then Ok(map[])
    else
      var before, f := Assembled(codec, fields, n - 1), fields[n - 1];
      if before.Err? || !Used(f) then before
      else match Decode(codec, f.kind, f.text)
        case Some(v) => Ok(before.value[f.key := v])
        case None => Err(InvalidField(f.key))
  }

  function FirstRoot(fields: seq<Field>): Option<Field>
  {
    if fields == [] then None else if fields[0].kind.KRoot? then Some(fields[0]) else FirstRoot(fields[1..])
  }

  function FromFields(codec: Codec, fields: seq<Field>): Result<Config, FormError>
  {
    var root := FirstRoot(fields);
    if root.Some? then
      match codec.parse(root.value.text)
      case Some(v) => NewConfig(codec, v)
      case None => Err(InvalidField("<root>"))
    else
      match Assembled(codec, fields, |fields|)
      case Ok(members) => NewConfig(codec, Object(members))
      case Err(error) => Err(error)
  }

  /** `config_from_fields`. */
  method ConfigFromFields(codec: Codec, fields: seq<Field>) returns (r: Result<Config, FormError>)
    ensures r == FromFields(codec, fields)
  {
    var root := FirstRoot(fields);
    if root.Some? {
      match codec.parse(root.value.text) {
        case None => return Err(InvalidField("<root>"));
        case Some(v) => return NewConfig(codec, v);
      }
    }
    var members: Config := map[];
    var i := 0;
    while i < |fields|
      invariant 0 <= i <= |fields| && Assembled(codec, fields, i) == Ok(members)
    {
      var f := fields[i];
      if f.present || f.required {
        var v := Decode(codec, f.kind, f.text);
        if v.None? {
          FirstErrorStays(codec, fields, i + 1, |fields|);
          return Err(InvalidField(f.key));
        }
        members := members[f.key := v.value];
      }
      i := i + 1;
    }
    r := NewConfig(codec, Object(members));
  }

  lemma {:induction false} FirstErrorStays(codec: Codec, fields: seq<Field>, m: nat, n: nat)
    requires m <= n <= |fields| && Assembled(codec, fields, m).Err?
    ensures Assembled(codec, fields, n) == Assembled(codec, fields, m)
  {
    if m < n {
      FirstErrorStays(codec, fields, m, n - 1);
    }
  }

  // ---- The round trip ----

  /** The value is one its field can show and read back. */
  predicate Fits(kind: Kind, v: Json)
  {
    match kind
    case KString => v.Str?
    case KInteger => v.Whole? && Fits64(v.n)
    case KNumber => v.Fraction?
    case KBoolean => v.Bool?
    case _ => true
  }

  lemma FieldReadsBack(codec: Codec, kind: Kind, v: Json)
    requires Faithful(codec, v)
    ensures Decode(codec, kind, FieldText(codec, kind, v)) == Some(v) <==> Fits(kind, v)
  {
  }

  predicate DistinctKeys(fields: seq<Field>)
  {
    forall i, j | 0 <= i < j < |fields| :: fields[i].key != fields[j].key
  }

  /** What an assembled object holds: each used field under its key, and nothing else. */
  ghost predicate Holds(codec: Codec, fields: seq<Field>, n: nat, members: Config)
    requires n <= |fields|
  {
    && (forall i | 0 <= i < n && Used(fields[i]) ::
          fields[i].key in members && Decode(codec, fields[i].kind, fields[i].text) == Some(members[fields[i].key]))
    && (forall key | key in members :: exists i :: 0 <= i < n && Used(fields[i]) && fields[i].key == key)
  }

  lemma {:induction false} AssembledHolds(codec: Codec, fields: seq<Field>, n: nat)
    requires n <= |fields| && DistinctKeys(fields)
    ensures Assembled(codec, fields, n).Ok? ==> Holds(codec, fields, n, Assembled(codec, fields, n).value)
    ensures Assembled(codec, fields, n).Ok? <==>
            forall i | 0 <= i < n && Used(fields[i]) :: Decode(codec, fields[i].kind, fields[i].text).Some?
  {
    if n > 0 {
      AssembledHolds(codec, fields, n - 1);
    }
  }

  /** Every value fits its field, and no absent property is filled in. */
  predicate Representable(schema: Schema, config: Config)
    requires schema.properties.Some?
  {
    forall key | key in schema.properties.value :: KeptBy(schema.properties.value, schema.required, config, key)
  }

  predicate KeptBy(properties: map<string, Property>, required: set<string>, config: Config, key: string)
    requires key in properties
  {
    if key in config then Fits(properties[key].kind, config[key])
    else properties[key].default.None? && key !in required
  }

  lemma KeptMeansRepresentable(codec: Codec, schema: Schema, keys: seq<string>, config: Config)
    requires FaithfulTo(codec, config) && schema.properties.Some? && Keys(keys, schema.properties.value)
    requires !UsesRoot(schema, config)
    requires var fields := FormFields(codec, Some(schema), keys, config);
             Assembled(codec, fields, |fields|) == Ok(config)
    ensures Representable(schema, config)
  {
    var fields, properties := FormFields(codec, Some(schema), keys, config), schema.properties.value;
    AssembledHolds(codec, fields, |fields|);
    forall key | key in properties
      ensures KeptBy(properties, schema.required, config, key)
    {
      var i :| 0 <= i < |keys| && keys[i] == key;
      assert fields[i] == FieldOf(codec, schema, key, config);
      if key in config {
        FieldReadsBack(codec, properties[key].kind, config[key]);
      }
    }
  }

  /** The used fields show exactly the members of the configuration. */
  predicate Shows(codec: Codec, fields: seq<Field>, config: Config)
  {
    && DistinctKeys(fields)
    && (forall i | 0 <= i < |fields| && Used(fields[i]) ::
          fields[i].key in config && Decode(codec, fields[i].kind, fields[i].text) == Some(config[fields[i].key]))
    && (forall key | key in config :: exists i :: 0 <= i < |fields| && Used(fields[i]) && fields[i].key == key)
  }

  lemma ShownIsAssembled(codec: Codec, fields: seq<Field>, config: Config)
    requires Shows(codec, fields, config)
    ensures Assembled(codec, fields, |fields|) == Ok(config)
  {
    AssembledHolds(codec, fields, |fields|);
    var members := Assembled(codec, fields, |fields|).value;
    forall key | key in config
      ensures key in members && members[key] == config[key]
    {
      var i :| 0 <= i < |fields| && Used(fields[i]) && fields[i].key == key;
    }
    assert members == config;
  }

  lemma UsedFieldShows(codec: Codec, schema: Schema, key: string, config: Config)
    requires FaithfulTo(codec, config) && schema.properties.Some? && key in schema.properties.value
    requires KeptBy(schema.properties.value, schema.required, config, key)
    ensures var f := FieldOf(codec, schema, key, config);
      (Used(f) <==> key in config) && (Used(f) ==> Decode(codec, f.kind, f.text) == Some(config[key]))
  {
    if key in config {
      FieldReadsBack(codec, schema.properties.value[key].kind, config[key]);
    }
  }

  lemma RepresentableIsKept(codec: Codec, schema: Schema, keys: seq<string>, config: Config)
    requires FaithfulTo(codec, config) && schema.properties.Some? && Keys(keys, schema.properties.value)
    requires !UsesRoot(schema, config) && Representable(schema, config)
    ensures var fields := FormFields(codec, Some(schema), keys, config);
             Assembled(codec, fields, |fields|) == Ok(config)
  {
    var fields := FormFields(codec, Some(schema), keys, config);
    forall i | 0 <= i < |keys|
      ensures fields[i].key == keys[i] && (Used(fields[i]) <==> keys[i] in config)
      ensures Used(fields[i]) ==> Decode(codec, fields[i].kind, fields[i].text) == Some(config[keys[i]])
    {
      UsedFieldShows(codec, schema, keys[i], config);
    }
    forall key | key in config
      ensures exists i :: 0 <= i < |fields| && Used(fields[i]) && fields[i].key == key
    {
      var i :| 0 <= i < |keys| && keys[i] == key;
      assert fields[i].key == key;
    }
    ShownIsAssembled(codec, fields, config);
  }

  /** No field of a property form is the fallback field. */
  lemma {:induction false} NoRoot(fields: seq<Field>)
    requires forall i | 0 <= i < |fields| :: !fields[i].kind.KRoot?
    ensures FirstRoot(fields) == None
  {
    if fields != [] {
      NoRoot(fields[1..]);
    }
  }

  /**
   Opening the form on a configuration and submitting it unchanged gives the configuration back
   exactly when the fallback field is used, or every value fits its property's field and no absent
   property is required or has a default; without any schema, only the empty configuration survives.
   */
  lemma FormRoundTrip(codec: Codec, schema: Option<Schema>, keys: seq<string>, config: Config)
    requires FaithfulTo(codec, config) && codec.bounded(config)
    requires schema.Some? && schema.value.properties.Some? ==>
               Keys(keys, schema.value.properties.value) &&
               forall key | key in schema.value.properties.value :: !schema.value.properties.value[key].kind.KRoot?
    ensures FromFields(codec, FormFields(codec, schema, keys, config)) == Ok(config) <==>
            if schema.None? then config == map[]
            else UsesRoot(schema.value, config) || Representable(schema.value, config)
  {
    var fields := FormFields(codec, schema, keys, config);
    if schema.None? {
      assert FromFields(codec, fields) == NewConfig(codec, Object(map[]));
    } else if UsesRoot(schema.value, config) {
      assert codec.parse(codec.show(Object(config))) == Some(Object(config));
    } else {
      NoRoot(fields);
      if Representable(schema.value, config) {
        RepresentableIsKept(codec, schema.value, keys, config);
      }
      if Assembled(codec, fields, |fields|) == Ok(config) {
        KeptMeansRepresentable(codec, schema.value, keys, config);
      }
    }
  }

  /** What an unchanged form holds for a property: its value, or its default. */
  function Filled(properties: map<string, Property>, config: Config, key: string): Option<Json>
    requires key in properties
  {
    if key in config then Some(config[key]) else properties[key].default
  }

  /** Every value and default prints and parses back, fits its property, and nothing required is missing. */
  predicate Fillable(codec: Codec, schema: Schema, config: Config)
    requires schema.properties.Some?
  {
    forall key | key in schema.properties.value ::
      var value := Filled(schema.properties.value, config, key);
      && (value.None? ==> key !in schema.required)
      && (value.Some? ==> Faithful(codec, value.value) && Fits(schema.properties.value[key].kind, value.value))
  }

  /** The configuration with the defaults of the properties it lacks. */
  predicate WithDefaults(properties: map<string, Property>, config: Config, filled: Config)
  {
    && (forall key | key in filled :: key in properties)
    && (forall key | key in properties ::
          Filled(properties, config, key) == if key in filled then Some(filled[key]) else None)
  }

  lemma FieldIsFilled(codec: Codec, schema: Schema, config: Config, key: string)
    requires schema.properties.Some? && Fillable(codec, schema, config) && key in schema.properties.value
    ensures var f, value := FieldOf(codec, schema, key, config), Filled(schema.properties.value, config, key);
      (Used(f) <==> value.Some?) && (value.Some? ==> Decode(codec, f.kind, f.text) == value)
  {
    var value := Filled(schema.properties.value, config, key);
    if value.Some? {
      FieldReadsBack(codec, schema.properties.value[key].kind, value.value);
    }
  }

  /** Submitting an unchanged form of properties returns the configuration completed by its defaults. */
  lemma FormFillsDefaults(codec: Codec, schema: Schema, keys: seq<string>, config: Config, filled: Config)
    requires schema.properties.Some? && !UsesRoot(schema, config) && Fillable(codec, schema, config)
    requires Keys(keys, schema.properties.value)
    requires forall key | key in schema.properties.value :: !schema.properties.value[key].kind.KRoot?
    requires WithDefaults(schema.properties.value, config, filled) && codec.bounded(filled)
    ensures FromFields(codec, FormFields(codec, Some(schema), keys, config)) == Ok(filled)
  {
    var fields := FormFields(codec, Some(schema), keys, config);
    NoRoot(fields);
    forall i | 0 <= i < |keys|
      ensures fields[i].key == keys[i] && (Used(fields[i]) <==> keys[i] in filled)
      ensures Used(fields[i]) ==> Decode(codec, fields[i].kind, fields[i].text) == Some(filled[keys[i]])
    {
      FieldIsFilled(codec, schema, config, keys[i]);
    }
    forall key | key in filled
      ensures exists i :: 0 <= i < |fields| && Used(fields[i]) && fields[i].key == key
    {
      var i :| 0 <= i < |keys| && keys[i] == key;
      assert fields[i].key == key;
    }
    ShownIsAssembled(codec, fields, filled);
  }

  // ---- Every configuration has a codec that is faithful to it ----

  function IndexOf(values: seq<Json>, v: Json): (i: nat)
    ensures i <= |values|
    ensures i < |values| ==> values[i] == v
    ensures v in values ==> i < |values|
  {
    if values == [] || values[0] == v then 0 else 1 + IndexOf(values[1..], v)
  }

  function Strokes(n: nat): (s: string)
    ensures |s| == n
  {
    seq(n, i => '|')
  }

  /** Prints each listed value as its position, in strokes. */
  function Tally(values: seq<Json>): Codec
  {
    var at := (text: string) => if |text| < |values| then Some(values[|text|]) else None;
    Codec(
      (v: Json) => Strokes(IndexOf(values, v)),
      at,
      (text: string) => if at(text).Some? && at(text).value.Whole? && Fits64(at(text).value.n)
          then Some(at(text).value.n) else None,
      (text: string) => if at(text).None? then None
                        else if at(text).value.Fraction? then Some(at(text).value.code)
                        else if at(text).value.Whole? then Some(at(text).value.n) else None,
      (text: string) => if at(text).Some? && at(text).value.Bool? then Some(at(text).value.b) else None,
      (n: int) => n,
      (config: Config) => true)
  }

  lemma TallyIsFaithful(values: seq<Json>, v: Json)
    requires v in values
    ensures Faithful(Tally(values), v)
  {
    var i := IndexOf(values, v);
    assert |Tally(values).show(v)| == i && values[i] == v;
  }

  ghost function Listed(config: Config, keys: set<string>): (values: seq<Json>)
    requires keys <= config.Keys
    ensures forall key | key in keys :: config[key] in values
  {
    if keys == {} then [Object(config)]
    else
      var key :| key in keys;
      Listed(config, keys - {key}) + [config[key]]
  }

  lemma {:induction false} ListsWhole(config: Config, keys: set<string>)
    requires keys <= config.Keys
    ensures Object(config) in Listed(config, keys)
  {
    if keys != {} {
      var key :| key in keys && Listed(config, keys) == Listed(config, keys - {key}) + [config[key]];
      ListsWhole(config, keys - {key});
    }
  }

  /** The hypothesis of the round trip can be met for every configuration. */
  lemma FaithfulCodecExists(config: Config)
    ensures exists codec :: FaithfulTo(codec, config) && codec.bounded(config)
  {
    var values := Listed(config, config.Keys);
    ListsWhole(config, config.Keys);
    TallyIsFaithful(values, Object(config));
    forall key | key in config
      ensures Faithful(Tally(values), config[key])
    {
      TallyIsFaithful(values, config[key]);
    }
    assert FaithfulTo(Tally(values), config) && Tally(values).bounded(config);
  }

  // ---- What any submission comes to ----

  /** The first field that holds the whole configuration. */
  predicate RootAt(fields: seq<Field>, i: nat)
  {
    i < |fields| && fields[i].kind.KRoot? && forall j | 0 <= j < i :: !fields[j].kind.KRoot?
  }

  lemma {:induction false} FirstRootAt(fields: seq<Field>)
    ensures FirstRoot(fields).Some? ==>
              exists i :: 0 <= i < |fields| && RootAt(fields, i) && fields[i] == FirstRoot(fields).value
    ensures FirstRoot(fields).None? ==> forall f | f in fields :: !f.kind.KRoot?
  {
    if fields != [] && !fields[0].kind.KRoot? {
      FirstRootAt(fields[1..]);
      if FirstRoot(fields).Some? {
        var i :| 0 <= i < |fields[1..]| && RootAt(fields[1..], i) && fields[1..][i] == FirstRoot(fields[1..]).value;
        assert forall j | 1 <= j < i + 1 :: fields[j] == fields[1..][j - 1];
        assert RootAt(fields, i + 1);
      }
    }
  }

  /** Used field `i` is the first that does not parse. */
  predicate UnreadableAt(codec: Codec, fields: seq<Field>, i: nat)
  {
    && i < |fields| && Used(fields[i]) && Decode(codec, fields[i].kind, fields[i].text).None?
    && forall j | 0 <= j < i && Used(fields[j]) :: Decode(codec, fields[j].kind, fields[j].text).Some?
  }

  lemma {:induction false} AssembledFails(codec: Codec, fields: seq<Field>, n: nat)
    requires n <= |fields|
    ensures Assembled(codec, fields, n).Err? ==>
              exists i :: 0 <= i < n && UnreadableAt(codec, fields, i)
                          && Assembled(codec, fields, n).error == InvalidField(fields[i].key)
    ensures Assembled(codec, fields, n).Ok? ==>
              forall i | 0 <= i < n && Used(fields[i]) :: Decode(codec, fields[i].kind, fields[i].text).Some?
  {
    if n > 0 {
      AssembledFails(codec, fields, n - 1);
    }
  }

  predicate NoRootField(fields: seq<Field>)
  {
    forall f | f in fields :: !f.kind.KRoot?
  }

  predicate AllReadable(codec: Codec, fields: seq<Field>)
  {
    forall j | 0 <= j < |fields| && Used(fields[j]) :: Decode(codec, fields[j].kind, fields[j].text).Some?
  }

  lemma RootDecides(codec: Codec, fields: seq<Field>, i: nat)
    requires RootAt(fields, i)
    ensures FromFields(codec, fields) ==
            match codec.parse(fields[i].text)
            case Some(Object(members)) => if codec.bounded(members) then Ok(members) else Err(InvalidConfig)
            case Some(_) => Err(InvalidConfig)
            case None => Err(InvalidField("<root>"))
  {
    FirstRootAt(fields);
    assert fields[i] in fields;
    var k :| 0 <= k < |fields| && RootAt(fields, k) && fields[k] == FirstRoot(fields).value;
    assert k == i;
  }

  lemma NoRootFirst(fields: seq<Field>)
    requires NoRootField(fields)
    ensures FirstRoot(fields).None?
  {
    FirstRootAt(fields);
  }

  lemma UnreadableDecides(codec: Codec, fields: seq<Field>, i: nat)
    requires NoRootField(fields) && UnreadableAt(codec, fields, i)
    ensures FromFields(codec, fields) == Err(InvalidField(fields[i].key))
  {
    NoRootFirst(fields);
    AssembledFails(codec, fields, |fields|);
    var k :| 0 <= k < |fields| && UnreadableAt(codec, fields, k)
             && Assembled(codec, fields, |fields|).error == InvalidField(fields[k].key);
    assert k == i;
  }

  lemma ReadableDecides(codec: Codec, fields: seq<Field>)
    requires DistinctKeys(fields) && NoRootField(fields) && AllReadable(codec, fields)
    ensures exists members :: Holds(codec, fields, |fields|, members) &&
              FromFields(codec, fields) == if codec.bounded(members) then Ok(members) else Err(InvalidConfig)
  {
    NoRootFirst(fields);
    AssembledHolds(codec, fields, |fields|);
    var members := Assembled(codec, fields, |fields|).value;
    assert Holds(codec, fields, |fields|, members);
  }

  /**
   With a root field, the first one is the whole configuration; without, the used fields are its members. Either way the
   result is within the bound, and the error names the first field that does not parse.
   */
  lemma SubmissionOutcome(codec: Codec, fields: seq<Field>, i: nat)
    requires DistinctKeys(fields)
    ensures RootAt(fields, i) ==>
              FromFields(codec, fields) ==
              match codec.parse(fields[i].text)
              case Some(Object(members)) => if codec.bounded(members) then Ok(members) else Err(InvalidConfig)
              case Some(_) => Err(InvalidConfig)
              case None => Err(InvalidField("<root>"))
    ensures NoRootField(fields) && UnreadableAt(codec, fields, i) ==>
              FromFields(codec, fields) == Err(InvalidField(fields[i].key))
    ensures NoRootField(fields) && AllReadable(codec, fields) ==>
              exists members :: Holds(codec, fields, |fields|, members) &&
                FromFields(codec, fields) == if codec.bounded(members) then Ok(members) else Err(InvalidConfig)
  {
    if RootAt(fields, i) {
      RootDecides(codec, fields, i);
    }
    if NoRootField(fields) && UnreadableAt(codec, fields, i) {
      UnreadableDecides(codec, fields, i);
    }
    if NoRootField(fields) && AllReadable(codec, fields) {
      ReadableDecides(codec, fields);
    }
  }
}
