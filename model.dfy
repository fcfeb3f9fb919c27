/**
 * The model mapper: a schema under construction. Declarations register
 * properties by normalized name (a re-declaration replaces the old
 * property in its original position), modifiers attach to the last
 * declared property, and `build`/`buildOne` run the attribute pipeline
 * over the registered properties.
 */
module Model {
  import opened Values
  import opened Errors
  import opened Helpers
  import opened Mapper

  /** The mapper-level default every other options layer overrides. */
  const DefaultOptions: Opts := NoOpts.(failOnNotExistsAttribute := Some(true))

  /** The options an attribute runs with: its own options over the build
      call's, over the mapper's, over the mapper-level default, key by key;
      the fail-fast flag is on unless the highest layer that sets it turns
      it off. */
  lemma OptionPrecedence(attr: Opts, call: Opts, mapper: Opts)
    ensures var eff := Merge(attr, Merge(call, Merge(mapper, DefaultOptions)));
      (Fails(eff) <==>
        (if attr.failOnNotExistsAttribute.Some? then attr.failOnNotExistsAttribute == Some(true)
         else if call.failOnNotExistsAttribute.Some? then call.failOnNotExistsAttribute == Some(true)
         else mapper.failOnNotExistsAttribute.None? || mapper.failOnNotExistsAttribute == Some(true))) &&
      eff.rename == FirstOf(attr.rename, FirstOf(call.rename, mapper.rename)) &&
      eff.def == FirstOf(attr.def, FirstOf(call.def, mapper.def)) &&
      eff.copy == FirstOf(attr.copy, FirstOf(call.copy, mapper.copy)) &&
      eff.coerce == FirstOf(attr.coerce, FirstOf(call.coerce, mapper.coerce)) &&
      eff.format == FirstOf(attr.format, FirstOf(call.format, mapper.format))
  {
  }

  /** The identity of an attribute declared from a string name. */
  function AttrOf(name: string): (a: Attr)
    ensures a.name == name
    ensures a.normalizedName == NormalizeAttributeName(name)
    ensures a.required <==> !(|name| > 0 && name[0] == '?')
    ensures !a.required ==> a.normalizedName == name[1..]
  {
    OptionalIffLeadingMarkDropped(name);
    Attr(name, NormalizeAttributeName(name), IsRequiredAttribute(name))
  }

  function NameOf(p: Property): string {
    p.attr.normalizedName
  }

  /** No two registered properties share a normalized name: the registry
      is an object keyed by that name. */
  predicate UniqueNames(props: seq<Property>) {
    forall i, j :: 0 <= i < j < |props| ==> NameOf(props[i]) != NameOf(props[j])
  }

  /** The position of the property registered under `name`, or -1. */
  function IndexOfName(props: seq<Property>, name: string): (i: int)
    ensures -1 <= i < |props|
    ensures i >= 0 ==> NameOf(props[i]) == name
    ensures i < 0 <==> forall j :: 0 <= j < |props| ==> NameOf(props[j]) != name
    decreases |props|
  {
    if |props| == 0 then -1
    else if NameOf(props[|props| - 1]) == name then |props| - 1
    else IndexOfName(props[..|props| - 1], name)
  }

  /** `_register`: `properties[name] = property`. A new name is appended;
      a known name keeps its position and gets the new property. */
  function Register(props: seq<Property>, p: Property): (r: seq<Property>)
    ensures UniqueNames(props) ==> UniqueNames(r)
    ensures p in r && |props| <= |r|
    ensures forall j :: 0 <= j < |props| && NameOf(props[j]) != NameOf(p) ==> r[j] == props[j]
    ensures (forall j :: 0 <= j < |props| ==> NameOf(props[j]) != NameOf(p)) ==> r == props + [p]
    ensures (exists j :: 0 <= j < |props| && NameOf(props[j]) == NameOf(p)) ==> |r| == |props|
  {
    var i := IndexOfName(props, NameOf(p));
    if i < 0 then
      assert (props + [p])[|props|] == p;
      props + [p]
    else
      assert props[i := p][i] == p;
      props[i := p]
  }

  /** A modifier call: `format`, `copy`, `type`, `def` or `as`. */
  datatype Modifier =
    | FormatMod(format: Format)
    | CopyMod(source: string)
    | TypeMod(coerce: Value -> Value)
    | DefMod(value: Value)
    | AsMod(target: string)

  function ModifierName(md: Modifier): string {
    match md
    case FormatMod(_) => "format"
    case CopyMod(_) => "copy"
    case TypeMod(_) => "type"
    case DefMod(_) => "def"
    case AsMod(_) => "as"
  }

  /** `_.merge(options, {key: value})` for one modifier key; an undefined
      default is skipped, as `_.merge` skips undefined sources. */
  function ApplyModifier(m: Opts, md: Modifier): Opts {
    match md
    case FormatMod(f) => m.(format := Some(f))
    case CopyMod(s) => m.(copy := Some(s))
    case TypeMod(f) => m.(coerce := Some(f))
    case DefMod(v) => if v == Undef then m else m.(def := Some(v))
    case AsMod(s) => m.(rename := Some(s))
  }

  /** The registry after a modifier reached the property named `name`. */
  function Modify(props: seq<Property>, name: string, md: Modifier): (r: seq<Property>)
    requires UniqueNames(props)
    ensures |r| == |props| && UniqueNames(r)
    ensures forall j :: 0 <= j < |props| ==> r[j].kind == props[j].kind && r[j].attr == props[j].attr
    ensures forall j :: 0 <= j < |props| && NameOf(props[j]) == name ==> r[j].mods == ApplyModifier(props[j].mods, md)
    ensures forall j :: 0 <= j < |props| && NameOf(props[j]) != name ==> r[j] == props[j]
  {
    var i := IndexOfName(props, name);
    if i < 0 then props else props[i := props[i].(mods := ApplyModifier(props[i].mods, md))]
  }

  /** An entry of an `attributes({...})` call: a rename string or an
      options object. */
  datatype Entry = RenameTo(target: string) | Options(mods: Opts)

  function EntryMods(e: Entry): Opts {
    match e
    case RenameTo(s) => NoOpts.(rename := Some(s))
    case Options(m) => m
  }

  /** The registry after declaring `entries` in mapping order. */
  function DeclareAll(props: seq<Property>, entries: seq<(string, Entry)>): (r: seq<Property>)
    ensures UniqueNames(props) ==> UniqueNames(r)
    decreases |entries|
  {
    if |entries| == 0 then props
    else
      var (name, e) := entries[|entries| - 1];
      Register(DeclareAll(props, entries[..|entries| - 1]), Property(Scalar, AttrOf(name), EntryMods(e)))
  }

  /** Some registered property has the normalized name `name`. */
  predicate Registered(props: seq<Property>, name: string) {
    exists j :: 0 <= j < |props| && NameOf(props[j]) == name
  }

  /** Registering keeps every registered name and adds the new one. */
  lemma RegisterKeepsNames(props: seq<Property>, p: Property, name: string)
    ensures Registered(Register(props, p), NameOf(p))
    ensures Registered(props, name) ==> Registered(Register(props, p), name)
  {
    var r := Register(props, p);
    var i :| 0 <= i < |r| && r[i] == p;
    if Registered(props, name) {
      var j :| 0 <= j < |props| && NameOf(props[j]) == name;
      if NameOf(props[j]) != NameOf(p) {
        assert r[j] == props[j];
      } else {
        assert NameOf(r[i]) == name;
      }
    }
  }

  /** After `attributes(entries)` every entry's normalized name has a
      property. */
  lemma {:induction false} DeclareAllRegistersEach(props: seq<Property>, entries: seq<(string, Entry)>)
    ensures forall k :: 0 <= k < |entries| ==> Registered(DeclareAll(props, entries), NormalizeAttributeName(entries[k].0))
    decreases |entries|
  {
    if |entries| > 0 {
      var n := |entries| - 1;
      var before := DeclareAll(props, entries[..n]);
      var p := Property(Scalar, AttrOf(entries[n].0), EntryMods(entries[n].1));
      DeclareAllRegistersEach(props, entries[..n]);
      forall k | 0 <= k < |entries|
        ensures Registered(DeclareAll(props, entries), NormalizeAttributeName(entries[k].0))
      {
        if k < n {
          assert entries[..n][k] == entries[k];
        }
        RegisterKeepsNames(before, p, NormalizeAttributeName(entries[k].0));
      }
    }
  }

  class ModelMapper {
    var options: Opts
    var properties: seq<Property>
    /** The normalized name of the last declared property, which the
        modifiers extend; `None` before any declaration and after `has`. */
    var lastProperty: Option<string>
    /** The input of the last `build`. */
    var data: Value

    ghost predicate Valid()
      reads this
    {
      UniqueNames(properties) &&
      (lastProperty.Some? ==> IndexOfName(properties, lastProperty.value) >= 0)
    }

    /** The schema the pipeline runs: these options and properties. */
    function Schema(): Mapper.Schema
      reads this
    {
      Mapper.Schema(options, properties)
    }

    constructor (opts: Opts)
      ensures Valid()
      ensures options == Merge(opts, DefaultOptions) && options.failOnNotExistsAttribute.Some?
      ensures properties == [] && lastProperty == None && data == Undef
    {
      options := Merge(opts, DefaultOptions);
      properties := [];
      lastProperty := None;
      data := Undef;
    }

    /** `extend`: a new mapper with the base's options and a copy of its
        properties; later changes to either leave the other alone. */
    static method Extend(base: ModelMapper) returns (m: ModelMapper)
      requires base.Valid()
      ensures fresh(m) && m.Valid()
      ensures m.options == Merge(base.options, DefaultOptions) && m.properties == base.properties
      ensures m.lastProperty == None && m.data == Undef
    {
      m := new ModelMapper(base.options);
      m.properties := base.properties;
    }

    /** `has`: closes the current declaration, so modifiers fail until the
        next one. */
    method Has()
      requires Valid()
      modifies this
      ensures Valid() && lastProperty == None
      ensures options == old(options) && properties == old(properties) && data == old(data)
    {
      lastProperty := None;
    }

    /** `attribute`, `one`, `many` and `attribute(options)`: register the
        property and make it the last declared. */
    method Declare(kind: Kind, a: Attr, mods: Opts)
      requires Valid()
      modifies this
      ensures Valid()
      ensures properties == Register(old(properties), Property(kind, a, mods))
      ensures lastProperty == Some(a.normalizedName)
      ensures options == old(options) && data == old(data)
    {
      var p := Property(kind, a, mods);
      properties := Register(properties, p);
      lastProperty := Some(a.normalizedName);
      assert p in properties;
    }

    /** `attribute(name)`. */
    method Attribute(name: string)
      requires Valid()
      modifies this
      ensures Valid()
      ensures properties == Register(old(properties), Property(Scalar, AttrOf(name), NoOpts))
      ensures lastProperty == Some(NormalizeAttributeName(name))
      ensures options == old(options) && data == old(data)
    {
      Declare(Scalar, AttrOf(name), NoOpts);
    }

    /** `one(name, mapper)`: the nested mapper's schema as it stands now. */
    method One(name: string, nested: ModelMapper)
      requires Valid()
      modifies this
      ensures Valid()
      ensures properties == Register(old(properties), Property(Kind.One(old(nested.Schema())), AttrOf(name), NoOpts))
      ensures lastProperty == Some(NormalizeAttributeName(name))
      ensures options == old(options) && data == old(data)
    {
      Declare(Kind.One(nested.Schema()), AttrOf(name), NoOpts);
    }

    /** `many(name, mapper)`. */
    method Many(name: string, nested: ModelMapper)
      requires Valid()
      modifies this
      ensures Valid()
      ensures properties == Register(old(properties), Property(Kind.Many(old(nested.Schema())), AttrOf(name), NoOpts))
      ensures lastProperty == Some(NormalizeAttributeName(name))
      ensures options == old(options) && data == old(data)
    {
      Declare(Kind.Many(nested.Schema()), AttrOf(name), NoOpts);
    }

    /** `attributes({...})`: one `attribute` per entry, in mapping order; a
        string value declares a rename. */
    method Attributes(entries: seq<(string, Entry)>)
      requires Valid()
      modifies this
      ensures Valid()
      ensures properties == DeclareAll(old(properties), entries)
      ensures |entries| > 0 ==> lastProperty == Some(NormalizeAttributeName(entries[|entries| - 1].0))
      ensures |entries| == 0 ==> lastProperty == old(lastProperty)
      ensures options == old(options) && data == old(data)
    {
      var i := 0;
      while i < |entries|
        invariant 0 <= i <= |entries| && Valid()
        invariant properties == DeclareAll(old(properties), entries[..i])
        invariant i > 0 ==> lastProperty == Some(NormalizeAttributeName(entries[i - 1].0))
        invariant i == 0 ==> lastProperty == old(lastProperty)
        invariant options == old(options) && data == old(data)
      {
        var (name, e) := entries[i];
        Declare(Scalar, AttrOf(name), EntryMods(e));
        assert entries[..i + 1][..i] == entries[..i];
        i := i + 1;
      }
      assert entries[..i] == entries;
    }

    /** `_registerModifier`: merge the modifier into the last declared
        property, or fail when there is none. */
    method RegisterModifier(md: Modifier) returns (r: Result<()>)
      requires Valid()
      modifies this
      ensures Valid()
      ensures r.Err? <==> old(lastProperty).None?
      ensures r.Err? ==> r.error == NoActiveAttribute(ModifierName(md)) && properties == old(properties)
      ensures r.Ok? ==> properties == Modify(old(properties), old(lastProperty).value, md)
      ensures lastProperty == old(lastProperty) && options == old(options) && data == old(data)
    {
      if lastProperty.None? {
        return Err(NoActiveAttribute(ModifierName(md)));
      }
      var i := IndexOfName(properties, lastProperty.value);
      properties := properties[i := properties[i].(mods := ApplyModifier(properties[i].mods, md))];
      assert NameOf(properties[i]) == lastProperty.value;
      r := Ok(());
    }

    method Format(f: Format) returns (r: Result<()>)
      requires Valid()
      modifies this
      ensures Valid()
      ensures r.Err? <==> old(lastProperty).None?
      ensures r.Ok? ==> properties == Modify(old(properties), old(lastProperty).value, FormatMod(f))
      ensures lastProperty == old(lastProperty) && options == old(options) && data == old(data)
    {
      r := RegisterModifier(FormatMod(f));
    }

    method Copy(source: string) returns (r: Result<()>)
      requires Valid()
      modifies this
      ensures Valid()
      ensures r.Err? <==> old(lastProperty).None?
      ensures r.Ok? ==> properties == Modify(old(properties), old(lastProperty).value, CopyMod(source))
      ensures lastProperty == old(lastProperty) && options == old(options) && data == old(data)
    {
      r := RegisterModifier(CopyMod(source));
    }

    method Type(f: Value -> Value) returns (r: Result<()>)
      requires Valid()
      modifies this
      ensures Valid()
      ensures r.Err? <==> old(lastProperty).None?
      ensures r.Ok? ==> properties == Modify(old(properties), old(lastProperty).value, TypeMod(f))
      ensures lastProperty == old(lastProperty) && options == old(options) && data == old(data)
    {
      r := RegisterModifier(TypeMod(f));
    }

    method Def(v: Value) returns (r: Result<()>)
      requires Valid()
      modifies this
      ensures Valid()
      ensures r.Err? <==> old(lastProperty).None?
      ensures r.Ok? ==> properties == Modify(old(properties), old(lastProperty).value, DefMod(v))
      ensures lastProperty == old(lastProperty) && options == old(options) && data == old(data)
    {
      r := RegisterModifier(DefMod(v));
    }

    method As(target: string) returns (r: Result<()>)
      requires Valid()
      modifies this
      ensures Valid()
      ensures r.Err? <==> old(lastProperty).None?
      ensures r.Ok? ==> properties == Modify(old(properties), old(lastProperty).value, AsMod(target))
      ensures lastProperty == old(lastProperty) && options == old(options) && data == old(data)
    {
      r := RegisterModifier(AsMod(target));
    }

    /** `build`: remembers the input, then runs the pipeline. */
    method Build(env: Renderers, input: Value, opts: Opts, previous: Option<map<string, Value>>)
      returns (r: Result<Value>)
      modifies this
      ensures r == BuildSpec(env, old(Schema()), input, opts, previous)
      ensures data == input && options == old(options) && properties == old(properties)
      ensures lastProperty == old(lastProperty)
    {
      data := input;
      r := Mapper.Build(env, Schema(), input, opts, previous);
    }

    /** `buildOne`. */
    method BuildOne(env: Renderers, input: Value, opts: Opts, previous: Option<map<string, Value>>)
      returns (r: Result<Value>)
      modifies this
      ensures r == BuildOneSpec(env, old(Schema()), input, opts, previous)
      ensures data == (if input.Arr? then FirstItem(input.items) else input)
      ensures options == old(options) && properties == old(properties) && lastProperty == old(lastProperty)
    {
      var first := if input.Arr? then FirstItem(input.items) else input;
      r := Build(env, first, opts, previous);
      if r.Ok? && r.value.Arr? {
        r := Ok(FirstItem(r.value.items));
      }
    }
  }
}
