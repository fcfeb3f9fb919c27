/**
 * The attribute build pipeline: how one declared attribute moves a value
 * from the input document into the output record and applies its
 * modifiers (rename, default, copy, type, format), how `one`/`many`
 * attributes build nested records, and the build driver that folds a
 * schema's attributes over one output record or maps it over an array.
 *
 * Every state change is specified twice: a function on `Rec` values (the
 * meaning, about which the lemmas speak) and a method on the mutable
 * `Record` that performs it step by step and is proved to agree.
 */
module Mapper {
  import opened Values
  import opened Errors
  import opened Helpers

  // ---------------------------------------------------------------------
  // Options and schemas

  /** The formatting libraries the format modifier calls: a date renderer
      taking (value, parse pattern, output pattern) and a number renderer
      taking (value, pattern). */
  datatype Renderers = Renderers(date: (Value, string, string) -> Value, number: (Value, string) -> Value)

  /** A `format` option: a function of (value, record), a descriptor object
      `{type, formatFrom, formatTo, format}` (an empty string is an absent
      field), or a bare pattern string. */
  datatype Format =
    | Custom(f: (Value, Value) -> Value)
    | Descriptor(kind: string, formatFrom: string, formatTo: string, format: string)
    | Pattern(pattern: string)

  /** The options `_.defaults` merges: the fail-fast flag and the five
      modifiers (`as`, `def`, `copy`, `type`, `format`). */
  datatype Opts = Opts(
    failOnNotExistsAttribute: Option<bool>,
    rename: Option<string>,
    def: Option<Value>,
    copy: Option<string>,
    coerce: Option<Value -> Value>,
    format: Option<Format>)

  const NoOpts: Opts := Opts(None, None, None, None, None, None)

  function FirstOf<T>(hi: Option<T>, lo: Option<T>): Option<T> {
    if hi.Some? then hi else lo
  }

  /** `_.defaults({}, hi, lo)`: every key `hi` sets wins over `lo`. */
  function Merge(hi: Opts, lo: Opts): Opts {
    Opts(FirstOf(hi.failOnNotExistsAttribute, lo.failOnNotExistsAttribute),
         FirstOf(hi.rename, lo.rename),
         FirstOf(hi.def, lo.def),
         FirstOf(hi.copy, lo.copy),
         FirstOf(hi.coerce, lo.coerce),
         FirstOf(hi.format, lo.format))
  }

  /** The identity of a declared attribute: its raw name, its path with the
      optional mark removed, and whether it is required. */
  datatype Attr = Attr(name: string, normalizedName: string, required: bool)

  /** Which mapper function a property runs: `attribute`, `one` or `many`.
      A reference carries the nested schema it builds with. */
  datatype Kind = Scalar | One(nested: Schema) | Many(nested: Schema)

  /** One registered property: its kind, its identity and its own options. */
  datatype Property = Property(kind: Kind, attr: Attr, mods: Opts)

  /** A schema: the mapper's options and its properties in processing order. */
  datatype Schema = Schema(options: Opts, properties: seq<Property>)

  // ---------------------------------------------------------------------
  // The output record

  /** A copy waiting for its source path to be written: where to write, and
      the type and format to apply there. */
  datatype Copy = Copy(dest: Path, coerce: Option<Value -> Value>, format: Option<Format>)

  /** An output record: the tree and the copies waiting on each source path,
      in the order they were registered. */
  datatype Rec = Rec(tree: Value, pending: map<Path, seq<Copy>>)

  predicate FormatGiven(f: Option<Format>) {
    f.Some? && !(f.value.Pattern? && f.value.pattern == "")
  }

  function FirstGiven(a: string, b: string): string {
    if a != "" then a else b
  }

  /** `applyFormat`'s dispatch: a function is called with the value and the
      record; a descriptor of type "date" goes to the date renderer; any
      other descriptor, or a pattern string, to the number renderer. */
  function Render(env: Renderers, fmt: Format, v: Value, record: Value): Value {
    match fmt
    case Custom(f) => f(v, record)
    case Descriptor(kind, from, to, f) =>
      if kind == "date" then env.date(v, from, FirstGiven(to, f)) else env.number(v, FirstGiven(to, f))
    case Pattern(p) => env.number(v, p)
  }

  /** `_.set` on the record: write the tree, then fire, once, every copy
      waiting on exactly this path. */
  function WriteSpec(env: Renderers, st: Rec, path: Path, x: Value): (r: Rec)
    ensures r.pending.Keys <= st.pending.Keys - {path}
    ensures st.tree.Obj? ==> r.tree.Obj?
    decreases st.pending.Keys, 0
  {
    var t := Set(st.tree, path, x);
    if path in st.pending then FireAllSpec(env, Rec(t, st.pending - {path}), st.pending[path], x)
    else Rec(t, st.pending)
  }

  /** Runs the fired copies in registration order. */
  function FireAllSpec(env: Renderers, st: Rec, fired: seq<Copy>, x: Value): (r: Rec)
    ensures r.pending.Keys <= st.pending.Keys
    ensures st.tree.Obj? ==> r.tree.Obj?
    decreases st.pending.Keys, |fired| + 2
  {
    if |fired| == 0 then st
    else FireAllSpec(env, ApplySpec(env, st, fired[0], x), fired[1..], x)
  }

  /** The copy action: write the copied value at the destination, then type
      it, then format it. */
  function ApplySpec(env: Renderers, st: Rec, c: Copy, x: Value): (r: Rec)
    ensures r.pending.Keys <= st.pending.Keys
    ensures st.tree.Obj? ==> r.tree.Obj?
    decreases st.pending.Keys, 2
  {
    var s1 := WriteSpec(env, st, c.dest, x);
    var s2 := if c.coerce.Some? then TypeSpec(env, s1, c.dest, c.coerce.value) else s1;
    if FormatGiven(c.format) then FormatSpec(env, s2, c.dest, c.format.value) else s2
  }

  /** `applyType`: replace the value at the path by its coercion. */
  function TypeSpec(env: Renderers, st: Rec, path: Path, f: Value -> Value): (r: Rec)
    ensures r.pending.Keys <= st.pending.Keys
    ensures st.tree.Obj? ==> r.tree.Obj?
    decreases st.pending.Keys, 1
  {
    WriteSpec(env, st, path, f(Get(st.tree, path)))
  }

  /** `applyFormat`: replace the value at the path by its rendering. */
  function FormatSpec(env: Renderers, st: Rec, path: Path, fmt: Format): (r: Rec)
    ensures r.pending.Keys <= st.pending.Keys
    ensures st.tree.Obj? ==> r.tree.Obj?
    decreases st.pending.Keys, 1
  {
    WriteSpec(env, st, path, Render(env, fmt, Get(st.tree, path), st.tree))
  }

  /** `applyDefault`: `_.set(path, _.get(path, d))`, a write that keeps a
      defined value and puts `d` in place of `undefined`. */
  function DefaultSpec(env: Renderers, st: Rec, path: Path, d: Value): (r: Rec)
    ensures st.tree.Obj? ==> r.tree.Obj?
  {
    WriteSpec(env, st, path, GetOr(st.tree, path, d))
  }

  /** `applyCopy`: when the source already holds a value, copy it now;
      otherwise register a one-shot copy on the source path. */
  function CopySpec(env: Renderers, st: Rec, a: Attr, source: string,
                    coerce: Option<Value -> Value>, format: Option<Format>): (r: Rec)
    ensures st.tree.Obj? ==> r.tree.Obj?
  {
    var src := Split(NormalizeAttributeName(source));
    var c := Copy(Split(a.normalizedName), coerce, format);
    var v := Get(st.tree, src);
    if v != Undef then ApplySpec(env, st, c, v)
    else Rec(st.tree, st.pending[src := (if src in st.pending then st.pending[src] else []) + [c]])
  }

  /** Deletion of the emptied ancestors of a path, deepest first: the
      ancestors `p[..k]`, `p[..k-1]`, ..., `p[..1]` are each removed when
      lodash considers them empty at that moment. */
  function Prune(t: Value, p: Path, k: nat): (r: Value)
    requires k < |p|
    ensures t.Obj? <==> r.Obj?
    decreases k
  {
    if k == 0 then t
    else
      var anc := p[..k];
      Prune(if IsEmpty(Get(t, anc)) then Unset(t, anc) else t, p, k - 1)
  }

  /** `applyAs`: write the attribute's value at the normalized target, then
      remove the old path (a top-level old key survives when it is one of
      the target's segments; a nested one is deleted and its emptied
      ancestors pruned). The attribute's name and path become the target's
      for the modifiers that follow. Watchers are not fired by deletions. */
  function ApplyAsSpec(env: Renderers, st: Rec, a: Attr, target: string): (r: (Rec, Attr))
    ensures st.tree.Obj? ==> r.0.tree.Obj?
  {
    var newName := NormalizeAttributeName(target);
    var oldPath := Split(a.normalizedName);
    var s1 := WriteSpec(env, st, Split(newName), Get(st.tree, oldPath));
    var t :=
      if '.' !in a.normalizedName then
        (if a.normalizedName in Split(newName) then s1.tree else Unset(s1.tree, oldPath))
      else Prune(Unset(s1.tree, oldPath), oldPath, |oldPath| - 1);
    (Rec(t, s1.pending), Attr(target, newName, a.required))
  }

  // ---------------------------------------------------------------------
  // attribute, one, many

  /** The fail-fast option is on. */
  predicate Fails(m: Opts) {
    m.failOnNotExistsAttribute == Some(true)
  }

  /** The fail-fast check shared by `attribute`, `one` and `many`. */
  predicate Missing(data: Value, a: Attr, m: Opts) {
    Get(data, Split(a.normalizedName)) == Undef && a.required && Fails(m)
  }

  predicate RenameApplies(m: Opts, a: Attr) {
    m.rename.Some? && m.rename.value != "" && m.rename.value != a.name
  }

  predicate DefaultApplies(m: Opts) {
    m.def.Some? && Truthy(m.def.value)
  }

  predicate CopyApplies(m: Opts, a: Attr) {
    m.copy.Some? && m.copy.value != "" && m.copy.value != a.name
  }

  /** `attribute`: fail fast, write the input's value at the same path, then
      apply rename, default, copy, type and format, each when configured;
      after a rename the later modifiers act on the new path. */
  function AttributeSpec(env: Renderers, st: Rec, data: Value, a: Attr, m: Opts): (r: Result<Rec>)
    ensures r.Err? <==> Missing(data, a, m)
    ensures r.Err? ==> r.error == MissingAttribute(a.normalizedName)
    ensures r.Ok? && st.tree.Obj? ==> r.value.tree.Obj?
  {
    var path := Split(a.normalizedName);
    var value := Get(data, path);
    if value == Undef && a.required && Fails(m) then Err(MissingAttribute(a.normalizedName))
    else
      var s1 := WriteSpec(env, st, path, value);
      var (s2, a2) := if RenameApplies(m, a) then ApplyAsSpec(env, s1, a, m.rename.value) else (s1, a);
      var p2 := Split(a2.normalizedName);
      var s3 := if DefaultApplies(m) then DefaultSpec(env, s2, p2, m.def.value) else s2;
      var s4 := if CopyApplies(m, a2) then CopySpec(env, s3, a2, m.copy.value, m.coerce, m.format) else s3;
      var s5 := if m.coerce.Some? then TypeSpec(env, s4, p2, m.coerce.value) else s4;
      var s6 := if FormatGiven(m.format) then FormatSpec(env, s5, p2, m.format.value) else s5;
      Ok(s6)
  }

  /** The options a nested build receives from a `one`/`many` attribute: its
      fail-fast flag and nothing else. (The source passes all of the
      attribute's merged options; see NestedOptionsAsWritten.) */
  function NestedOptions(m: Opts): (r: Opts)
    ensures r.failOnNotExistsAttribute == m.failOnNotExistsAttribute
    ensures r.rename.None? && r.def.None? && r.copy.None? && r.coerce.None? && r.format.None?
  {
    NoOpts.(failOnNotExistsAttribute := m.failOnNotExistsAttribute)
  }

  /** The nested build options as the source computes them: the attribute's
      whole merged options object, modifiers included. */
  function NestedOptionsAsWritten(m: Opts): Opts {
    m
  }

  /** `one` and `many` (their code is the same): fail fast with the given
      error, otherwise build the input's sub-value with the nested schema
      and write the result at the attribute's path. */
  function ReferenceSpec(env: Renderers, st: Rec, data: Value, a: Attr, m: Opts,
                         nested: Schema, missing: Error): (r: Result<Rec>)
    ensures r.Err? <==> Missing(data, a, m) || BuildSpec(env, nested, Get(data, Split(a.normalizedName)), NestedOptions(m), None).Err?
    ensures r.Err? && Missing(data, a, m) ==> r.error == missing
    ensures r.Ok? && st.tree.Obj? ==> r.value.tree.Obj?
    decreases nested, 5, 0
  {
    var path := Split(a.normalizedName);
    var value := Get(data, path);
    if value == Undef && a.required && Fails(m) then Err(missing)
    else
      match BuildSpec(env, nested, value, NestedOptions(m), None)
      case Err(e) => Err(e)
      case Ok(model) => Ok(WriteSpec(env, st, path, model))
  }

  // ---------------------------------------------------------------------
  // The build driver

  /** One step of `_build`: the property's options merged over the build's. */
  function StepSpec(env: Renderers, schema: Schema, i: nat, st: Rec, data: Value, eff: Opts): (r: Result<Rec>)
    requires i < |schema.properties|
    ensures r.Ok? && st.tree.Obj? ==> r.value.tree.Obj?
    decreases schema, 0, 0
  {
    var p := schema.properties[i];
    var m := Merge(p.mods, eff);
    match p.kind
    case Scalar => AttributeSpec(env, st, data, p.attr, m)
    case One(n) => ReferenceSpec(env, st, data, p.attr, m, n, MissingOneReference(p.attr.normalizedName))
    case Many(n) => ReferenceSpec(env, st, data, p.attr, m, n, MissingManyReference(p.attr.normalizedName))
  }

  /** `_build`'s reduce from property `i` on: each step gets the record the
      previous step produced; the first error ends the build. */
  function FoldSpec(env: Renderers, schema: Schema, i: nat, st: Rec, data: Value, eff: Opts): (r: Result<Rec>)
    requires i <= |schema.properties|
    ensures r.Ok? && st.tree.Obj? ==> r.value.tree.Obj?
    decreases schema, 1, |schema.properties| - i
  {
    if i == |schema.properties| then Ok(st)
    else
      match StepSpec(env, schema, i, st, data, eff)
      case Err(e) => Err(e)
      case Ok(s) => FoldSpec(env, schema, i + 1, s, data, eff)
  }

  function StartTree(previous: Option<map<string, Value>>): Value {
    Obj(if previous.Some? then previous.value else map[])
  }

  /** `_build`: the build options merged over the schema's, folded over the
      properties starting from `previous` or an empty object. */
  function BuildRecordSpec(env: Renderers, schema: Schema, data: Value, opts: Opts,
                           previous: Option<map<string, Value>>): (r: Result<Value>)
    ensures r.Ok? ==> r.value.Obj?
    decreases schema, 2, 0
  {
    match FoldSpec(env, schema, 0, Rec(StartTree(previous), map[]), data, Merge(opts, schema.options))
    case Err(e) => Err(e)
    case Ok(s) => Ok(s.tree)
  }

  /** A result list with `models` put in front of its elements. */
  function Prepend(models: seq<Value>, r: Result<seq<Value>>): Result<seq<Value>> {
    match r
    case Err(e) => Err(e)
    case Ok(vs) => Ok(models + vs)
  }

  /** The array branch of `build` without `previous`: every element gets
      its own fresh record; results keep the input order and any element's
      error is the build's error. */
  function BuildEachSpec(env: Renderers, schema: Schema, items: seq<Value>, opts: Opts): (r: Result<seq<Value>>)
    ensures r.Ok? ==> |r.value| == |items|
    decreases schema, 3, |items|
  {
    if |items| == 0 then Ok([])
    else
      match BuildRecordSpec(env, schema, items[0], opts, None)
      case Err(e) => Err(e)
      case Ok(v) =>
        match BuildEachSpec(env, schema, items[1..], opts)
        case Err(e) => Err(e)
        case Ok(vs) => Ok([v] + vs)
  }

  /** The array branch of `build` with `previous`: every element's `_build`
      starts from the same `previous` object, so each element continues
      from the record, watchers included, that the elements before it
      left. */
  function BuildSharedSpec(env: Renderers, schema: Schema, items: seq<Value>, eff: Opts, st: Rec): (r: Result<Rec>)
    ensures r.Ok? && st.tree.Obj? ==> r.value.tree.Obj?
    decreases schema, 3, |items|
  {
    if |items| == 0 then Ok(st)
    else
      match FoldSpec(env, schema, 0, st, items[0], eff)
      case Err(e) => Err(e)
      case Ok(s) => BuildSharedSpec(env, schema, items[1..], eff, s)
  }

  /** `n` references to one value. */
  function Repeat(v: Value, n: nat): (r: seq<Value>)
    ensures |r| == n && forall i :: 0 <= i < n ==> r[i] == v
  {
    if n == 0 then [] else [v] + Repeat(v, n - 1)
  }

  /** `build`: an array input is built element by element, anything else
      as one record. With `previous` every element resolves to the one
      shared record, so the array holds that record's final state at every
      index. */
  function BuildSpec(env: Renderers, schema: Schema, data: Value, opts: Opts,
                     previous: Option<map<string, Value>>): (r: Result<Value>)
    ensures r.Ok? && data.Arr? ==> r.value.Arr? && |r.value.items| == |data.items|
    ensures r.Ok? && !data.Arr? ==> r.value.Obj?
    decreases schema, 4, 0
  {
    if data.Arr? then
      if previous.Some? then
        match BuildSharedSpec(env, schema, data.items, Merge(opts, schema.options), Rec(Obj(previous.value), map[]))
        case Err(e) => Err(e)
        case Ok(s) => Ok(Arr(Repeat(s.tree, |data.items|)))
      else
        match BuildEachSpec(env, schema, data.items, opts)
        case Err(e) => Err(e)
        case Ok(vs) => Ok(Arr(vs))
    else BuildRecordSpec(env, schema, data, opts, previous)
  }

  function FirstItem(items: seq<Value>): Value {
    if |items| == 0 then Undef else items[0]
  }

  /** `buildOne`: an array input is reduced to its first element, and an
      array result to its first element. */
  function BuildOneSpec(env: Renderers, schema: Schema, data: Value, opts: Opts,
                        previous: Option<map<string, Value>>): (r: Result<Value>)
    ensures !data.Arr? ==> r == BuildRecordSpec(env, schema, data, opts, previous)
    ensures data.Arr? && |data.items| > 0 && !data.items[0].Arr? ==>
      r == BuildRecordSpec(env, schema, data.items[0], opts, previous)
  {
    var input := if data.Arr? then FirstItem(data.items) else data;
    match BuildSpec(env, schema, input, opts, previous)
    case Err(e) => Err(e)
    case Ok(v) => Ok(if v.Arr? then FirstItem(v.items) else v)
  }

  // ---------------------------------------------------------------------
  // The mutable record and the methods that update it

  /** The output record of one build: a tree and its table of pending
      copies, the watchers of the source. */
  class Record {
    var tree: Value
    var pending: map<Path, seq<Copy>>
    const env: Renderers

    function State(): Rec
      reads this
    {
      Rec(tree, pending)
    }

    constructor (env: Renderers, start: Value)
      ensures State() == Rec(start, map[]) && this.env == env
    {
      tree := start;
      pending := map[];
      this.env := env;
    }

    /** `_.set(result, path, x)` with the watchers firing. */
    method Write(path: Path, x: Value)
      modifies this
      ensures State() == WriteSpec(env, old(State()), path, x)
      decreases pending.Keys, 0
    {
      tree := Set(tree, path, x);
      if path in pending {
        var fired := pending[path];
        pending := pending - {path};
        FireAll(fired, x);
      }
    }

    /** Runs the copies fired by one write, in registration order. */
    method FireAll(fired: seq<Copy>, x: Value)
      modifies this
      ensures State() == FireAllSpec(env, old(State()), fired, x)
      decreases pending.Keys, |fired| + 2
    {
      var i := 0;
      while i < |fired|
        invariant 0 <= i <= |fired|
        invariant pending.Keys <= old(pending.Keys)
        invariant FireAllSpec(env, State(), fired[i..], x) == FireAllSpec(env, old(State()), fired, x)
      {
        assert fired[i..][1..] == fired[i + 1..];
        Apply(this, fired[i], x);
        i := i + 1;
      }
    }

    /** `_.unset(result, path)`; deleting fires no watcher. */
    method Unset(path: Path)
      modifies this
      ensures tree == Values.Unset(old(tree), path) && pending == old(pending)
    {
      tree := Values.Unset(tree, path);
    }

    /** `watch(result, source, copy)`: one more copy waiting on `source`. */
    method Watch(source: Path, c: Copy)
      modifies this
      ensures tree == old(tree)
      ensures pending == old(pending)[source := (if source in old(pending) then old(pending)[source] else []) + [c]]
    {
      var waiting := if source in pending then pending[source] else [];
      pending := pending[source := waiting + [c]];
    }
  }

  /** The copy action fired by a watcher or run at once by `applyCopy`. */
  method Apply(rec: Record, c: Copy, x: Value)
    modifies rec
    ensures rec.State() == ApplySpec(rec.env, old(rec.State()), c, x)
    decreases rec.pending.Keys, 2
  {
    rec.Write(c.dest, x);
    if c.coerce.Some? {
      ApplyType(rec, c.dest, c.coerce.value);
    }
    if FormatGiven(c.format) {
      ApplyFormat(rec, c.dest, c.format.value);
    }
  }

  method ApplyType(rec: Record, path: Path, f: Value -> Value)
    modifies rec
    ensures rec.State() == TypeSpec(rec.env, old(rec.State()), path, f)
    decreases rec.pending.Keys, 1
  {
    rec.Write(path, f(Get(rec.tree, path)));
  }

  method ApplyFormat(rec: Record, path: Path, fmt: Format)
    modifies rec
    ensures rec.State() == FormatSpec(rec.env, old(rec.State()), path, fmt)
    decreases rec.pending.Keys, 1
  {
    rec.Write(path, Render(rec.env, fmt, Get(rec.tree, path), rec.tree));
  }

  method ApplyDefault(rec: Record, path: Path, d: Value)
    modifies rec
    ensures rec.State() == DefaultSpec(rec.env, old(rec.State()), path, d)
  {
    rec.Write(path, GetOr(rec.tree, path, d));
  }

  method ApplyCopy(rec: Record, a: Attr, source: string,
                   coerce: Option<Value -> Value>, format: Option<Format>)
    modifies rec
    ensures rec.State() == CopySpec(rec.env, old(rec.State()), a, source, coerce, format)
  {
    var src := Split(NormalizeAttributeName(source));
    var c := Copy(Split(a.normalizedName), coerce, format);
    var v := Get(rec.tree, src);
    if v != Undef {
      Apply(rec, c, v);
    } else {
      rec.Watch(src, c);
    }
  }

  method ApplyAs(rec: Record, a: Attr, target: string) returns (a2: Attr)
    modifies rec
    ensures (rec.State(), a2) == ApplyAsSpec(rec.env, old(rec.State()), a, target)
  {
    var newName := NormalizeAttributeName(target);
    var oldPath := Split(a.normalizedName);
    rec.Write(Split(newName), Get(rec.tree, oldPath));
    ghost var s1 := rec.State();
    if '.' !in a.normalizedName {
      if a.normalizedName !in Split(newName) {
        rec.Unset(oldPath);
      }
    } else {
      rec.Unset(oldPath);
      var k := |oldPath| - 1;
      while k > 0
        invariant 0 <= k < |oldPath|
        invariant rec.pending == s1.pending
        invariant Prune(rec.tree, oldPath, k) == Prune(Values.Unset(s1.tree, oldPath), oldPath, |oldPath| - 1)
      {
        var anc := oldPath[..k];
        if IsEmpty(Get(rec.tree, anc)) {
          rec.Unset(anc);
        }
        k := k - 1;
      }
    }
    a2 := Attr(target, newName, a.required);
  }

  /** The outcome of a step that either throws before touching the record
      or succeeds with the specified state. */
  ghost predicate Reflects(spec: Result<Rec>, r: Result<()>, now: Rec, before: Rec) {
    match spec
    case Err(e) => r == Err(e) && now == before
    case Ok(s) => r == Ok(()) && now == s
  }

  method Attribute(rec: Record, data: Value, a: Attr, m: Opts) returns (r: Result<()>)
    modifies rec
    ensures Reflects(AttributeSpec(rec.env, old(rec.State()), data, a, m), r, rec.State(), old(rec.State()))
  {
    var path := Split(a.normalizedName);
    var value := Get(data, path);
    if value == Undef && a.required && Fails(m) {
      return Err(MissingAttribute(a.normalizedName));
    }
    rec.Write(path, value);
    var a2 := a;
    if RenameApplies(m, a) {
      a2 := ApplyAs(rec, a, m.rename.value);
    }
    var p2 := Split(a2.normalizedName);
    if DefaultApplies(m) {
      ApplyDefault(rec, p2, m.def.value);
    }
    if CopyApplies(m, a2) {
      ApplyCopy(rec, a2, m.copy.value, m.coerce, m.format);
    }
    if m.coerce.Some? {
      ApplyType(rec, p2, m.coerce.value);
    }
    if FormatGiven(m.format) {
      ApplyFormat(rec, p2, m.format.value);
    }
    r := Ok(());
  }

  method Reference(rec: Record, data: Value, a: Attr, m: Opts, nested: Schema, missing: Error)
    returns (r: Result<()>)
    modifies rec
    ensures Reflects(ReferenceSpec(rec.env, old(rec.State()), data, a, m, nested, missing),
                     r, rec.State(), old(rec.State()))
    decreases nested, 5, 0
  {
    var path := Split(a.normalizedName);
    var value := Get(data, path);
    if value == Undef && a.required && Fails(m) {
      return Err(missing);
    }
    var model := Build(rec.env, nested, value, NestedOptions(m), None);
    if model.Err? {
      return Err(model.error);
    }
    rec.Write(path, model.value);
    r := Ok(());
  }

  method Step(rec: Record, schema: Schema, i: nat, data: Value, eff: Opts) returns (r: Result<()>)
    requires i < |schema.properties|
    modifies rec
    ensures Reflects(StepSpec(rec.env, schema, i, old(rec.State()), data, eff), r, rec.State(), old(rec.State()))
    decreases schema, 0, 0
  {
    var p := schema.properties[i];
    var m := Merge(p.mods, eff);
    match p.kind
    case Scalar =>
      r := Attribute(rec, data, p.attr, m);
    case One(n) =>
      r := Reference(rec, data, p.attr, m, n, MissingOneReference(p.attr.normalizedName));
    case Many(n) =>
      r := Reference(rec, data, p.attr, m, n, MissingManyReference(p.attr.normalizedName));
  }

  /** `_build`'s reduce on a given record: the properties in order, each
      step on the record the previous step left. On an error the record
      holds whatever the steps before it wrote. */
  method Fold(rec: Record, schema: Schema, data: Value, eff: Opts) returns (r: Result<()>)
    modifies rec
    ensures var spec := FoldSpec(rec.env, schema, 0, old(rec.State()), data, eff);
      (r.Err? <==> spec.Err?) && (spec.Err? ==> r.error == spec.error) && (spec.Ok? ==> rec.State() == spec.value)
    decreases schema, 1, 0
  {
    ghost var start := rec.State();
    var i := 0;
    while i < |schema.properties|
      invariant 0 <= i <= |schema.properties|
      invariant FoldSpec(rec.env, schema, i, rec.State(), data, eff) == FoldSpec(rec.env, schema, 0, start, data, eff)
    {
      var step := Step(rec, schema, i, data, eff);
      if step.Err? {
        return Err(step.error);
      }
      i := i + 1;
    }
    r := Ok(());
  }

  /** `_build`: a fresh record, from `previous` or empty, threaded through
      the properties in order. */
  method BuildRecord(env: Renderers, schema: Schema, data: Value, opts: Opts,
                     previous: Option<map<string, Value>>) returns (r: Result<Value>)
    ensures r == BuildRecordSpec(env, schema, data, opts, previous)
    decreases schema, 2, 0
  {
    var rec := new Record(env, StartTree(previous));
    var folded := Fold(rec, schema, data, Merge(opts, schema.options));
    if folded.Err? {
      return Err(folded.error);
    }
    r := Ok(rec.tree);
  }

  /** `build`: the array branch runs `_build` once per element and keeps
      the input order; with `previous` all elements share one record. */
  method Build(env: Renderers, schema: Schema, data: Value, opts: Opts,
               previous: Option<map<string, Value>>) returns (r: Result<Value>)
    ensures r == BuildSpec(env, schema, data, opts, previous)
    decreases schema, 4, 0
  {
    if !data.Arr? {
      r := BuildRecord(env, schema, data, opts, previous);
      return;
    }
    var items := data.items;
    var i := 0;
    assert items[0..] == items;
    if previous.Some? {
      var eff := Merge(opts, schema.options);
      var rec := new Record(env, Obj(previous.value));
      ghost var start := rec.State();
      while i < |items|
        invariant 0 <= i <= |items| && rec.env == env
        invariant BuildSharedSpec(env, schema, items, eff, start) == BuildSharedSpec(env, schema, items[i..], eff, rec.State())
        decreases |items| - i
      {
        assert items[i..][1..] == items[i + 1..];
        var folded := Fold(rec, schema, items[i], eff);
        if folded.Err? {
          return Err(folded.error);
        }
        i := i + 1;
      }
      assert items[i..] == [];
      r := Ok(Arr(Repeat(rec.tree, |items|)));
      return;
    }
    var models: seq<Value> := [];
    assert forall vs: seq<Value> :: [] + vs == vs;
    while i < |items|
      invariant 0 <= i <= |items|
      invariant BuildEachSpec(env, schema, items, opts) == Prepend(models, BuildEachSpec(env, schema, items[i..], opts))
      decreases |items| - i
    {
      assert items[i..][1..] == items[i + 1..];
      var model := BuildRecord(env, schema, items[i], opts, None);
      if model.Err? {
        return Err(model.error);
      }
      match BuildEachSpec(env, schema, items[i + 1..], opts) {
        case Err(e) =>
        case Ok(vs) =>
          assert models + ([model.value] + vs) == (models + [model.value]) + vs;
      }
      models := models + [model.value];
      i := i + 1;
    }
    assert items[i..] == [];
    assert models + [] == models;
    r := Ok(Arr(models));
  }

  /** `buildOne`. */
  method BuildOne(env: Renderers, schema: Schema, data: Value, opts: Opts,
                  previous: Option<map<string, Value>>) returns (r: Result<Value>)
    ensures r == BuildOneSpec(env, schema, data, opts, previous)
  {
    var input := if data.Arr? then FirstItem(data.items) else data;
    r := Build(env, schema, input, opts, previous);
    if r.Ok? && r.value.Arr? {
      r := Ok(FirstItem(r.value.items));
    }
  }
}
