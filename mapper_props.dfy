/**
 * Properties of the attribute pipeline: what each modifier does to the
 * output record, the order in which copies observe type and format, the
 * fail-fast rule over a whole schema, and the array build with and
 * without a shared `previous` record.
 */
module MapperProps {
  import opened Values
  import opened Errors
  import opened Helpers
  import opened Mapper

  // ---------------------------------------------------------------------
  // Plain writes

  /** A write nobody watches stores the value at its path and leaves every
      path that parts ways with it alone. */
  lemma {:induction false} WriteUnwatched(env: Renderers, st: Rec, path: Path, x: Value)
    requires st.tree.Obj? && path !in st.pending
    ensures WriteSpec(env, st, path, x).pending == st.pending
    ensures Get(WriteSpec(env, st, path, x).tree, path) == x
    ensures forall q :: Disjoint(path, q) ==> Get(WriteSpec(env, st, path, x).tree, q) == Get(st.tree, q)
  {
    GetSetSame(st.tree, path, x);
    forall q | Disjoint(path, q)
      ensures Get(WriteSpec(env, st, path, x).tree, q) == Get(st.tree, q)
    {
      GetSetOther(st.tree, path, q, x);
    }
  }

  /** With no modifier configured, `attribute` writes the input's value,
      `undefined` included, at the same path of the record. */
  lemma AttributePlain(env: Renderers, st: Rec, data: Value, a: Attr, m: Opts)
    requires st.tree.Obj? && Split(a.normalizedName) !in st.pending
    requires m.rename.None? && m.def.None? && m.copy.None? && m.coerce.None? && m.format.None?
    requires !Missing(data, a, m)
    ensures AttributeSpec(env, st, data, a, m).Ok?
    ensures AttributeSpec(env, st, data, a, m).value.pending == st.pending
    ensures Get(AttributeSpec(env, st, data, a, m).value.tree, Split(a.normalizedName)) == Get(data, Split(a.normalizedName))
    ensures forall q :: Disjoint(Split(a.normalizedName), q) ==>
      Get(AttributeSpec(env, st, data, a, m).value.tree, q) == Get(st.tree, q)
  {
    WriteUnwatched(env, st, Split(a.normalizedName), Get(data, Split(a.normalizedName)));
  }

  // ---------------------------------------------------------------------
  // def, type, format

  /** `applyDefault` fills in `undefined` only: a defined value, `null`
      included, stays. Nothing else in the record changes. */
  lemma DefaultFillsOnlyUndefined(env: Renderers, st: Rec, path: Path, d: Value)
    requires st.tree.Obj? && path !in st.pending
    ensures DefaultSpec(env, st, path, d).pending == st.pending
    ensures Get(DefaultSpec(env, st, path, d).tree, path) ==
      (if Get(st.tree, path) == Undef then d else Get(st.tree, path))
    ensures forall q :: Disjoint(path, q) ==> Get(DefaultSpec(env, st, path, d).tree, q) == Get(st.tree, q)
  {
    WriteUnwatched(env, st, path, GetOr(st.tree, path, d));
  }

  /** A falsy default (`0`, `""`, `false`, `null`) changes nothing: the
      attribute behaves as if no default were configured. */
  lemma FalsyDefaultIgnored(env: Renderers, st: Rec, data: Value, a: Attr, m: Opts)
    requires m.def.Some? && !Truthy(m.def.value)
    ensures AttributeSpec(env, st, data, a, m) == AttributeSpec(env, st, data, a, m.(def := None))
  {
  }

  /** `applyType` replaces the value at its own path by its coercion and
      changes nothing else. */
  lemma TypeOnlyAtPath(env: Renderers, st: Rec, path: Path, f: Value -> Value)
    requires st.tree.Obj? && path !in st.pending
    ensures TypeSpec(env, st, path, f).pending == st.pending
    ensures Get(TypeSpec(env, st, path, f).tree, path) == f(Get(st.tree, path))
    ensures forall q :: Disjoint(path, q) ==> Get(TypeSpec(env, st, path, f).tree, q) == Get(st.tree, q)
  {
    WriteUnwatched(env, st, path, f(Get(st.tree, path)));
  }

  /** `applyFormat` replaces the value at its own path by its rendering and
      changes nothing else. */
  lemma FormatOnlyAtPath(env: Renderers, st: Rec, path: Path, fmt: Format)
    requires st.tree.Obj? && path !in st.pending
    ensures FormatSpec(env, st, path, fmt).pending == st.pending
    ensures Get(FormatSpec(env, st, path, fmt).tree, path) == Render(env, fmt, Get(st.tree, path), st.tree)
    ensures forall q :: Disjoint(path, q) ==> Get(FormatSpec(env, st, path, fmt).tree, q) == Get(st.tree, q)
  {
    WriteUnwatched(env, st, path, Render(env, fmt, Get(st.tree, path), st.tree));
  }

  // ---------------------------------------------------------------------
  // as

  /** Renaming a top-level attribute moves its value to the new path and
      deletes the old key, unless the old key is one of the new path's
      segments (`price` renamed to `price.value` keeps `price`). */
  lemma RenameTopLevel(env: Renderers, st: Rec, a: Attr, target: string)
    requires st.tree.Obj? && '.' !in a.normalizedName
    requires Split(NormalizeAttributeName(target)) !in st.pending
    ensures ApplyAsSpec(env, st, a, target).0.pending == st.pending
    ensures Get(ApplyAsSpec(env, st, a, target).0.tree, Split(NormalizeAttributeName(target))) ==
      Get(st.tree, [a.normalizedName])
    ensures a.normalizedName !in Split(NormalizeAttributeName(target)) ==>
      Get(ApplyAsSpec(env, st, a, target).0.tree, [a.normalizedName]) == Undef
    ensures ApplyAsSpec(env, st, a, target).1 == Attr(target, NormalizeAttributeName(target), a.required)
  {
    var newPath := Split(NormalizeAttributeName(target));
    SplitPlain(a.normalizedName);
    var v := Get(st.tree, [a.normalizedName]);
    WriteUnwatched(env, st, newPath, v);
    var t1 := Set(st.tree, newPath, v);
    if a.normalizedName !in newPath {
      assert newPath[0] != a.normalizedName;
      assert Disjoint([a.normalizedName], newPath);
      GetUnsetOther(t1, [a.normalizedName], newPath);
      GetUnsetSame(t1, [a.normalizedName]);
    }
  }

  /** Pruning emptied ancestors never changes a path that parts ways with
      the deleted one: only empty ancestors go, and nothing lies below an
      empty value. */
  lemma {:induction false} PruneKeepsDisjoint(t: Value, p: Path, k: nat, q: seq<string>)
    requires k < |p| && Disjoint(p, q)
    ensures Get(Prune(t, p, k), q) == Get(t, q)
    decreases k
  {
    if k > 0 {
      var anc: Path := p[..k];
      var t1 := if IsEmpty(Get(t, anc)) then Unset(t, anc) else t;
      PruneKeepsDisjoint(t1, p, k - 1, q);
      if IsEmpty(Get(t, anc)) {
        DisjointFromPrefix(p, q, k);
        if Disjoint(anc, q) {
          GetUnsetOther(t, anc, q);
        } else {
          GetUnsetBelow(t, anc, q);
          GetBelowEmpty(t, anc, q);
        }
      }
    }
  }

  /** Pruning never brings back a path that is missing. */
  lemma {:induction false} PruneKeepsMissing(t: Value, p: Path, k: nat, q: seq<string>)
    requires k < |p| && Get(t, q) == Undef
    ensures Get(Prune(t, p, k), q) == Undef
    decreases k
  {
    if k > 0 {
      var anc: Path := p[..k];
      var t1 := if IsEmpty(Get(t, anc)) then Unset(t, anc) else t;
      if IsEmpty(Get(t, anc)) {
        UnsetKeepsMissing(t, anc, q);
      }
      PruneKeepsMissing(t1, p, k - 1, q);
    }
  }

  /** Renaming a nested attribute to a path that parts ways with it moves
      the value, leaves the old path empty, and keeps every path that parts
      ways with both. */
  lemma RenameNested(env: Renderers, st: Rec, a: Attr, target: string)
    requires st.tree.Obj? && '.' in a.normalizedName
    requires Split(NormalizeAttributeName(target)) !in st.pending
    requires Disjoint(Split(a.normalizedName), Split(NormalizeAttributeName(target)))
    ensures ApplyAsSpec(env, st, a, target).0.pending == st.pending
    ensures Get(ApplyAsSpec(env, st, a, target).0.tree, Split(NormalizeAttributeName(target))) ==
      Get(st.tree, Split(a.normalizedName))
    ensures Get(ApplyAsSpec(env, st, a, target).0.tree, Split(a.normalizedName)) == Undef
    ensures forall q :: Disjoint(Split(a.normalizedName), q) && Disjoint(Split(NormalizeAttributeName(target)), q) ==>
      Get(ApplyAsSpec(env, st, a, target).0.tree, q) == Get(st.tree, q)
  {
    var oldPath := Split(a.normalizedName);
    var newPath := Split(NormalizeAttributeName(target));
    var v := Get(st.tree, oldPath);
    WriteUnwatched(env, st, newPath, v);
    var t1 := Set(st.tree, newPath, v);
    var t2 := Unset(t1, oldPath);
    var k := |oldPath| - 1;
    GetUnsetOther(t1, oldPath, newPath);
    PruneKeepsDisjoint(t2, oldPath, k, newPath);
    GetUnsetSame(t1, oldPath);
    PruneKeepsMissing(t2, oldPath, k, oldPath);
    forall q | Disjoint(oldPath, q) && Disjoint(newPath, q)
      ensures Get(Prune(t2, oldPath, k), q) == Get(st.tree, q)
    {
      GetSetOther(st.tree, newPath, q, v);
      GetUnsetOther(t1, oldPath, q);
      PruneKeepsDisjoint(t2, oldPath, k, q);
    }
  }

  /** After a rename, the later modifiers act on the new path: with a
      coercion and no default, copy or format, the new path ends up holding
      the coerced input value. */
  lemma RenameThenType(env: Renderers, st: Rec, data: Value, a: Attr, m: Opts)
    requires st.tree.Obj? && st.pending == map[]
    requires !Missing(data, a, m) && RenameApplies(m, a)
    requires m.def.None? && m.copy.None? && m.format.None? && m.coerce.Some?
    requires '.' in a.normalizedName ==>
      Disjoint(Split(a.normalizedName), Split(NormalizeAttributeName(m.rename.value)))
    ensures AttributeSpec(env, st, data, a, m).Ok?
    ensures AttributeSpec(env, st, data, a, m).value.pending == map[]
    ensures Get(AttributeSpec(env, st, data, a, m).value.tree, Split(NormalizeAttributeName(m.rename.value))) ==
      m.coerce.value(Get(data, Split(a.normalizedName)))
  {
    var path := Split(a.normalizedName);
    var newPath := Split(NormalizeAttributeName(m.rename.value));
    var value := Get(data, path);
    WriteUnwatched(env, st, path, value);
    var s1 := WriteSpec(env, st, path, value);
    if '.' !in a.normalizedName {
      SplitPlain(a.normalizedName);
      RenameTopLevel(env, s1, a, m.rename.value);
    } else {
      RenameNested(env, s1, a, m.rename.value);
    }
    var s2 := ApplyAsSpec(env, s1, a, m.rename.value).0;
    TypeOnlyAtPath(env, s2, newPath, m.coerce.value);
  }

  // ---------------------------------------------------------------------
  // one and many

  /** A successful `one`/`many` writes the nested build of the input's
      sub-value at the attribute's path, and changes no path that parts
      ways with it. */
  lemma ReferenceWritesNestedBuild(env: Renderers, st: Rec, data: Value, a: Attr, m: Opts,
                                   nested: Schema, missing: Error)
    requires st.tree.Obj? && Split(a.normalizedName) !in st.pending
    requires ReferenceSpec(env, st, data, a, m, nested, missing).Ok?
    ensures var built := BuildSpec(env, nested, Get(data, Split(a.normalizedName)), NestedOptions(m), None);
      built.Ok? &&
      Get(ReferenceSpec(env, st, data, a, m, nested, missing).value.tree, Split(a.normalizedName)) == built.value
    ensures ReferenceSpec(env, st, data, a, m, nested, missing).value.pending == st.pending
    ensures forall q :: Disjoint(Split(a.normalizedName), q) ==>
      Get(ReferenceSpec(env, st, data, a, m, nested, missing).value.tree, q) == Get(st.tree, q)
  {
    var path := Split(a.normalizedName);
    var built := BuildSpec(env, nested, Get(data, path), NestedOptions(m), None);
    WriteUnwatched(env, st, path, built.value);
  }

  /** The nested build sees only the fail-fast flag of the attribute's
      options: two option sets that agree on it give the same outcome,
      whatever rename, default, copy, type or format they carry. */
  lemma ReferenceIgnoresParentModifiers(env: Renderers, st: Rec, data: Value, a: Attr, m1: Opts, m2: Opts,
                                        nested: Schema, missing: Error)
    requires m1.failOnNotExistsAttribute == m2.failOnNotExistsAttribute
    ensures ReferenceSpec(env, st, data, a, m1, nested, missing) == ReferenceSpec(env, st, data, a, m2, nested, missing)
  {
  }

  // ---------------------------------------------------------------------
  // copy

  /** A copy whose source is already defined runs at once: the destination
      receives the coerced source value, and the attribute's own type step
      then coerces it a second time. */
  lemma SyncCopyCoercesTwice(env: Renderers, st: Rec, a: Attr, source: string, f: Value -> Value)
    requires st.tree.Obj? && st.pending == map[]
    requires Get(st.tree, Split(NormalizeAttributeName(source))) != Undef
    ensures CopySpec(env, st, a, source, Some(f), None).pending == map[]
    ensures Get(CopySpec(env, st, a, source, Some(f), None).tree, Split(a.normalizedName)) ==
      f(Get(st.tree, Split(NormalizeAttributeName(source))))
    ensures Get(TypeSpec(env, CopySpec(env, st, a, source, Some(f), None), Split(a.normalizedName), f).tree, Split(a.normalizedName)) ==
      f(f(Get(st.tree, Split(NormalizeAttributeName(source)))))
  {
    var dest := Split(a.normalizedName);
    var v := Get(st.tree, Split(NormalizeAttributeName(source)));
    WriteUnwatched(env, st, dest, v);
    var s1 := WriteSpec(env, st, dest, v);
    TypeOnlyAtPath(env, s1, dest, f);
    var s2 := TypeSpec(env, s1, dest, f);
    TypeOnlyAtPath(env, s2, dest, f);
  }

  /** A copy whose source is still undefined waits on the source path. The
      first write there copies the written value, coerces it once and drops
      the subscription, so a later write to the source leaves the copy as
      it was. */
  lemma DeferredCopyCoercesOnce(env: Renderers, st: Rec, a: Attr, source: string, f: Value -> Value, x: Value, y: Value)
    requires st.tree.Obj? && st.pending == map[]
    requires Get(st.tree, Split(NormalizeAttributeName(source))) == Undef
    requires Disjoint(Split(a.normalizedName), Split(NormalizeAttributeName(source)))
    ensures var s1 := CopySpec(env, st, a, source, Some(f), None);
      s1.tree == st.tree &&
      s1.pending == map[Split(NormalizeAttributeName(source)) := [Copy(Split(a.normalizedName), Some(f), None)]]
    ensures var s2 := TypeSpec(env, CopySpec(env, st, a, source, Some(f), None), Split(a.normalizedName), f);
      var s3 := WriteSpec(env, s2, Split(NormalizeAttributeName(source)), x);
      s3.pending == map[] &&
      Get(s3.tree, Split(NormalizeAttributeName(source))) == x &&
      Get(s3.tree, Split(a.normalizedName)) == f(x) &&
      Get(WriteSpec(env, s3, Split(NormalizeAttributeName(source)), y).tree, Split(a.normalizedName)) == f(x)
  {
    var src := Split(NormalizeAttributeName(source));
    var dest := Split(a.normalizedName);
    var c := Copy(dest, Some(f), None);
    var s1 := CopySpec(env, st, a, source, Some(f), None);
    assert Get(st.tree, src) == Undef;
    assert s1 == Rec(st.tree, st.pending[src := [] + [c]]);
    assert [] + [c] == [c];
    assert s1.pending == map[src := [c]];
    DisjointDistinct(dest, src);
    TypeOnlyAtPath(env, s1, dest, f);
    var s2 := TypeSpec(env, s1, dest, f);
    assert s2.pending == map[src := [c]];
    assert (s2.pending - {src}).Keys == {};
    var t := Set(s2.tree, src, x);
    GetSetSame(s2.tree, src, x);
    var s0 := Rec(t, map[]);
    assert WriteSpec(env, s2, src, x) == FireAllSpec(env, s0, [c], x);
    assert FireAllSpec(env, s0, [c], x) == ApplySpec(env, s0, c, x) by {
      assert [c][1..] == [];
    }
    WriteUnwatched(env, s0, dest, x);
    var w := WriteSpec(env, s0, dest, x);
    TypeOnlyAtPath(env, w, dest, f);
    var s3 := TypeSpec(env, w, dest, f);
    DisjointSymmetric(dest, src);
    WriteUnwatched(env, s3, src, y);
  }

  // ---------------------------------------------------------------------
  // _build and build

  /** The fail-fast condition of the `j`-th property under build options
      `eff`. */
  predicate MissingAt(schema: Schema, j: nat, data: Value, eff: Opts)
    requires j < |schema.properties|
  {
    Missing(data, schema.properties[j].attr, Merge(schema.properties[j].mods, eff))
  }

  /** Over plain attributes, the fold fails exactly when some property's
      required value is missing under a fail-fast option, and the error is
      the first such property's: the record built so far never matters. */
  lemma {:induction false} FoldFailsFast(env: Renderers, schema: Schema, i: nat, st: Rec, data: Value, eff: Opts)
    requires i <= |schema.properties|
    requires forall j :: i <= j < |schema.properties| ==> schema.properties[j].kind.Scalar?
    ensures FoldSpec(env, schema, i, st, data, eff).Err? <==>
      exists j :: i <= j < |schema.properties| && MissingAt(schema, j, data, eff)
    ensures forall j :: (i <= j < |schema.properties| && MissingAt(schema, j, data, eff) &&
                         (forall k :: i <= k < j ==> !MissingAt(schema, k, data, eff))) ==>
      FoldSpec(env, schema, i, st, data, eff) == Err(MissingAttribute(schema.properties[j].attr.normalizedName))
    decreases |schema.properties| - i
  {
    if i < |schema.properties| {
      var p := schema.properties[i];
      var step := StepSpec(env, schema, i, st, data, eff);
      assert step == AttributeSpec(env, st, data, p.attr, Merge(p.mods, eff));
      if step.Ok? {
        assert !MissingAt(schema, i, data, eff);
        FoldFailsFast(env, schema, i + 1, step.value, data, eff);
      } else {
        assert MissingAt(schema, i, data, eff);
      }
    }
  }

  /** With the fail-fast option off at every level, a schema of plain
      attributes always builds. */
  lemma BuildWithoutFailFast(env: Renderers, schema: Schema, data: Value, opts: Opts,
                             previous: Option<map<string, Value>>)
    requires forall j :: 0 <= j < |schema.properties| ==> schema.properties[j].kind.Scalar?
    requires opts.failOnNotExistsAttribute == Some(false)
    requires forall j :: 0 <= j < |schema.properties| ==> schema.properties[j].mods.failOnNotExistsAttribute.None?
    ensures BuildRecordSpec(env, schema, data, opts, previous).Ok?
  {
    var eff := Merge(opts, schema.options);
    FoldFailsFast(env, schema, 0, Rec(StartTree(previous), map[]), data, eff);
  }

  /** Without `previous`, the array build runs one fresh record build per
      element: it succeeds when every element does, yields the elements'
      records in input order, and otherwise fails with the first failing
      element's error. */
  lemma {:induction false} BuildEachElementwise(env: Renderers, schema: Schema, items: seq<Value>, opts: Opts)
    ensures BuildEachSpec(env, schema, items, opts).Ok? <==>
      forall i :: 0 <= i < |items| ==> BuildRecordSpec(env, schema, items[i], opts, None).Ok?
    ensures BuildEachSpec(env, schema, items, opts).Ok? ==>
      forall i :: 0 <= i < |items| ==>
        BuildRecordSpec(env, schema, items[i], opts, None) == Ok(BuildEachSpec(env, schema, items, opts).value[i])
    ensures BuildEachSpec(env, schema, items, opts).Err? ==>
      exists i :: 0 <= i < |items| &&
        BuildRecordSpec(env, schema, items[i], opts, None) == Err(BuildEachSpec(env, schema, items, opts).error) &&
        forall k :: 0 <= k < i ==> BuildRecordSpec(env, schema, items[k], opts, None).Ok?
    decreases |items|
  {
    if |items| > 0 {
      BuildEachElementwise(env, schema, items[1..], opts);
      var rest := BuildEachSpec(env, schema, items[1..], opts);
      var head := BuildRecordSpec(env, schema, items[0], opts, None);
      assert forall i :: 1 <= i < |items| ==> items[1..][i - 1] == items[i];
      if head.Ok? && rest.Err? {
        var i :| 0 <= i < |items[1..]| &&
          BuildRecordSpec(env, schema, items[1..][i], opts, None) == Err(rest.error) &&
          forall k :: 0 <= k < i ==> BuildRecordSpec(env, schema, items[1..][k], opts, None).Ok?;
        assert BuildRecordSpec(env, schema, items[i + 1], opts, None) == Err(rest.error);
      }
    }
  }

  /** `build` on an array without `previous`: one record per element, in
      input order. */
  lemma BuildArrayInOrder(env: Renderers, schema: Schema, items: seq<Value>, opts: Opts)
    ensures BuildSpec(env, schema, Arr(items), opts, None).Ok? ==>
      var out := BuildSpec(env, schema, Arr(items), opts, None).value.items;
      |out| == |items| &&
      forall i :: 0 <= i < |items| ==> BuildRecordSpec(env, schema, items[i], opts, None) == Ok(out[i])
    ensures BuildSpec(env, schema, Arr(items), opts, None).Err? <==>
      exists i :: 0 <= i < |items| && BuildRecordSpec(env, schema, items[i], opts, None).Err?
  {
    BuildEachElementwise(env, schema, items, opts);
  }

  /** The shared build of a list with one more element is the shared build
      of the list, followed by one `_build` of the new element on the
      record the others left: the elements are folded in input order. */
  lemma {:induction false} BuildSharedThreads(env: Renderers, schema: Schema, items: seq<Value>, x: Value, eff: Opts, st: Rec)
    ensures BuildSharedSpec(env, schema, items + [x], eff, st) ==
      match BuildSharedSpec(env, schema, items, eff, st)
      case Err(e) => Err(e)
      case Ok(s) => FoldSpec(env, schema, 0, s, x, eff)
    decreases |items|
  {
    if |items| == 0 {
      assert items + [x] == [x];
      assert [x][1..] == [];
    } else {
      assert (items + [x])[0] == items[0];
      assert (items + [x])[1..] == items[1..] + [x];
      match FoldSpec(env, schema, 0, st, items[0], eff) {
        case Err(e) =>
        case Ok(s) => BuildSharedThreads(env, schema, items[1..], x, eff, s);
      }
    }
  }

  /** Over plain attributes, the shared build fails exactly when some
      element misses some required attribute under a fail-fast option,
      whatever the elements before it wrote into the shared record. */
  lemma {:induction false} BuildSharedFailsFast(env: Renderers, schema: Schema, items: seq<Value>, eff: Opts, st: Rec)
    requires forall j :: 0 <= j < |schema.properties| ==> schema.properties[j].kind.Scalar?
    ensures BuildSharedSpec(env, schema, items, eff, st).Err? <==>
      exists i, j :: 0 <= i < |items| && 0 <= j < |schema.properties| && MissingAt(schema, j, items[i], eff)
    decreases |items|
  {
    if |items| > 0 {
      FoldFailsFast(env, schema, 0, st, items[0], eff);
      assert forall i :: 1 <= i < |items| ==> items[1..][i - 1] == items[i];
      match FoldSpec(env, schema, 0, st, items[0], eff) {
        case Err(e) =>
        case Ok(s) =>
          BuildSharedFailsFast(env, schema, items[1..], eff, s);
      }
    }
  }

  /** `build` on an array with `previous`: every element's `_build` writes
      into the one shared record, so all the array's entries are that
      record's final state; a one-element array is built exactly as its
      element alone would be. */
  lemma BuildArrayShared(env: Renderers, schema: Schema, items: seq<Value>, opts: Opts, prev: map<string, Value>)
    ensures BuildSpec(env, schema, Arr(items), opts, Some(prev)).Ok? ==>
      var out := BuildSpec(env, schema, Arr(items), opts, Some(prev)).value.items;
      |out| == |items| &&
      (forall i :: 0 <= i < |out| ==> out[i].Obj?) &&
      (forall i, j :: 0 <= i < |out| && 0 <= j < |out| ==> out[i] == out[j])
    ensures |items| == 1 ==>
      BuildSpec(env, schema, Arr(items), opts, Some(prev)) ==
        match BuildRecordSpec(env, schema, items[0], opts, Some(prev))
        case Err(e) => Err(e)
        case Ok(v) => Ok(Arr([v]))
  {
    if |items| == 1 {
      var eff := Merge(opts, schema.options);
      var st := Rec(Obj(prev), map[]);
      assert StartTree(Some(prev)) == Obj(prev);
      assert items[1..] == [];
      match FoldSpec(env, schema, 0, st, items[0], eff) {
        case Err(e) =>
        case Ok(s) =>
          assert BuildSharedSpec(env, schema, items, eff, st) == Ok(s);
          assert Repeat(s.tree, 1) == [s.tree];
      }
    }
  }

  /** The two-attribute schema `attribute('?a')`, `attribute('?b')`. */
  const OptionalA: Attr := Attr("?a", "a", false)
  const OptionalB: Attr := Attr("?b", "b", false)
  const SchemaAB: Schema := Schema(NoOpts, [Property(Scalar, OptionalA, NoOpts), Property(Scalar, OptionalB, NoOpts)])
  const ItemA: Value := Obj(map["a" := Num(1)])
  const ItemB: Value := Obj(map["b" := Num(2)])

  /** An optional top-level attribute with no modifier on a record with no
      pending copies sets one key of the record. */
  lemma PlainOptionalWrite(env: Renderers, t: map<string, Value>, data: Value, a: Attr, m: Opts)
    requires !a.required && '.' !in a.normalizedName
    requires m.rename.None? && m.def.None? && m.copy.None? && m.coerce.None? && m.format.None?
    ensures AttributeSpec(env, Rec(Obj(t), map[]), data, a, m) ==
      Ok(Rec(Obj(t[a.normalizedName := Get(data, [a.normalizedName])]), map[]))
  {
    SplitPlain(a.normalizedName);
  }

  /** `_build` with SchemaAB writes keys `a` and `b` from the input. */
  lemma FoldAB(env: Renderers, t: map<string, Value>, data: Value)
    ensures FoldSpec(env, SchemaAB, 0, Rec(Obj(t), map[]), data, NoOpts) ==
      Ok(Rec(Obj(t["a" := Get(data, ["a"])]["b" := Get(data, ["b"])]), map[]))
  {
    assert Merge(NoOpts, NoOpts) == NoOpts;
    var s0 := Rec(Obj(t), map[]);
    PlainOptionalWrite(env, t, data, OptionalA, NoOpts);
    var s1 := Rec(Obj(t["a" := Get(data, ["a"])]), map[]);
    PlainOptionalWrite(env, t["a" := Get(data, ["a"])], data, OptionalB, NoOpts);
    var s2 := Rec(Obj(t["a" := Get(data, ["a"])]["b" := Get(data, ["b"])]), map[]);
    assert StepSpec(env, SchemaAB, 0, s0, data, NoOpts) == Ok(s1);
    assert StepSpec(env, SchemaAB, 1, s1, data, NoOpts) == Ok(s2);
    assert FoldSpec(env, SchemaAB, 2, s2, data, NoOpts) == Ok(s2);
    assert FoldSpec(env, SchemaAB, 1, s1, data, NoOpts) == Ok(s2);
  }

  /** With `previous`, `build([{a: 1}, {b: 2}])` returns two references to
      the record the second element left, `{a: undefined, b: 2}`; without
      it, each element keeps its own record. */
  lemma SharedPreviousAliases(env: Renderers)
    ensures BuildSpec(env, SchemaAB, Arr([ItemA, ItemB]), NoOpts, Some(map[])) ==
      Ok(Arr([Obj(map["a" := Undef, "b" := Num(2)]), Obj(map["a" := Undef, "b" := Num(2)])]))
    ensures BuildSpec(env, SchemaAB, Arr([ItemA, ItemB]), NoOpts, None) ==
      Ok(Arr([Obj(map["a" := Num(1), "b" := Undef]), Obj(map["a" := Undef, "b" := Num(2)])]))
  {
    assert Merge(NoOpts, SchemaAB.options) == NoOpts;
    var items := [ItemA, ItemB];
    var t0: map<string, Value> := map[];
    assert Get(ItemA, ["a"]) == Num(1) && Get(ItemA, ["b"]) == Undef;
    assert Get(ItemB, ["a"]) == Undef && Get(ItemB, ["b"]) == Num(2);
    var t1 := t0["a" := Num(1)]["b" := Undef];
    var t2 := t1["a" := Undef]["b" := Num(2)];
    var u2 := t0["a" := Undef]["b" := Num(2)];
    assert t2 == map["a" := Undef, "b" := Num(2)] == u2;
    assert t1 == map["a" := Num(1), "b" := Undef];
    FoldAB(env, t0, ItemA);
    FoldAB(env, t1, ItemB);
    FoldAB(env, t0, ItemB);
    assert items[1..] == [ItemB];
    assert [ItemB][1..] == [];
    assert BuildSharedSpec(env, SchemaAB, [ItemB], NoOpts, Rec(Obj(t1), map[])) == Ok(Rec(Obj(t2), map[]));
    assert BuildSharedSpec(env, SchemaAB, items, NoOpts, Rec(Obj(t0), map[])) == Ok(Rec(Obj(t2), map[]));
    assert Repeat(Obj(t2), 2) == [Obj(t2), Obj(t2)];
    assert BuildRecordSpec(env, SchemaAB, ItemA, NoOpts, None) == Ok(Obj(t1));
    assert BuildRecordSpec(env, SchemaAB, ItemB, NoOpts, None) == Ok(Obj(u2));
    var onlyB := [ItemB];
    assert |onlyB| == 1 && onlyB[0] == ItemB && onlyB[1..] == [];
    assert BuildEachSpec(env, SchemaAB, [], NoOpts) == Ok([]);
    assert [Obj(u2)] + [] == [Obj(u2)];
    assert BuildEachSpec(env, SchemaAB, onlyB, NoOpts) == Ok([Obj(u2)]);
    assert items[0] == ItemA && items[1..] == onlyB;
    assert [Obj(t1)] + [Obj(u2)] == [Obj(t1), Obj(u2)];
    assert BuildEachSpec(env, SchemaAB, items, NoOpts) == Ok([Obj(t1), Obj(u2)]);
  }

  /** `buildOne` yields one record, or `undefined` when the input's first
      element is an empty array (`buildOne([[]])`). */
  lemma BuildOneShape(env: Renderers, schema: Schema, data: Value, opts: Opts,
                      previous: Option<map<string, Value>>)
    ensures BuildOneSpec(env, schema, data, opts, previous).Ok? ==>
      var v := BuildOneSpec(env, schema, data, opts, previous).value;
      v.Obj? || v == Undef
    ensures (BuildOneSpec(env, schema, data, opts, previous).Ok? &&
             BuildOneSpec(env, schema, data, opts, previous).value == Undef) ==>
      data.Arr? && |data.items| > 0 && data.items[0] == Arr([])
  {
    var input := if data.Arr? then FirstItem(data.items) else data;
    if input.Arr? {
      if previous.Some? {
        BuildArrayShared(env, schema, input.items, opts, previous.value);
      } else {
        BuildArrayInOrder(env, schema, input.items, opts);
      }
    }
  }
}
