/**
 * Three places where the library does something its authors evidently did
 * not intend, each modelled as written, with an input that
 * exhibits the discrepancy, next to the corrected behaviour the rest of
 * the model uses.
 */
module MapperFindings {
  import opened Values
  import opened Errors
  import opened Helpers
  import opened Mapper
  import opened MapperProps

  // ---------------------------------------------------------------------
  // Ancestor pruning after a rename, as written

  /** The first index at or after `i` where `pat` occurs in `s`, or -1. */
  function FindFrom(s: string, pat: string, i: nat): (r: int)
    ensures r == -1 || (i <= r && r + |pat| <= |s| && s[r..r + |pat|] == pat)
    decreases |s| - i
  {
    if i + |pat| > |s| then -1
    else if s[i..i + |pat|] == pat then i
    else FindFrom(s, pat, i + 1)
  }

  /** `String.prototype.replace` with a string pattern and an empty
      replacement: only the first occurrence is removed. */
  function ReplaceFirst(s: string, pat: string): (r: string)
    ensures |r| == |s| || |r| + |pat| == |s|
  {
    var i := FindFrom(s, pat, 0);
    if i < 0 then s else s[..i] + s[i + |pat|..]
  }

  /** The segments in reverse order, as `Array.prototype.reverse` leaves
      them. */
  function Reverse<T>(s: seq<T>): (r: seq<T>)
    ensures |r| == |s|
    ensures forall i :: 0 <= i < |s| ==> r[i] == s[|s| - 1 - i]
    decreases |s|
  {
    if |s| == 0 then [] else Reverse(s[1..]) + [s[0]]
  }

  /** The pruning walk as written: the reversed segments are accumulated
      into a suffix `history`, and the ancestor examined at each step is
      the dotted name with the first occurrence of that suffix removed,
      which need not be the suffix at the end of the name. */
  function PruneStepsAsWritten(t: Value, name: string, parts: seq<string>, i: nat, history: string): Value
    requires i <= |parts|
    decreases |parts| - i
  {
    if i == |parts| then t
    else
      var h := (if i + 1 == |parts| then "" else ".") + parts[i] + history;
      var anc := ReplaceFirst(name, h);
      var t1 := if anc != "" && IsEmpty(Get(t, Split(anc))) then Unset(t, Split(anc)) else t;
      PruneStepsAsWritten(t1, name, parts, i + 1, h)
  }

  function PruneAsWritten(t: Value, name: string): Value {
    PruneStepsAsWritten(t, name, Reverse(Split(name)), 0, "")
  }

  lemma SplitSample()
    ensures Split("a.b.c.b") == ["a", "b", "c", "b"]
    ensures Split("a.c.b") == ["a", "c", "b"]
  {
    SplitJoin(["a", "b", "c", "b"]);
    SplitJoin(["a", "c", "b"]);
    assert Join(["b"]) == "b";
    assert Join(["c", "b"]) == "c.b";
    assert Join(["b", "c", "b"]) == "b.c.b";
  }

  lemma ReplaceSample()
    ensures ReplaceFirst("a.b.c.b", ".b") == "a.c.b"
  {
    assert "a.b.c.b"[0..2][0] == 'a' != ".b"[0];
    assert "a.b.c.b"[1..3] == ".b";
    assert "a.b.c.b"[..1] + "a.b.c.b"[3..] == "a.c.b";
    assert FindFrom("a.b.c.b", ".b", 0) == 1;
  }

  /** The record left by renaming `a.b.c.b` once the old leaf is deleted:
      `{a: {b: {c: {}}, c: {b: 7}}}`. */
  const SampleTree: Value :=
    Obj(map["a" := Obj(map["b" := Obj(map["c" := Obj(map[])]), "c" := Obj(map["b" := Num(7)])])])
  const SampleRenamed: Path := ["a", "b", "c", "b"]
  const SampleOther: Path := ["a", "c", "b"]

  lemma SampleFacts()
    ensures Disjoint(SampleRenamed, SampleOther)
    ensures Get(SampleTree, SampleOther) == Num(7)
    ensures Reverse(SampleRenamed) == ["b", "c", "b", "a"]
  {
    var r := Reverse(SampleRenamed);
    assert r[0] == "b" && r[1] == "c" && r[2] == "b" && r[3] == "a";
    assert r == ["b", "c", "b", "a"];
  }

  lemma SampleFirstStep()
    ensures PruneAsWritten(SampleTree, "a.b.c.b") ==
      PruneStepsAsWritten(Unset(SampleTree, SampleOther), "a.b.c.b", ["b", "c", "b", "a"], 1, ".b")
  {
    SplitSample();
    ReplaceSample();
    SampleFacts();
    var parts := ["b", "c", "b", "a"];
    assert (if 0 + 1 == |parts| then "" else ".") + parts[0] + "" == ".b";
  }

  /** The as-written walk after renaming `a.b.c.b`: the first suffix
      examined is ".b", whose first occurrence in "a.b.c.b" follows "a", so
      the walk examines `a.c.b` instead of `a.b.c`. The number 7 there
      counts as empty for lodash and is deleted although its path parts
      ways with the renamed one; the corrected walk keeps it. */
  lemma PruneAsWrittenDeletesUnrelated()
    ensures Disjoint(SampleRenamed, SampleOther)
    ensures Get(SampleTree, SampleOther) == Num(7)
    ensures Get(PruneAsWritten(SampleTree, "a.b.c.b"), SampleOther) == Undef
    ensures Get(Prune(SampleTree, SampleRenamed, |SampleRenamed| - 1), SampleOther) == Num(7)
  {
    SampleFacts();
    SampleFirstStep();
    GetUnsetSame(SampleTree, SampleOther);
    StepsKeepMissing(Unset(SampleTree, SampleOther), "a.b.c.b", ["b", "c", "b", "a"], 1, ".b", SampleOther);
    PruneKeepsDisjoint(SampleTree, SampleRenamed, |SampleRenamed| - 1, SampleOther);
  }

  /** Every step of the as-written walk only deletes. */
  lemma {:induction false} StepsKeepMissing(t: Value, name: string, parts: seq<string>, i: nat, history: string,
                                            q: seq<string>)
    requires i <= |parts| && Get(t, q) == Undef
    ensures Get(PruneStepsAsWritten(t, name, parts, i, history), q) == Undef
    decreases |parts| - i
  {
    if i < |parts| {
      var h := (if i + 1 == |parts| then "" else ".") + parts[i] + history;
      var anc := ReplaceFirst(name, h);
      if anc != "" && IsEmpty(Get(t, Split(anc))) {
        UnsetKeepsMissing(t, Split(anc), q);
        StepsKeepMissing(Unset(t, Split(anc)), name, parts, i + 1, h, q);
      } else {
        StepsKeepMissing(t, name, parts, i + 1, h, q);
      }
    }
  }

  // ---------------------------------------------------------------------
  // Options handed to a nested build, as written

  const LeakAttr: Attr := Attr("x", "x", true)
  const LeakSchema: Schema := Schema(NoOpts, [Property(Scalar, LeakAttr, NoOpts)])
  const LeakOptions: Opts := NoOpts.(failOnNotExistsAttribute := Some(true), rename := Some("kid"))
  const LeakInput: Value := Obj(map["x" := Num(1)])

  lemma LeakNames()
    ensures NormalizeAttributeName("kid") == "kid" && Split("kid") == ["kid"]
    ensures Split("x") == ["x"]
  {
    assert '?' !in "kid" by {
      assert "kid"[0] != '?' && "kid"[1] != '?' && "kid"[2] != '?';
    }
    SplitPlain("x");
    SplitPlain("kid");
  }

  /** The nested attribute `x` under the parent's whole options. */
  lemma LeakAttributeAsWritten(env: Renderers)
    ensures AttributeSpec(env, Rec(Obj(map[]), map[]), LeakInput, LeakAttr, Merge(NoOpts, Merge(LeakOptions, NoOpts))) ==
      Ok(Rec(Obj(map["kid" := Num(1)]), map[]))
  {
    LeakNames();
    var m := Merge(NoOpts, Merge(LeakOptions, NoOpts));
    assert m == LeakOptions;
    var s1 := WriteSpec(env, Rec(Obj(map[]), map[]), ["x"], Num(1));
    assert s1 == Rec(Obj(map["x" := Num(1)]), map[]);
    assert RenameApplies(m, LeakAttr);
    var s2 := WriteSpec(env, s1, ["kid"], Num(1));
    assert s2 == Rec(Obj(map["x" := Num(1), "kid" := Num(1)]), map[]);
    assert "x" !in ["kid"];
    assert Unset(s2.tree, ["x"]) == Obj(map["kid" := Num(1)]);
    assert ApplyAsSpec(env, s1, LeakAttr, "kid") == (Rec(Obj(map["kid" := Num(1)]), map[]), Attr("kid", "kid", true));
  }

  /** The nested attribute `x` under the fail-fast flag alone. */
  lemma LeakAttributeCorrected(env: Renderers)
    ensures AttributeSpec(env, Rec(Obj(map[]), map[]), LeakInput, LeakAttr, Merge(NoOpts, Merge(NestedOptions(LeakOptions), NoOpts))) ==
      Ok(Rec(Obj(map["x" := Num(1)]), map[]))
  {
    LeakNames();
  }

  /** A `one("child")` attribute renamed with `.as("kid")`: handing the
      attribute's whole options to the nested build renames the nested
      schema's own attribute `x` to `kid` as well; handing down only the
      fail-fast flag keeps `x`. */
  lemma NestedOptionsLeakRename(env: Renderers)
    ensures BuildSpec(env, LeakSchema, LeakInput, NestedOptionsAsWritten(LeakOptions), None) == Ok(Obj(map["kid" := Num(1)]))
    ensures BuildSpec(env, LeakSchema, LeakInput, NestedOptions(LeakOptions), None) == Ok(Obj(map["x" := Num(1)]))
  {
    var st := Rec(Obj(map[]), map[]);
    var effW := Merge(NestedOptionsAsWritten(LeakOptions), NoOpts);
    LeakAttributeAsWritten(env);
    assert StepSpec(env, LeakSchema, 0, st, LeakInput, effW) == Ok(Rec(Obj(map["kid" := Num(1)]), map[]));
    assert FoldSpec(env, LeakSchema, 0, st, LeakInput, effW) == Ok(Rec(Obj(map["kid" := Num(1)]), map[]));
    var effC := Merge(NestedOptions(LeakOptions), NoOpts);
    LeakAttributeCorrected(env);
    assert StepSpec(env, LeakSchema, 0, st, LeakInput, effC) == Ok(Rec(Obj(map["x" := Num(1)]), map[]));
    assert FoldSpec(env, LeakSchema, 0, st, LeakInput, effC) == Ok(Rec(Obj(map["x" := Num(1)]), map[]));
  }

  // ---------------------------------------------------------------------
  // The cursor's `model`, as written

  /** `model` as written: it calls `buildSync` on the mapper, which the
      mapper class does not define, so the call throws before anything is
      built, whatever the selection. */
  function CursorModelAsWritten(sel: Value): Result<Value> {
    Err(TypeError("model.buildSync is not a function"))
  }

  /** A selection the intended build turns into a record, an object through
      the empty schema, makes the as-written `model` throw instead. */
  lemma CursorModelAsWrittenThrows(env: Renderers, sel: map<string, Value>)
    ensures CursorModelAsWritten(Obj(sel)) == Err(TypeError("model.buildSync is not a function"))
    ensures BuildSpec(env, Schema(NoOpts, []), Obj(sel), NoOpts, None) == Ok(Obj(map[]))
  {
  }
}
