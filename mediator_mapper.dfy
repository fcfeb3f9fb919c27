/**
 * The mediator cursor: a root document and a current selection that
 * `select`, `where`/`match`, `model` and `take` narrow step by step, and
 * that `get`, `first`, `last` and `value` read before returning to the
 * root.
 */
module Mediator {
  import opened Values
  import opened Errors
  import opened Filtering
  import Mapper

  /** The first argument of `where`: a key path, or a whole conditions
      object. */
  datatype WhereKey = Key(name: string) | Conditions(es: seq<Entry>)

  /** The conditions object `where(key, condition)` filters with. */
  function WhereEntries(k: WhereKey, cond: Cond): seq<Entry> {
    match k
    case Key(name) => [Entry(name, cond)]
    case Conditions(es) => es
  }

  /** The head of a filtered one-element list: the item when it matches,
      `undefined` otherwise. */
  function HeadOrUndef(items: seq<Value>): Value {
    if |items| == 0 then Undef else items[0]
  }

  /** How `where` narrows a truthy selection: an array keeps its matching
      elements, anything else is kept when it matches and becomes
      `undefined` when it does not. */
  function Narrow(sel: Value, es: seq<Entry>): (r: Result<Value>)
    ensures sel.Arr? ==> (r.Ok? <==> forall i :: 0 <= i < |sel.items| ==> MatchAll(sel.items[i], es, true).Ok?)
    ensures sel.Arr? && r.Ok? ==> r.value.Arr? && Subsequence(r.value.items, sel.items)
    ensures sel.Arr? && r.Ok? ==> forall x :: x in r.value.items <==> x in sel.items && Matches(x, es)
    ensures sel.Arr? && r.Ok? ==>
      forall x :: multiset(r.value.items)[x] == (if Matches(x, es) then multiset(sel.items)[x] else 0)
    ensures !sel.Arr? ==> (r.Ok? <==> MatchAll(sel, es, true).Ok?)
    ensures !sel.Arr? && r.Ok? ==> r.value == (if Matches(sel, es) then sel else Undef)
  {
    if sel.Arr? then
      FilterKeepsMatching(sel.items, es);
      match Filter(sel.items, es)
      case Err(e) => Err(e)
      case Ok(kept) => Ok(Arr(kept))
    else
      FilterKeepsMatching([sel], es);
      match Filter([sel], es)
      case Err(e) => Err(e)
      case Ok(kept) => Ok(HeadOrUndef(kept))
  }

  /** The outcome of `where(k, cond)` on a selection: the result, the new
      selection and the new pending key. */
  function WhereSpec(sel: Value, k: WhereKey, cond: Cond): (r: (Result<()>, Value, Option<string>))
    ensures k.Key? && cond == Leaf(Undef) ==> r == (Ok(()), sel, Some(k.name))
    ensures !(k.Key? && cond == Leaf(Undef)) ==> r.2 == None
    ensures !(k.Key? && cond == Leaf(Undef)) && !Truthy(sel) ==> r == (Ok(()), sel, None)
    ensures r.0.Err? ==> r.1 == sel
  {
    if k.Key? && cond == Leaf(Undef) then (Ok(()), sel, Some(k.name))
    else if !Truthy(sel) then (Ok(()), sel, None)
    else
      match Narrow(sel, WhereEntries(k, cond))
      case Err(e) => (Err(e), sel, None)
      case Ok(v) => (Ok(()), v, None)
  }

  /** The count `_.take` and `_.takeRight` use: a missing count is 1. */
  function TakeCount(n: Option<int>): int {
    if n.None? then 1 else n.value
  }

  /** The first `n` elements, or the last `n` with `ending`; a missing count
      takes one, a negative count takes nothing and a count past the end
      takes everything. */
  function TakeItems(items: seq<Value>, n: Option<int>, ending: bool): (r: seq<Value>)
    ensures n.None? ==> |r| == (if |items| == 0 then 0 else 1)
    ensures n.Some? ==> |r| == (if n.value < 0 then 0 else if n.value > |items| then |items| else n.value)
    ensures !ending ==> r == items[..|r|]
    ensures ending ==> r == items[|items| - |r|..]
  {
    var c := TakeCount(n);
    var k := if c < 0 then 0 else if c > |items| then |items| else c;
    if ending then items[|items| - k..] else items[..k]
  }

  /** `lastProperty[index]` on an array selection, or the selection itself. */
  function Pick(sel: Value, index: int): (r: Value)
    ensures sel.Arr? && 0 <= index < |sel.items| ==> r == sel.items[index]
    ensures sel.Arr? && !(0 <= index < |sel.items|) ==> r == Undef
    ensures !sel.Arr? ==> r == sel
  {
    if !sel.Arr? then sel
    else if 0 <= index < |sel.items| then sel.items[index]
    else Undef
  }

  /** `_.last` on an array selection, or the selection itself. */
  function PickLast(sel: Value): (r: Value)
    ensures sel.Arr? && |sel.items| > 0 ==> r == sel.items[|sel.items| - 1]
    ensures sel.Arr? && |sel.items| == 0 ==> r == Undef
    ensures !sel.Arr? ==> r == sel
  {
    if sel.Arr? then Pick(sel, |sel.items| - 1) else sel
  }

  /** What `value(key, def)` returns: the selection, or with a non-empty
      key the value at that path of it, `def` standing in for `undefined`. */
  function ValueOf(sel: Value, key: string, def: Value): (r: Value)
    ensures key == "" ==> r == sel
    ensures key != "" && Get(sel, Split(key)) != Undef ==> r == Get(sel, Split(key))
    ensures key != "" && Get(sel, Split(key)) == Undef ==> r == def
  {
    if key != "" then GetOr(sel, Split(key), def) else sel
  }

  /** A second `where` with the same conditions leaves the selection the
      first one produced. */
  lemma WhereIdempotent(sel: Value, k: WhereKey, cond: Cond)
    requires !(k.Key? && cond == Leaf(Undef))
    requires WhereSpec(sel, k, cond).0.Ok?
    ensures WhereSpec(WhereSpec(sel, k, cond).1, k, cond) == (Ok(()), WhereSpec(sel, k, cond).1, None)
  {
    var es := WhereEntries(k, cond);
    if Truthy(sel) {
      if sel.Arr? {
        FilterIdempotent(sel.items, es);
      } else {
        FilterKeepsMatching([sel], es);
        if Matches(sel, es) {
          assert Narrow(sel, es) == Ok(sel);
        } else {
          assert Narrow(sel, es) == Ok(Undef);
        }
      }
    }
  }

  /** Taking `m` of the first (or last) `n` takes as many as the smaller
      count allows, a missing count standing for one. */
  lemma TakeTwice(items: seq<Value>, n: Option<int>, m: Option<int>, ending: bool)
    ensures TakeItems(TakeItems(items, n, ending), m, ending) ==
      TakeItems(items, Some(if TakeCount(m) < TakeCount(n) then TakeCount(m) else TakeCount(n)), ending)
  {
  }

  class MediatorMapper {
    /** The root document. */
    const data: Value
    /** The current selection. */
    var lastProperty: Value
    /** The key of a `where` still waiting for its `match`. */
    var lastWhere: Option<string>

    constructor (data: Value)
      ensures this.data == data && lastProperty == Null && lastWhere == None
    {
      this.data := data;
      lastProperty := Null;
      lastWhere := None;
    }

    /** `select(key)`: the value at `key` in the root, whatever was
        selected before. */
    method Select(key: string)
      modifies this
      ensures lastProperty == Values.Get(data, Split(key)) && lastWhere == old(lastWhere)
    {
      lastProperty := data;
      lastProperty := Values.Get(lastProperty, Split(key));
    }

    /** `where(key, condition)`. */
    method Where(k: WhereKey, cond: Cond) returns (r: Result<()>)
      modifies this
      ensures (r, lastProperty, lastWhere) == WhereSpec(old(lastProperty), k, cond)
    {
      var es := WhereEntries(k, cond);
      lastWhere := None;
      if k.Key? && cond == Leaf(Undef) {
        lastWhere := Some(k.name);
        return Ok(());
      }
      if !Truthy(lastProperty) {
        return Ok(());
      }
      var narrowed := Narrow(lastProperty, es);
      if narrowed.Err? {
        return Err(narrowed.error);
      }
      lastProperty := narrowed.value;
      r := Ok(());
    }

    /** `match(condition)`: the pending `where` completed with its
        condition; without a pending key it throws. */
    method Match(cond: Cond) returns (r: Result<()>)
      modifies this
      ensures old(lastWhere).None? || old(lastWhere) == Some("") ==>
        r == Err(DanglingMatch) && lastProperty == old(lastProperty) && lastWhere == old(lastWhere)
      ensures old(lastWhere).Some? && old(lastWhere) != Some("") ==>
        (r, lastProperty, lastWhere) == WhereSpec(old(lastProperty), Key(old(lastWhere).value), cond)
    {
      if lastWhere.None? || lastWhere == Some("") {
        return Err(DanglingMatch);
      }
      r := Where(Key(lastWhere.value), cond);
    }

    /** `model(mapper, options, previous)`: the selection built with the
        mapper's schema. */
    method Model(env: Mapper.Renderers, schema: Mapper.Schema, opts: Mapper.Opts,
                 previous: Option<map<string, Value>>) returns (r: Result<()>)
      modifies this
      ensures var built := Mapper.BuildSpec(env, schema, old(lastProperty), opts, previous);
        (built.Err? ==> r == Err(built.error) && lastProperty == old(lastProperty)) &&
        (built.Ok? ==> r == Ok(()) && lastProperty == built.value)
      ensures lastWhere == old(lastWhere)
    {
      var built := Mapper.Build(env, schema, lastProperty, opts, previous);
      if built.Err? {
        return Err(built.error);
      }
      lastProperty := built.value;
      r := Ok(());
    }

    /** `take(n, ending)`: an array selection keeps its first (or last)
        `n` elements, one when `n` is not given; anything else stays. */
    method Take(n: Option<int>, ending: bool)
      modifies this
      ensures old(lastProperty).Arr? ==> lastProperty == Arr(TakeItems(old(lastProperty).items, n, ending))
      ensures !old(lastProperty).Arr? ==> lastProperty == old(lastProperty)
      ensures lastWhere == old(lastWhere)
    {
      if lastProperty.Arr? {
        lastProperty := Arr(TakeItems(lastProperty.items, n, ending));
      }
    }

    /** `value(key, def)`: read the selection, then return to the root. */
    method Value(key: string, def: Value) returns (v: Value)
      modifies this
      ensures v == ValueOf(old(lastProperty), key, def)
      ensures lastProperty == data && lastWhere == old(lastWhere)
    {
      v := ValueOf(lastProperty, key, def);
      lastProperty := data;
    }

    /** `get(index, key, def)`: narrow an array selection to one element,
        then `value`. */
    method Get(index: int, key: string, def: Value) returns (v: Value)
      modifies this
      ensures v == ValueOf(Pick(old(lastProperty), index), key, def)
      ensures lastProperty == data && lastWhere == old(lastWhere)
    {
      lastProperty := Pick(lastProperty, index);
      v := Value(key, def);
    }

    /** `first(key, def)` (also `head`). */
    method First(key: string, def: Value) returns (v: Value)
      modifies this
      ensures v == ValueOf(Pick(old(lastProperty), 0), key, def)
      ensures lastProperty == data && lastWhere == old(lastWhere)
    {
      lastProperty := Pick(lastProperty, 0);
      v := Value(key, def);
    }

    /** `last(key, def)`. */
    method Last(key: string, def: Value) returns (v: Value)
      modifies this
      ensures v == ValueOf(PickLast(old(lastProperty)), key, def)
      ensures lastProperty == data && lastWhere == old(lastWhere)
    {
      lastProperty := PickLast(lastProperty);
      v := Value(key, def);
    }
  }
}
