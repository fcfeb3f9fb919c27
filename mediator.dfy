/**
 * The mediator's filtering: the comparator table, `_match` (a conjunction
 * of conditions over an item) and `_filter` (the matching items in input
 * order).
 */
module Filtering {
  import opened Values
  import opened Errors

  // ---------------------------------------------------------------------
  // Comparators

  /** The names of the comparator table, in declaration order. */
  const ComparatorNames: seq<string> :=
    [">", "<", ">=", "<=", "==", "===", "!=", "!==", "eq", "notEq",
     "in", "notIn", "startsWith", "endsWith", "match", "is"]

  /** The members every object literal inherits from `Object.prototype`:
      looking an operator name up in the comparator table finds these
      too. */
  const InheritedNames: set<string> :=
    {"constructor", "toString", "toLocaleString", "valueOf", "hasOwnProperty",
     "isPrototypeOf", "propertyIsEnumerable", "__defineGetter__", "__defineSetter__",
     "__lookupGetter__", "__lookupSetter__", "__proto__"}

  /** An inherited member called as a comparator, `fn(a, b)` with no
      receiver (the module is strict): `toString` returns a non-empty tag
      and `constructor` (`Object`) an object, both truthy; `isPrototypeOf`
      answers false for a primitive argument before it looks at its
      receiver; `__proto__` is an object, not a function; every other
      member converts the missing receiver to an object and throws. */
  function InheritedCall(op: string, a: Value): (r: Result<bool>)
    ensures r.Ok? <==> op == "toString" || op == "constructor" || (op == "isPrototypeOf" && IsScalar(a))
    ensures r.Ok? ==> r.value == (op != "isPrototypeOf")
    ensures r.Err? ==> r.error.TypeError?
  {
    if op == "toString" || op == "constructor" then Ok(true)
    else if op == "isPrototypeOf" && IsScalar(a) then Ok(false)
    else if op == "__proto__" then Err(TypeError("fn is not a function"))
    else Err(TypeError("Cannot convert undefined or null to object"))
  }

  /** The number a relational comparison converts a value to: numbers as
      they are, booleans as 0 and 1, `null` as 0; `undefined` gives NaN. */
  function NumericValue(v: Value): Option<int> {
    match v
    case Num(n) => Some(n)
    case Bool(b) => Some(if b then 1 else 0)
    case Null => Some(0)
    case _ => None
  }

  /** Code-unit order of strings. */
  predicate StrLess(s: string, t: string)
    decreases |s|
  {
    |t| > 0 && (|s| == 0 || s[0] < t[0] || (s[0] == t[0] && StrLess(s[1..], t[1..])))
  }

  /** The two operands compare without a NaN: both strings, or both
      numeric. */
  predicate Comparable(a: Value, b: Value) {
    (a.Str? && b.Str?) || (!a.Str? && !b.Str? && NumericValue(a).Some? && NumericValue(b).Some?)
  }

  /** `a < b`. */
  predicate Less(a: Value, b: Value) {
    Comparable(a, b) &&
    if a.Str? then StrLess(a.s, b.s) else NumericValue(a).value < NumericValue(b).value
  }

  /** `a == b` on the modelled values: strict equality, `null` and
      `undefined` equal to each other, and numbers and booleans compared
      by their numeric value. */
  predicate LooseEq(a: Value, b: Value) {
    a == b ||
    ((a == Undef || a == Null) && (b == Undef || b == Null)) ||
    ((a.Num? || a.Bool?) && (b.Num? || b.Bool?) && NumericValue(a) == NumericValue(b))
  }

  predicate OccursAt(hay: string, needle: string, i: int) {
    0 <= i <= |hay| - |needle| && hay[i..i + |needle|] == needle
  }

  /** `hay.includes(needle)` on strings. */
  predicate Includes(hay: string, needle: string) {
    exists i :: 0 <= i <= |hay| - |needle| && OccursAt(hay, needle, i)
  }

  predicate StartsWith(s: string, t: string) {
    |t| <= |s| && s[..|t|] == t
  }

  predicate EndsWith(s: string, t: string) {
    |t| <= |s| && s[|s| - |t|..] == t
  }

  function UpperFirst(s: string): string {
    if |s| > 0 && 'a' <= s[0] <= 'z' then [(s[0] as int - 32) as char] + s[1..] else s
  }

  /** lodash's `toString`, which `_.upperFirst` applies first: `null` and
      `undefined` become the empty string. */
  function LodashString(b: Value): (r: string)
    ensures b == Undef || b == Null ==> r == ""
    ensures b.Str? ==> r == b.s
  {
    if b == Undef || b == Null then "" else ToString(b)
  }

  /** The lodash `is*` predicates the `is` comparator reaches for the
      modelled values, and `isPrototypeOf`, which lodash inherits from
      `Object.prototype` and which answers false for every document value;
      any other name is not a function and throws. */
  function IsCheck(name: string, a: Value): Option<bool> {
    match UpperFirst(name)
    case "String" => Some(a.Str?)
    case "Number" => Some(a.Num?)
    case "Integer" => Some(a.Num?)
    case "Boolean" => Some(a.Bool?)
    case "Null" => Some(a == Null)
    case "Undefined" => Some(a == Undef)
    case "Nil" => Some(a == Undef || a == Null)
    case "Array" => Some(a.Arr?)
    case "Object" => Some(a.Arr? || a.Obj?)
    case "PlainObject" => Some(a.Obj?)
    case "Empty" => Some(IsEmpty(a))
    case "PrototypeOf" => Some(false)
    case _ => None
  }

  /** `comparisons[op](a, b)`, where `b` is a non-object condition: a
      name inherited from `Object.prototype` is found too, any other
      unknown name fails with the list of valid ones, and calling a string
      method on a non-string expected value throws. */
  function Compare(op: string, a: Value, b: Scalar): (r: Result<bool>)
    ensures (r.Err? && r.error.UnknownComparator?) <==> op !in ComparatorNames && op !in InheritedNames
    ensures r.Err? && r.error.UnknownComparator? ==> r.error == UnknownComparator(op, ComparatorNames)
    ensures (op == "startsWith" || op == "endsWith" || op == "match") && !a.Str? ==> r == Ok(false)
    ensures op == "===" ==> r == Ok(a == b)
  {
    match op
    case ">" => Ok(Less(b, a))
    case "<" => Ok(Less(a, b))
    case ">=" => Ok(Comparable(a, b) && !Less(a, b))
    case "<=" => Ok(Comparable(a, b) && !Less(b, a))
    case "==" => Ok(LooseEq(a, b))
    case "===" => Ok(a == b)
    case "!=" => Ok(!LooseEq(a, b))
    case "!==" => Ok(a != b)
    case "eq" => Ok(a == b)
    case "notEq" => Ok(a != b)
    case "in" => if b.Str? then Ok(Includes(b.s, ToString(a))) else Err(TypeError("b.includes is not a function"))
    case "notIn" => if b.Str? then Ok(!Includes(b.s, ToString(a))) else Err(TypeError("b.includes is not a function"))
    case "startsWith" => Ok(a.Str? && StartsWith(a.s, ToString(b)))
    case "endsWith" => Ok(a.Str? && EndsWith(a.s, ToString(b)))
    case "match" => if a.Str? then Err(TypeError("b.test is not a function")) else Ok(false)
    case "is" =>
      var name := LodashString(b);
      var c := IsCheck(name, a);
      if c.Some? then Ok(c.value) else Err(TypeError("_[is" + UpperFirst(name) + "] is not a function"))
    case _ =>
      assert op !in ComparatorNames;
      if op in InheritedNames then InheritedCall(op, a) else Err(UnknownComparator(op, ComparatorNames))
  }

  /** None of the inherited names is in the comparator table, so looking
      one up runs the inherited member. */
  lemma InheritedComparators(op: string, a: Value, b: Scalar)
    requires op in InheritedNames
    ensures Compare(op, a, b) == InheritedCall(op, a)
  {
  }

  /** `is` with a `null` or `undefined` expected type looks up `_.is`,
      which is not a function, and throws. */
  lemma IsNilThrows(a: Value, b: Scalar)
    requires b == Undef || b == Null
    ensures Compare("is", a, b).Err? && Compare("is", a, b).error.TypeError?
  {
  }

  /** `eq` and `notEq` are `===` and `!==` under other names. */
  lemma EqAliases(a: Value, b: Scalar)
    ensures Compare("eq", a, b) == Compare("===", a, b)
    ensures Compare("notEq", a, b) == Compare("!==", a, b)
    ensures Compare("!==", a, b) == Ok(a != b)
  {
  }

  /** `in` and `notIn` agree on when they throw and otherwise give
      opposite answers. */
  lemma InNotInComplement(a: Value, b: Scalar)
    ensures Compare("in", a, b).Ok? <==> Compare("notIn", a, b).Ok?
    ensures Compare("in", a, b).Ok? ==> Compare("notIn", a, b).value == !Compare("in", a, b).value
  {
  }

  /** Strict order on strings: irreflexive, and a string is below all its
      proper extensions. */
  lemma {:induction false} StrLessIrreflexive(s: string)
    ensures !StrLess(s, s)
    decreases |s|
  {
    if |s| > 0 {
      StrLessIrreflexive(s[1..]);
    }
  }

  lemma {:induction false} StrLessAsymmetric(s: string, t: string)
    requires StrLess(s, t)
    ensures !StrLess(t, s)
    decreases |s|
  {
    if |s| > 0 && s[0] == t[0] {
      StrLessAsymmetric(s[1..], t[1..]);
    }
  }

  /** Of `<`, `>` and `===`, at most one holds, and on comparable operands
      `<=` is `<` or `===`. */
  lemma Trichotomy(a: Scalar, b: Scalar)
    ensures !(Less(a, b) && Less(b, a))
    ensures a == b ==> !Less(a, b)
    ensures Comparable(a, b) && !a.Str? ==> (Compare("<=", a, b) == Ok(true) <==> Less(a, b) || NumericValue(a) == NumericValue(b))
  {
    if a.Str? && b.Str? {
      if StrLess(a.s, b.s) {
        StrLessAsymmetric(a.s, b.s);
      }
      StrLessIrreflexive(a.s);
    }
  }

  // ---------------------------------------------------------------------
  // Conditions

  /** A `where` condition: a non-object value, or an object whose entries
      are read in order. Functions and regular expressions are objects
      without enumerable keys, so they are `Entries([])`; an array is an
      object keyed "0", "1", .... */
  datatype Cond = Leaf(v: Scalar) | Entries(es: seq<Entry>)
  datatype Entry = Entry(key: string, cond: Cond)

  /** The condition an array value stands for. */
  function ArrayCond(items: seq<Cond>): (c: Cond)
    ensures c.Entries? && |c.es| == |items|
    ensures forall i :: 0 <= i < |items| ==> c.es[i].cond == items[i]
  {
    Entries(seq(|items|, i requires 0 <= i < |items| => Entry(NatToString(i), items[i])))
  }

  /** `_match(item, where, top ? '===' : false)`: every entry must hold, in
      order, stopping at the first that fails or throws. At the top level
      the value is read at the entry's key path and a non-object condition
      is compared with `===`; below it the value is the item itself and
      the key names the comparator. */
  function MatchAll(item: Value, es: seq<Entry>, top: bool): Result<bool>
    decreases es
  {
    if |es| == 0 then Ok(true)
    else
      match MatchOne(item, es[0], top)
      case Err(e) => Err(e)
      case Ok(b) => if b then MatchAll(item, es[1..], top) else Ok(false)
  }

  function MatchOne(item: Value, e: Entry, top: bool): Result<bool>
    decreases e
  {
    var value := if top then Get(item, Split(e.key)) else item;
    match e.cond
    case Entries(nested) => MatchAll(value, nested, false)
    case Leaf(b) => Compare(if top then "===" else e.key, value, b)
  }

  /** `_filter(items, where)`: the predicate runs on every item in order,
      and the first thrown error ends the filter. */
  function Filter(items: seq<Value>, es: seq<Entry>): (r: Result<seq<Value>>)
    ensures r.Ok? ==> |r.value| <= |items|
    decreases |items|
  {
    if |items| == 0 then Ok([])
    else
      match MatchAll(items[0], es, true)
      case Err(e) => Err(e)
      case Ok(b) =>
        match Filter(items[1..], es)
        case Err(e) => Err(e)
        case Ok(rest) => Ok(if b then [items[0]] + rest else rest)
  }

  /** `a` keeps some of the elements of `b`, in the same order. */
  predicate Subsequence<T(==)>(a: seq<T>, b: seq<T>)
    decreases |b|
  {
    |a| == 0 || (|b| > 0 && ((a[0] == b[0] && Subsequence(a[1..], b[1..])) || Subsequence(a, b[1..])))
  }

  /** An item matches a `where` when every entry holds without an error. */
  predicate Matches(item: Value, es: seq<Entry>) {
    MatchAll(item, es, true) == Ok(true)
  }

  /** The filter succeeds exactly when no item's match throws, and then
      keeps exactly the matching items, in input order. */
  lemma {:induction false} FilterKeepsMatching(items: seq<Value>, es: seq<Entry>)
    ensures Filter(items, es).Ok? <==> forall i :: 0 <= i < |items| ==> MatchAll(items[i], es, true).Ok?
    ensures Filter(items, es).Ok? ==> Subsequence(Filter(items, es).value, items)
    ensures Filter(items, es).Ok? ==> forall x :: x in Filter(items, es).value <==> x in items && Matches(x, es)
    ensures Filter(items, es).Ok? ==>
      forall x :: multiset(Filter(items, es).value)[x] == (if Matches(x, es) then multiset(items)[x] else 0)
    decreases |items|
  {
    if |items| > 0 {
      FilterKeepsMatching(items[1..], es);
      assert forall i :: 1 <= i < |items| ==> items[1..][i - 1] == items[i];
      assert items == [items[0]] + items[1..];
      assert multiset(items) == multiset{items[0]} + multiset(items[1..]);
      var r := Filter(items, es);
      if r.Ok? {
        var rest := Filter(items[1..], es).value;
        if Matches(items[0], es) {
          assert r.value == [items[0]] + rest;
          assert r.value[1..] == rest;
          assert multiset(r.value) == multiset{items[0]} + multiset(rest);
        } else {
          assert r.value == rest;
        }
      }
    }
  }

  /** Every entry holding is the meaning of a match: an empty `where`
      matches everything, and a filter with it keeps every item. */
  lemma {:induction false} EmptyWhereKeepsAll(items: seq<Value>)
    ensures Filter(items, []) == Ok(items)
    decreases |items|
  {
    if |items| > 0 {
      EmptyWhereKeepsAll(items[1..]);
      assert [items[0]] + items[1..] == items;
    }
  }

  /** Filtering what a filter kept keeps all of it. */
  lemma {:induction false} FilterIdempotent(items: seq<Value>, es: seq<Entry>)
    requires Filter(items, es).Ok?
    ensures Filter(Filter(items, es).value, es) == Filter(items, es)
    decreases |items|
  {
    if |items| > 0 {
      FilterIdempotent(items[1..], es);
      var rest := Filter(items[1..], es).value;
      if Matches(items[0], es) {
        var kept := [items[0]] + rest;
        assert kept[0] == items[0] && kept[1..] == rest;
      }
    }
  }

  /** A `where` of one entry is that entry's outcome. */
  lemma MatchSingle(item: Value, e: Entry, top: bool)
    ensures MatchAll(item, [e], top) == MatchOne(item, e, top)
  {
    assert [e][1..] == [];
  }

  /** A top-level non-object condition compares the value at the key path
      with `===`. */
  lemma TopLevelScalarIsStrict(item: Value, key: string, b: Scalar)
    ensures Matches(item, [Entry(key, Leaf(b))]) <==> Get(item, Split(key)) == b
  {
    MatchSingle(item, Entry(key, Leaf(b)), true);
  }

  /** Below the top level every key is a comparator applied to the same
      value; a name inherited from `Object.prototype` runs that member; any
      other key outside the table throws and lists the valid names. */
  lemma NestedKeysAreComparators(item: Value, key: string, op: string, b: Scalar)
    ensures MatchAll(item, [Entry(key, Entries([Entry(op, Leaf(b))]))], true) ==
      (match Compare(op, Get(item, Split(key)), b)
       case Err(e) => Err(e)
       case Ok(x) => Ok(x))
    ensures op !in ComparatorNames && op !in InheritedNames ==>
      MatchAll(item, [Entry(key, Entries([Entry(op, Leaf(b))]))], true) == Err(UnknownComparator(op, ComparatorNames))
    ensures op in InheritedNames ==>
      MatchAll(item, [Entry(key, Entries([Entry(op, Leaf(b))]))], true) == InheritedCall(op, Get(item, Split(key)))
  {
    MatchSingle(item, Entry(key, Entries([Entry(op, Leaf(b))])), true);
    MatchSingle(Get(item, Split(key)), Entry(op, Leaf(b)), false);
    if op in InheritedNames {
      InheritedComparators(op, Get(item, Split(key)), b);
    }
  }

  /** An array under `in` is read as an object keyed "0", "1", ..., so its
      first key is taken for a comparator name and the match throws. */
  lemma ArrayOperandThrows(item: Value, key: string, b: Scalar, more: seq<Cond>)
    ensures MatchAll(item, [Entry(key, Entries([Entry("in", ArrayCond([Leaf(b)] + more))]))], true) ==
      Err(UnknownComparator("0", ComparatorNames))
  {
    var c := ArrayCond([Leaf(b)] + more);
    assert c.es[0] == Entry("0", Leaf(b));
    assert "0" !in ComparatorNames && "0" !in InheritedNames;
    var v := Get(item, Split(key));
    MatchSingle(item, Entry(key, Entries([Entry("in", c)])), true);
    MatchSingle(v, Entry("in", c), false);
    assert MatchOne(v, c.es[0], false) == Err(UnknownComparator("0", ComparatorNames));
  }

  /** A function or regular expression condition has no entries, so it
      matches every value. */
  lemma OpaqueConditionMatches(item: Value, key: string)
    ensures Matches(item, [Entry(key, Entries([]))])
  {
    MatchSingle(item, Entry(key, Entries([])), true);
  }
}
