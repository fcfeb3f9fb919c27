/**
 * The documents the mapper reads and writes: JSON-like values, dotted
 * attribute paths, and the lodash primitives the library uses on them
 * (`_.get`, `_.set`, `_.unset`, `_.isEmpty`), together with JavaScript
 * truthiness and string conversion.
 */
module Values {

  /** A document value. `Undef` is JavaScript's `undefined`; an object may
      hold a key whose value is `Undef` (lodash `_.set(o, k, undefined)`
      creates the key). Numbers are integers in this model. */
  datatype Value =
    | Undef
    | Null
    | Bool(b: bool)
    | Num(n: int)
    | Str(s: string)
    | Arr(items: seq<Value>)
    | Obj(fields: map<string, Value>)

  /** An optional setting; `None` is an absent (or `undefined`) key. */
  datatype Option<T> = None | Some(value: T)

  /** A parsed path: the segments of a dotted string. Splitting a string
      never yields an empty list, so neither does this type. */
  type Path = p: seq<string> | |p| > 0 witness [""]

  /** JavaScript truthiness of a value. */
  predicate Truthy(v: Value) {
    match v
    case Undef => false
    case Null => false
    case Bool(b) => b
    case Num(n) => n != 0
    case Str(s) => s != ""
    case _ => true
  }

  /** A value that is not a container (the operand kinds `===` can meet
      in a filter condition). */
  predicate IsScalar(v: Value) {
    !v.Arr? && !v.Obj?
  }

  type Scalar = v: Value | IsScalar(v) witness Undef

  /** lodash `_.isEmpty`: containers and strings by size; `undefined`,
      `null`, booleans and numbers always count as empty. */
  predicate IsEmpty(v: Value) {
    match v
    case Str(s) => |s| == 0
    case Arr(items) => |items| == 0
    case Obj(m) => |m| == 0
    case _ => true
  }

  // ---------------------------------------------------------------------
  // Dotted paths

  /** `String.prototype.split('.')`: every dot separates two segments. */
  function Split(s: string): (p: Path)
    ensures forall i :: 0 <= i < |p| ==> '.' !in p[i]
    decreases |s|
  {
    if |s| == 0 then [""]
    else
      var rest := Split(s[1..]);
      if s[0] == '.' then [""] + rest
      else [[s[0]] + rest[0]] + rest[1..]
  }

  /** `Array.prototype.join('.')`. */
  function Join(p: Path): string
    decreases |p|
  {
    if |p| == 1 then p[0] else p[0] + "." + Join(p[1..])
  }

  /** Joining the segments of a split string gives the string back. */
  lemma {:induction false} JoinSplit(s: string)
    ensures Join(Split(s)) == s
    decreases |s|
  {
    if |s| > 0 {
      var rest := Split(s[1..]);
      JoinSplit(s[1..]);
      if s[0] == '.' {
        assert Split(s) == [""] + rest;
        assert ([""] + rest)[1..] == rest;
      } else {
        var p := [[s[0]] + rest[0]] + rest[1..];
        assert Split(s) == p;
        if |rest| > 1 {
          assert p[1..] == rest[1..];
        }
        assert s == [s[0]] + s[1..];
      }
    }
  }

  /** A segment without dots is split to itself. */
  lemma {:induction false} SplitPlain(w: string)
    requires '.' !in w
    ensures Split(w) == [w]
    decreases |w|
  {
    if |w| > 0 {
      assert '.' !in w[1..] by {
        forall i | 0 <= i < |w[1..]| ensures w[1..][i] != '.' {
          assert w[1..][i] == w[i + 1];
        }
      }
      SplitPlain(w[1..]);
      assert [w[0]] + w[1..] == w;
    }
  }

  /** Splitting `w + "." + t` separates `w` from the split of `t`. */
  lemma {:induction false} SplitAfterSegment(w: string, t: string)
    requires '.' !in w
    ensures Split(w + "." + t) == [w] + Split(t)
    decreases |w|
  {
    if |w| == 0 {
      assert w + "." + t == "." + t;
      assert ("." + t)[1..] == t;
    } else {
      var s := w + "." + t;
      assert s[1..] == w[1..] + "." + t;
      assert '.' !in w[1..] by {
        forall i | 0 <= i < |w[1..]| ensures w[1..][i] != '.' {
          assert w[1..][i] == w[i + 1];
        }
      }
      SplitAfterSegment(w[1..], t);
      assert [w[0]] + w[1..] == w;
    }
  }

  /** Splitting the join of dot-free segments gives the segments back. */
  lemma {:induction false} SplitJoin(p: Path)
    requires forall i :: 0 <= i < |p| ==> '.' !in p[i]
    ensures Split(Join(p)) == p
    decreases |p|
  {
    if |p| == 1 {
      SplitPlain(p[0]);
    } else {
      SplitJoin(p[1..]);
      SplitAfterSegment(p[0], Join(p[1..]));
      assert [p[0]] + p[1..] == p;
    }
  }

  // ---------------------------------------------------------------------
  // lodash tree access

  /** `_.get(v, path)`: follows object keys; anything else yields `undefined`. */
  function Get(v: Value, p: seq<string>): Value
    decreases |p|
  {
    if |p| == 0 then v
    else
      match v
      case Obj(m) => if p[0] in m then Get(m[p[0]], p[1..]) else Undef
      case _ => Undef
  }

  /** `_.get(v, path, d)`: the default stands in for an `undefined` result. */
  function GetOr(v: Value, p: seq<string>, d: Value): (r: Value)
    ensures Get(v, p) == Undef ==> r == d
    ensures Get(v, p) != Undef ==> r == Get(v, p)
  {
    var x := Get(v, p);
    if x == Undef then d else x
  }

  /** The object `_.set` descends into at key `k`: the present object, or a
      fresh one replacing whatever non-object sat there. */
  function ContainerAt(m: map<string, Value>, k: string): (c: Value)
    ensures c.Obj?
  {
    if k in m && m[k].Obj? then m[k] else Obj(map[])
  }

  /** `_.set(v, path, x)`: a non-object root is left as it is; missing or
      non-object intermediates become fresh objects. */
  function Set(v: Value, p: Path, x: Value): (r: Value)
    ensures v.Obj? <==> r.Obj?
    decreases |p|
  {
    match v
    case Obj(m) =>
      if |p| == 1 then Obj(m[p[0] := x])
      else Obj(m[p[0] := Set(ContainerAt(m, p[0]), p[1..], x)])
    case _ => v
  }

  /** `_.unset(v, path)`: deletes the last key when its parent is an object. */
  function Unset(v: Value, p: Path): (r: Value)
    ensures v.Obj? <==> r.Obj?
    decreases |p|
  {
    match v
    case Obj(m) =>
      if |p| == 1 then Obj(m - {p[0]})
      else if p[0] in m then Obj(m[p[0] := Unset(m[p[0]], p[1..])])
      else v
    case _ => v
  }

  /** Two paths that part ways: neither is a prefix of the other. */
  predicate Disjoint(p: seq<string>, q: seq<string>)
    decreases |p|
  {
    |p| > 0 && |q| > 0 && (p[0] != q[0] || Disjoint(p[1..], q[1..]))
  }

  /** A path never parts ways with itself. */
  lemma {:induction false} DisjointDistinct(p: seq<string>, q: seq<string>)
    requires Disjoint(p, q)
    ensures p != q
    decreases |p|
  {
    if p == q {
      DisjointDistinct(p[1..], q[1..]);
    }
  }

  /** Parting ways is symmetric. */
  lemma {:induction false} DisjointSymmetric(p: seq<string>, q: seq<string>)
    requires Disjoint(p, q)
    ensures Disjoint(q, p)
    decreases |p|
  {
    if p[0] == q[0] {
      DisjointSymmetric(p[1..], q[1..]);
    }
  }

  /** Reading a path just written returns the written value. */
  lemma {:induction false} GetSetSame(v: Value, p: Path, x: Value)
    requires v.Obj?
    ensures Get(Set(v, p, x), p) == x
    decreases |p|
  {
    if |p| > 1 {
      GetSetSame(ContainerAt(v.fields, p[0]), p[1..], x);
    }
  }

  /** A write leaves every path that parts ways with it unchanged. */
  lemma {:induction false} GetSetOther(v: Value, p: Path, q: seq<string>, x: Value)
    requires Disjoint(p, q)
    ensures Get(Set(v, p, x), q) == Get(v, q)
    decreases |p|
  {
    if v.Obj? && p[0] == q[0] {
      var c := ContainerAt(v.fields, p[0]);
      GetSetOther(c, p[1..], q[1..], x);
    }
  }

  /** Reading a path just deleted yields `undefined`. */
  lemma {:induction false} GetUnsetSame(v: Value, p: Path)
    ensures Get(Unset(v, p), p) == Undef
    decreases |p|
  {
    if v.Obj? && |p| > 1 && p[0] in v.fields {
      GetUnsetSame(v.fields[p[0]], p[1..]);
    }
  }

  /** A deletion leaves every path that parts ways with it unchanged. */
  lemma {:induction false} GetUnsetOther(v: Value, p: Path, q: seq<string>)
    requires Disjoint(p, q)
    ensures Get(Unset(v, p), q) == Get(v, q)
    decreases |p|
  {
    if v.Obj? && |p| > 1 && p[0] == q[0] && p[0] in v.fields {
      GetUnsetOther(v.fields[p[0]], p[1..], q[1..]);
    }
  }

  /** `q` lies at or below `p`: `p` is a prefix of `q`. */
  predicate Below(q: seq<string>, p: seq<string>) {
    |p| <= |q| && q[..|p|] == p
  }

  /** Deleting a path removes everything at or below it. */
  lemma {:induction false} GetUnsetBelow(v: Value, p: Path, q: seq<string>)
    requires Below(q, p)
    ensures Get(Unset(v, p), q) == Undef
    decreases |p|
  {
    assert q[0] == p[0];
    if v.Obj? && |p| > 1 && p[0] in v.fields {
      assert q[1..][..|p| - 1] == p[1..];
      GetUnsetBelow(v.fields[p[0]], p[1..], q[1..]);
    }
  }

  /** A deletion never makes a missing path present. */
  lemma {:induction false} UnsetKeepsMissing(v: Value, p: Path, q: seq<string>)
    requires Get(v, q) == Undef
    ensures Get(Unset(v, p), q) == Undef
    decreases |p|
  {
    if v.Obj? && |q| > 0 && |p| > 1 && p[0] == q[0] && p[0] in v.fields {
      UnsetKeepsMissing(v.fields[p[0]], p[1..], q[1..]);
    }
  }

  /** Nothing lies strictly below a value lodash considers empty. */
  lemma {:induction false} GetBelowEmpty(v: Value, p: seq<string>, q: seq<string>)
    requires Below(q, p) && |p| < |q| && IsEmpty(Get(v, p))
    ensures Get(v, q) == Undef
    decreases |p|
  {
    if |p| > 0 && v.Obj? && p[0] in v.fields {
      assert q[1..][..|p| - 1] == p[1..];
      GetBelowEmpty(v.fields[p[0]], p[1..], q[1..]);
    }
  }

  /** A path that parts ways with `p` either parts ways with a prefix of
      `p` as well, or lies strictly below that prefix. */
  lemma {:induction false} DisjointFromPrefix(p: seq<string>, q: seq<string>, k: nat)
    requires Disjoint(p, q) && 0 < k <= |p|
    ensures Disjoint(p[..k], q) || (Below(q, p[..k]) && k < |q|)
    decreases k
  {
    if p[0] == q[0] && k > 1 {
      DisjointFromPrefix(p[1..], q[1..], k - 1);
      assert p[..k][1..] == p[1..][..k - 1];
      if !Disjoint(p[1..][..k - 1], q[1..]) {
        assert q[..k] == [q[0]] + q[1..][..k - 1];
        assert p[..k] == [p[0]] + p[1..][..k - 1];
      }
    }
  }

  // ---------------------------------------------------------------------
  // String conversion (`String(v)`, lodash `baseToString` on scalars)

  function DigitChar(d: nat): char
    requires d < 10
  {
    "0123456789"[d]
  }

  function NatToString(n: nat): (s: string)
    ensures |s| > 0
    decreases n
  {
    if n < 10 then [DigitChar(n)] else NatToString(n / 10) + [DigitChar(n % 10)]
  }

  function IntToString(i: int): string {
    if i < 0 then "-" + NatToString(-i) else NatToString(i)
  }

  function JoinWith(parts: seq<string>, sep: string): string
    decreases |parts|
  {
    if |parts| == 0 then ""
    else if |parts| == 1 then parts[0]
    else parts[0] + sep + JoinWith(parts[1..], sep)
  }

  /** `String(v)`; an array joins its elements with commas, writing
      `null` and `undefined` elements as empty strings. */
  function ToString(v: Value): string
    decreases v
  {
    match v
    case Undef => "undefined"
    case Null => "null"
    case Bool(b) => if b then "true" else "false"
    case Num(n) => IntToString(n)
    case Str(s) => s
    case Arr(items) =>
      JoinWith(seq(|items|, i requires 0 <= i < |items| =>
                 if items[i] == Undef || items[i] == Null then "" else ToString(items[i])), ",")
    case Obj(_) => "[object Object]"
  }
}
