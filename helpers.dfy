/** Attribute names: a leading `?` marks an attribute as optional. */
module Helpers {

  const OptionalMark: char := '?'

  /** `name.replace(/\?/, '')`: the pattern has no global flag, so only the
      first mark is removed, wherever it stands. */
  function NormalizeAttributeName(name: string): (r: string)
    ensures OptionalMark !in name ==> r == name
    ensures OptionalMark in name ==> |r| == |name| - 1
    ensures OptionalMark in name ==> multiset(r) + multiset{OptionalMark} == multiset(name)
    decreases |name|
  {
    if |name| == 0 then name
    else if name[0] == OptionalMark then
      assert name == [name[0]] + name[1..];
      name[1..]
    else
      assert name == [name[0]] + name[1..];
      [name[0]] + NormalizeAttributeName(name[1..])
  }

  /** `name.charAt(0) !== '?'`; the empty name counts as required. */
  function IsRequiredAttribute(name: string): bool {
    |name| == 0 || name[0] != OptionalMark
  }

  /** Normalization cuts out exactly the first mark and keeps every other
      character in order. */
  lemma {:induction false} NormalizeRemovesFirstMark(name: string, i: nat)
    requires i < |name| && name[i] == OptionalMark
    requires forall j :: 0 <= j < i ==> name[j] != OptionalMark
    ensures NormalizeAttributeName(name) == name[..i] + name[i + 1..]
    decreases i
  {
    if i > 0 {
      NormalizeRemovesFirstMark(name[1..], i - 1);
      assert name[1..][..i - 1] == name[1..i];
      assert name[1..][i..] == name[i + 1..];
      assert [name[0]] + name[1..i] == name[..i];
    }
  }

  /** Index of the first mark in a name that has one. */
  function IndexOfMark(s: string): (i: nat)
    requires OptionalMark in s
    ensures i < |s| && s[i] == OptionalMark
    ensures forall j :: 0 <= j < i ==> s[j] != OptionalMark
    decreases |s|
  {
    if s[0] == OptionalMark then 0
    else
      assert s == [s[0]] + s[1..];
      1 + IndexOfMark(s[1..])
  }

  /** An attribute is optional exactly when its name holds a mark and
      normalization amounts to dropping the first character. */
  lemma OptionalIffLeadingMarkDropped(name: string)
    ensures !IsRequiredAttribute(name) <==>
            (OptionalMark in name && NormalizeAttributeName(name) == name[1..])
  {
    if OptionalMark in name && NormalizeAttributeName(name) == name[1..] {
      var i := IndexOfMark(name);
      NormalizeRemovesFirstMark(name, i);
    }
  }

  /** Normalization is not idempotent: a second pass removes a second mark. */
  lemma NormalizeNotIdempotent()
    ensures NormalizeAttributeName("a??b") == "a?b"
    ensures NormalizeAttributeName(NormalizeAttributeName("a??b")) == "ab"
  {
  }
}
