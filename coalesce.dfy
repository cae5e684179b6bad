/**
 * coalesce and coalesceNonEmpty: the first argument that is provided,
 * scanning left to right, or undefined when there is none.
 */
module Coalesce {
  import opened Common
  import opened Js

  /** The first of values that keep accepts, or undefined. */
  function FirstSuch(values: seq<Value>, keep: Value -> bool): (r: Value)
    ensures r == Undefined || r in values
    decreases |values|
  {
    if values == [] then Undefined
    else if keep(values[0]) then values[0]
    else FirstSuch(values[1..], keep)
  }

  /** No value before index i is accepted. */
  predicate NoneBefore(values: seq<Value>, keep: Value -> bool, i: int)
    requires i <= |values|
  {
    forall j :: 0 <= j < i ==> !keep(values[j])
  }

  /** FirstSuch returns the value at the first accepted index, and undefined when none is accepted. */
  lemma {:induction false} FirstSuchFirst(values: seq<Value>, keep: Value -> bool, i: nat)
    requires i <= |values| && NoneBefore(values, keep, i)
    ensures i < |values| && keep(values[i]) ==> FirstSuch(values, keep) == values[i]
    ensures i == |values| ==> FirstSuch(values, keep) == Undefined
    decreases i
  {
    if i > 0 {
      assert !keep(values[0]);
      assert NoneBefore(values[1..], keep, i - 1) by {
        forall j | 0 <= j < i - 1 ensures !keep(values[1..][j]) {
          assert values[1..][j] == values[j + 1];
        }
      }
      FirstSuchFirst(values[1..], keep, i - 1);
      if i < |values| {
        assert values[1..][i - 1] == values[i];
      }
    }
  }

  /** v !== null && v !== undefined */
  predicate Present(v: Value) { !Nullish(v) }

  /** v !== null && v !== undefined && String(v).trim() !== '' */
  predicate NonEmpty(v: Value) { !Nullish(v) && Trim(ToStr(v)) != [] }

  /** coalesce(...values) */
  function Coalesce(values: seq<Value>): (r: Value)
  {
    FirstSuch(values, Present)
  }

  /** coalesceNonEmpty(...values) */
  function CoalesceNonEmpty(values: seq<Value>): (r: Value)
  {
    FirstSuch(values, NonEmpty)
  }

  /**
   * coalesce returns the first argument that is neither null nor undefined,
   * whatever its truthiness (0, false and '' included), and undefined when
   * every argument is nullish.
   */
  lemma CoalesceFirst(values: seq<Value>, i: nat)
    requires i <= |values| && forall j :: 0 <= j < i ==> Nullish(values[j])
    ensures i < |values| && !Nullish(values[i]) ==> Coalesce(values) == values[i]
    ensures i == |values| ==> Coalesce(values) == Undefined
  {
    FirstSuchFirst(values, Present, i);
  }

  /** coalesceNonEmpty also passes over values whose string form trims to '', and returns the first other one. */
  lemma CoalesceNonEmptyFirst(values: seq<Value>, i: nat)
    requires i <= |values| && forall j :: 0 <= j < i ==> Nullish(values[j]) || Trim(ToStr(values[j])) == []
    ensures i < |values| && NonEmpty(values[i]) ==> CoalesceNonEmpty(values) == values[i]
    ensures i == |values| ==> CoalesceNonEmpty(values) == Undefined
  {
    FirstSuchFirst(values, NonEmpty, i);
  }

  /** Whatever coalesceNonEmpty returns is either undefined or provided and not blank. */
  lemma {:induction false} CoalesceNonEmptyProvided(values: seq<Value>)
    ensures var r := CoalesceNonEmpty(values); r == Undefined || (r in values && NonEmpty(r))
    decreases |values|
  {
    if values != [] && !NonEmpty(values[0]) {
      CoalesceNonEmptyProvided(values[1..]);
    }
  }
}
