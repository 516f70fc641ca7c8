/** Shared vocabulary: optional values, JavaScript's undefined/null/value
    distinction with its truthiness rules, and the order-preserving
    sequence operations (`filter`, `findIndex`, `some`) the modelled code
    leans on. */
module Common {

  datatype Option<+T> = None | Some(value: T)

  /** A JavaScript property read: missing (`undefined`), `null`, or a value. */
  datatype Js<+T> = Undefined | Null | Value(v: T)

  /** `s` is truthy: a string value that is not the empty string. */
  predicate Truthy(s: Js<string>) {
    s.Value? && s.v != ""
  }

  /** `s || fallback` for a string-valued property. */
  function OrString(s: Js<string>, fallback: string): (r: string)
    ensures Truthy(s) ==> r == s.v
    ensures !Truthy(s) ==> r == fallback
  {
    if Truthy(s) then s.v else fallback
  }

  /** `a || fallback` for an array-valued property: every array, the empty
      one included, is truthy, so only `undefined` and `null` fall back. */
  function OrArray<T>(a: Js<seq<T>>, fallback: seq<T>): (r: seq<T>)
    ensures a.Value? ==> r == a.v
    ensures !a.Value? ==> r == fallback
  {
    if a.Value? then a.v else fallback
  }

  function Min(a: int, b: int): int { if a <= b then a else b }

  function Max(a: int, b: int): int { if a >= b then a else b }

  /** `a` can be obtained from `b` by deleting elements (order kept). */
  ghost predicate IsSubsequence<T>(a: seq<T>, b: seq<T>)
    decreases |b|
  {
    if |a| == 0 then true
    else if |b| == 0 then false
    else (a[0] == b[0] && IsSubsequence(a[1..], b[1..])) || IsSubsequence(a, b[1..])
  }

  /** `Array.prototype.filter`. */
  function Filter<T>(xs: seq<T>, p: T -> bool): (r: seq<T>)
    ensures |r| <= |xs|
    ensures forall x :: x in r ==> x in xs && p(x)
    ensures forall x :: x in xs && p(x) ==> x in r
    ensures (forall x :: x in xs ==> p(x)) ==> r == xs
  {
    if |xs| == 0 then []
    else if p(xs[0]) then [xs[0]] + Filter(xs[1..], p)
    else Filter(xs[1..], p)
  }

  lemma {:induction false} FilterIsSubsequence<T>(xs: seq<T>, p: T -> bool)
    ensures IsSubsequence(Filter(xs, p), xs)
    decreases |xs|
  {
    if |xs| > 0 {
      FilterIsSubsequence(xs[1..], p);
      var r := Filter(xs, p);
      if p(xs[0]) {
        assert r[0] == xs[0] && r[1..] == Filter(xs[1..], p);
      } else {
        SubsequenceOfTail(r, xs);
      }
    }
  }

  lemma SubsequenceOfTail<T>(a: seq<T>, b: seq<T>)
    requires |b| > 0 && IsSubsequence(a, b[1..])
    ensures IsSubsequence(a, b)
  {
  }

  /** `Array.prototype.findIndex`, with `None` for -1. */
  function FirstIndex<T>(xs: seq<T>, p: T -> bool): (r: Option<nat>)
    ensures r.Some? ==> r.value < |xs| && p(xs[r.value])
    ensures r.Some? ==> forall j :: 0 <= j < r.value ==> !p(xs[j])
    ensures r.None? <==> forall j :: 0 <= j < |xs| ==> !p(xs[j])
    decreases |xs|
  {
    if |xs| == 0 then None
    else if p(xs[0]) then Some(0)
    else match FirstIndex(xs[1..], p)
      case None => None
      case Some(i) => Some(i + 1)
  }

  /** `Array.prototype.some`. */
  predicate Exists<T>(xs: seq<T>, p: T -> bool) {
    exists i :: 0 <= i < |xs| && p(xs[i])
  }

  /** `Array.prototype.map`. */
  function Map<T, U>(xs: seq<T>, f: T -> U): (r: seq<U>)
    ensures |r| == |xs|
    ensures forall i :: 0 <= i < |xs| ==> r[i] == f(xs[i])
  {
    seq(|xs|, i requires 0 <= i < |xs| => f(xs[i]))
  }
}
