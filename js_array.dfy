/**
 * The JavaScript array operations the components apply to copies of their
 * lists: `splice(idx, 1)`, `a[idx] = v`, `filter` and `find`, with the
 * index rules JavaScript gives them.
 */
module JsArray {
  import opened Wrappers

  /** `a` is `b` with some elements left out, the rest in their order. */
  ghost predicate IsSubsequence<T>(a: seq<T>, b: seq<T>)
    decreases |b|
  {
    if a == [] then true
    else if b == [] then false
    else (a[0] == b[0] && IsSubsequence(a[1..], b[1..])) || IsSubsequence(a, b[1..])
  }

  /**
   * Where `splice(idx, ...)` starts on an array of length `len`: a negative
   * index counts from the end, and the result is clamped to `[0, len]`.
   */
  function SpliceStart(len: nat, idx: int): (k: nat)
    ensures k <= len
    ensures 0 <= idx <= len ==> k == idx
  {
    if idx < 0 then (if len + idx < 0 then 0 else len + idx)
    else if idx > len then len
    else idx
  }

  /** The list `a.splice(idx, 1)` leaves behind in `a`. */
  function Splice1<T>(s: seq<T>, idx: int): (r: seq<T>)
    ensures 0 <= idx < |s| ==>
      && |r| == |s| - 1
      && (forall k :: 0 <= k < idx ==> r[k] == s[k])
      && (forall k :: idx <= k < |r| ==> r[k] == s[k + 1])
    ensures idx >= |s| ==> r == s
    ensures idx < 0 && s != [] ==> |r| == |s| - 1
    ensures idx < -|s| && s != [] ==> r == s[1..]
  {
    var k := SpliceStart(|s|, idx);
    if k < |s| then s[..k] + s[k + 1..] else s
  }

  /** `splice(idx, 1)` on an index of the list takes away that one element and nothing else. */
  lemma SpliceRemovesOne<T>(s: seq<T>, idx: int)
    requires 0 <= idx < |s|
    ensures multiset(Splice1(s, idx)) + multiset{s[idx]} == multiset(s)
  {
    assert s == s[..idx] + [s[idx]] + s[idx + 1..];
  }

  /** A negative index to `splice` names the element that many places from the end. */
  lemma SpliceFromEnd<T>(s: seq<T>, idx: int)
    requires -|s| <= idx < 0
    ensures Splice1(s, idx) == Splice1(s, |s| + idx)
  {
  }

  /**
   * The array after `a[idx] = v`. A negative index sets a property that is
   * not an element, so the elements are unchanged; the index just past the
   * last element appends; an index further out would leave holes, which a
   * list of strings cannot hold.
   */
  function Assign<T>(s: seq<T>, idx: int, v: T): (r: seq<T>)
    requires idx <= |s|
    ensures 0 <= idx < |s| ==>
      |r| == |s| && r[idx] == v && forall k :: 0 <= k < |s| && k != idx ==> r[k] == s[k]
    ensures idx == |s| ==> |r| == |s| + 1 && r[..|s|] == s && r[|s|] == v
    ensures idx < 0 ==> r == s
  {
    if idx < 0 then s else if idx == |s| then s + [v] else s[idx := v]
  }

  /** `s.filter(keep)`. */
  function Filter<T>(s: seq<T>, keep: T -> bool): (r: seq<T>)
    ensures |r| <= |s|
    ensures forall i :: 0 <= i < |r| ==> keep(r[i])
  {
    if s == [] then []
    else if keep(s[0]) then [s[0]] + Filter(s[1..], keep)
    else Filter(s[1..], keep)
  }

  /** An element survives `filter` exactly when it was in the list and passes the test. */
  lemma {:induction false} FilterMembership<T>(s: seq<T>, keep: T -> bool, x: T)
    ensures x in Filter(s, keep) <==> x in s && keep(x)
  {
    if s != [] {
      FilterMembership(s[1..], keep, x);
      assert s == [s[0]] + s[1..];
    }
  }

  /** `filter` keeps every passing element as often as it occurs, and no other. */
  lemma {:induction false} FilterCount<T>(s: seq<T>, keep: T -> bool, x: T)
    ensures multiset(Filter(s, keep))[x] == if keep(x) then multiset(s)[x] else 0
  {
    if s != [] {
      FilterCount(s[1..], keep, x);
      assert s == [s[0]] + s[1..];
    }
  }

  /** `filter` keeps the order of what it keeps. */
  lemma {:induction false} FilterIsSubsequence<T>(s: seq<T>, keep: T -> bool)
    ensures IsSubsequence(Filter(s, keep), s)
  {
    if s != [] {
      FilterIsSubsequence(s[1..], keep);
      if !keep(s[0]) {
        SubsequenceOfTail(Filter(s[1..], keep), s);
      }
    }
  }

  lemma SubsequenceOfTail<T>(a: seq<T>, b: seq<T>)
    requires b != [] && IsSubsequence(a, b[1..])
    ensures IsSubsequence(a, b)
  {
  }

  /** `filter` with a test every element passes returns the list itself. */
  lemma {:induction false} FilterAllKept<T>(s: seq<T>, keep: T -> bool)
    requires forall i :: 0 <= i < |s| ==> keep(s[i])
    ensures Filter(s, keep) == s
  {
    if s != [] {
      FilterAllKept(s[1..], keep);
    }
  }

  /** `s.find(p)`: the first element passing `p`, or `undefined`. */
  function Find<T>(s: seq<T>, p: T -> bool): (r: Option<T>)
    ensures r.Some? <==> exists i :: 0 <= i < |s| && p(s[i])
    ensures r.Some? ==> exists i :: 0 <= i < |s| && s[i] == r.value && p(s[i])
                                    && forall j :: 0 <= j < i ==> !p(s[j])
  {
    if s == [] then None
    else if p(s[0]) then Some(s[0])
    else
      var r := Find(s[1..], p);
      assert forall i :: 1 <= i < |s| ==> s[i] == s[1..][i - 1];
      r
  }
}
