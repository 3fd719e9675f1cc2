/** Whole-sequence transformations shared by the post list, the cart and the lexicon scan:
    the model's counterparts of JavaScript's `Array.prototype.filter` and of a `map` that
    rewrites only the elements a selector picks. */
module Seqs {

  /** `s.filter(keep)`: the elements `keep` accepts, in their original order. */
  function Filter<T>(s: seq<T>, keep: T -> bool): (r: seq<T>)
    ensures |r| <= |s|
    ensures forall i :: 0 <= i < |r| ==> r[i] in s && keep(r[i])
    ensures forall i :: 0 <= i < |s| && keep(s[i]) ==> s[i] in r
  {
    if s == [] then []
    else if keep(s[0]) then [s[0]] + Filter(s[1..], keep)
    else Filter(s[1..], keep)
  }

  /** Filtering distributes over concatenation: the relative order of the kept
      elements is the order they had in the input. */
  lemma {:induction false} FilterAppend<T>(a: seq<T>, b: seq<T>, keep: T -> bool)
    ensures Filter(a + b, keep) == Filter(a, keep) + Filter(b, keep)
  {
    if a == [] {
      assert a + b == b;
    } else {
      assert (a + b)[1..] == a[1..] + b;
      FilterAppend(a[1..], b, keep);
    }
  }

  /** If every element is kept, filtering changes nothing. */
  lemma {:induction false} FilterAll<T>(s: seq<T>, keep: T -> bool)
    requires forall i :: 0 <= i < |s| ==> keep(s[i])
    ensures Filter(s, keep) == s
  {
    if s != [] {
      FilterAll(s[1..], keep);
    }
  }

  /** `s.map(x => sel(x) ? f(x) : x)`: rewrites exactly the selected elements. */
  function MapIf<T>(s: seq<T>, sel: T -> bool, f: T -> T): (r: seq<T>)
    ensures |r| == |s|
    ensures forall i :: 0 <= i < |s| ==> r[i] == if sel(s[i]) then f(s[i]) else s[i]
  {
    if s == [] then []
    else [if sel(s[0]) then f(s[0]) else s[0]] + MapIf(s[1..], sel, f)
  }

  /** Number of occurrences of `x` in `s`. */
  function Count<T(==)>(s: seq<T>, x: T): (n: nat)
    ensures n <= |s|
    ensures n == 0 <==> x !in s
  {
    if s == [] then 0
    else (if s[0] == x then 1 else 0) + Count(s[1..], x)
  }

  lemma {:induction false} CountAppend<T>(a: seq<T>, b: seq<T>, x: T)
    ensures Count(a + b, x) == Count(a, x) + Count(b, x)
  {
    if a == [] {
      assert a + b == b;
    } else {
      assert (a + b)[1..] == a[1..] + b;
      CountAppend(a[1..], b, x);
    }
  }

  /** `s.filter(y => y !== x)`: every occurrence of `x` removed. */
  function Without<T(==)>(s: seq<T>, x: T): (r: seq<T>) {
    Filter(s, y => y != x)
  }

  /** Removing every occurrence of `x` leaves none, shortens the sequence by exactly
      `Count(s, x)` and leaves every other element as often as before. */
  lemma {:induction false} WithoutCounts<T>(s: seq<T>, x: T)
    ensures |Without(s, x)| == |s| - Count(s, x)
    ensures Count(Without(s, x), x) == 0
    ensures forall u :: u != x ==> Count(Without(s, x), u) == Count(s, u)
  {
    if s != [] {
      WithoutCounts(s[1..], x);
    }
  }

  /** Appending an element that was absent and then removing it gives back the sequence. */
  lemma {:induction false} WithoutAppended<T>(s: seq<T>, x: T)
    requires x !in s
    ensures Without(s + [x], x) == s
  {
    if s == [] {
      assert [] + [x] == [x];
    } else {
      assert (s + [x])[1..] == s[1..] + [x];
      WithoutAppended(s[1..], x);
    }
  }

  /** Elements that are distinct somewhere in the sequence. */
  predicate NoDuplicates<T(==)>(s: seq<T>) {
    forall i, j :: 0 <= i < j < |s| ==> s[i] != s[j]
  }
}
