/** Sequence operations that the .NET library provides to Utilities.cs:
    String.IndexOf(char), List<T>.IndexOf, List<T>.FindIndex(x => x.Equals(v)),
    String.StartsWith (ordinal) and List<T>.Insert, together with the
    subsequence relation used to state that a merge keeps an ordering. */
module Sequences {

  /** Position of the first occurrence of `x` in `s`, or -1 when there is none. */
  function IndexOf<T(==)>(s: seq<T>, x: T): (r: int)
    ensures r == -1 <==> x !in s
    ensures r != -1 ==> 0 <= r < |s| && s[r] == x && x !in s[..r]
  {
    if |s| == 0 then -1
    else if s[0] == x then 0
    else
      var r := IndexOf(s[1..], x);
      assert r != -1 ==> s[..r + 1] == [s[0]] + s[1..][..r];
      if r == -1 then -1 else r + 1
  }

  /** Ordinal prefix test. */
  predicate StartsWith<T(==)>(s: seq<T>, prefix: seq<T>)
    ensures StartsWith(s, prefix) <==>
      |prefix| <= |s| && forall i :: 0 <= i < |prefix| ==> s[i] == prefix[i]
    ensures StartsWith(s, prefix) ==> s == prefix + s[|prefix|..]
  {
    |prefix| <= |s| && s[..|prefix|] == prefix
  }

  /** `s` with `x` inserted so that it lands at index `i`. */
  function Insert<T>(s: seq<T>, i: int, x: T): (r: seq<T>)
    requires 0 <= i <= |s|
    ensures |r| == |s| + 1 && r[i] == x
    ensures forall j :: 0 <= j < i ==> r[j] == s[j]
    ensures forall j :: i < j < |r| ==> r[j] == s[j - 1]
    ensures multiset(r) == multiset(s) + multiset{x}
  {
    assert s == s[..i] + s[i..];
    s[..i] + [x] + s[i..]
  }

  /** `a` can be obtained from `b` by deleting elements: `b` holds every
      element of `a`, in the same relative order. */
  predicate Subseq<T(==)>(a: seq<T>, b: seq<T>)
    decreases |b|
  {
    if a == [] then true
    else if b == [] then false
    else (a[0] == b[0] && Subseq(a[1..], b[1..])) || Subseq(a, b[1..])
  }

  lemma {:induction false} SubseqReflexive<T>(a: seq<T>)
    ensures Subseq(a, a)
    decreases |a|
  {
    if a != [] {
      SubseqReflexive(a[1..]);
    }
  }

  /** Inserting an element anywhere keeps every subsequence a subsequence. */
  lemma {:induction false} SubseqInsert<T>(a: seq<T>, b: seq<T>, i: int, x: T)
    requires Subseq(a, b)
    requires 0 <= i <= |b|
    ensures Subseq(a, Insert(b, i, x))
    decreases |b|
  {
    var c := Insert(b, i, x);
    if a == [] {
    } else if i == 0 {
      assert c[1..] == b;
    } else {
      assert c[0] == b[0];
      assert c[1..] == Insert(b[1..], i - 1, x);
      if a[0] == b[0] && Subseq(a[1..], b[1..]) {
        SubseqInsert(a[1..], b[1..], i - 1, x);
      } else {
        SubseqInsert(a, b[1..], i - 1, x);
      }
    }
  }
}
