/** Python list slicing, shared by the paginated listings. */
module Seqs {
  /** `items[start : start + size]`, clamped as Python clamps slices. */
  function Window<T>(s: seq<T>, start: nat, size: nat): (w: seq<T>)
    ensures |w| <= size
    ensures forall x :: x in w ==> x in s
    ensures forall k :: 0 <= k < |w| ==> start + k < |s| && w[k] == s[start + k]
    ensures start < |s| && size > 0 <==> w != []
    ensures start + size <= |s| ==> |w| == size
    ensures start <= |s| <= start + size ==> |w| == |s| - start
  {
    if start >= |s| then []
    else if start + size >= |s| then s[start..]
    else s[start..start + size]
  }

  /** A loop that appends `s[i]` keeps its result equal to a prefix of `s`. */
  lemma PrefixStep<T>(s: seq<T>, i: nat)
    requires i < |s|
    ensures s[..i + 1] == s[..i] + [s[i]]
  {
  }

  /** A non-empty list is its head followed by its tail. */
  lemma HeadTail<T>(s: seq<T>)
    requires s != []
    ensures [s[0]] + s[1..] == s
  {
  }

  /** A non-empty list is its front followed by its last element. */
  lemma InitLast<T>(s: seq<T>)
    requires s != []
    ensures s[..|s| - 1] + [s[|s| - 1]] == s
  {
  }

  /** Cutting a list anywhere and joining the halves gives it back. */
  lemma SplitAt<T>(s: seq<T>, i: nat)
    requires i <= |s|
    ensures s[..i] + s[i..] == s
  {
  }

  /** Five pieces joined left to right are the same pieces joined right to left. */
  lemma Regroup<T>(a: seq<T>, b: seq<T>, c: seq<T>, d: seq<T>, e: seq<T>)
    ensures a + b + c + d + e == a + (b + (c + (d + e)))
  {
  }

  /** Concatenation regroups freely. */
  lemma Associative<T>(a: seq<T>, b: seq<T>, c: seq<T>)
    ensures a + (b + c) == (a + b) + c
  {
  }

  /** Duplicates dropped, first occurrences kept in order. */
  function Dedup<T(==)>(xs: seq<T>): seq<T> {
    if xs == [] then []
    else
      var d := Dedup(xs[..|xs| - 1]);
      if xs[|xs| - 1] in d then d else d + [xs[|xs| - 1]]
  }

  predicate Distinct<T(==)>(xs: seq<T>) {
    forall i, j :: 0 <= i < j < |xs| ==> xs[i] != xs[j]
  }

  /** The deduplicated list holds each element of the input exactly once. */
  lemma {:induction false} DedupMeaning<T>(xs: seq<T>)
    ensures Distinct(Dedup(xs))
    ensures forall x :: x in Dedup(xs) <==> x in xs
  {
    if xs != [] {
      DedupMeaning(xs[..|xs| - 1]);
      assert forall x :: x in xs <==> x in xs[..|xs| - 1] || x == xs[|xs| - 1] by {
        assert xs == xs[..|xs| - 1] + [xs[|xs| - 1]];
      }
    }
  }

  /** A list without repeats is its own deduplication. */
  lemma {:induction false} DedupOfDistinct<T>(xs: seq<T>)
    requires Distinct(xs)
    ensures Dedup(xs) == xs
  {
    if xs != [] {
      var front := xs[..|xs| - 1];
      DedupOfDistinct(front);
      DedupMeaning(front);
      assert xs[|xs| - 1] !in front;
      InitLast(xs);
    }
  }

  /** Some element of a non-empty set: the next key a dict iteration yields. */
  method Pick<T>(s: set<T>) returns (x: T)
    requires s != {}
    ensures x in s
  {
    x :| x in s;
  }
}
