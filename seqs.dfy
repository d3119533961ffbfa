/** Duplicate-free sequences: what `list(set(xs))` and insertion-ordered dictionary keys produce. */
module Seqs {

  predicate NoDuplicates<T(==)>(xs: seq<T>) {
    forall i, j :: 0 <= i < j < |xs| ==> xs[i] != xs[j]
  }

  /** `a` is `b` with some elements left out, the rest kept in order. */
  predicate SubsequenceOf<T(==)>(a: seq<T>, b: seq<T>)
    decreases |b|
  {
    if a == [] then true
    else if b == [] then false
    else if a[0] == b[0] then SubsequenceOf(a[1..], b[1..])
    else SubsequenceOf(a, b[1..])
  }

  /** `listing` holds each element of `xs` exactly once, in some order. */
  predicate IsListing<T(==)>(listing: seq<T>, xs: seq<T>) {
    && NoDuplicates(listing)
    && (forall i :: 0 <= i < |listing| ==> listing[i] in xs)
    && (forall i :: 0 <= i < |xs| ==> xs[i] in listing)
  }

  /** The distinct elements of `xs` in order of first appearance. */
  function Dedup<T(==)>(xs: seq<T>): (d: seq<T>)
    ensures IsListing(d, xs)
    ensures |d| <= |xs|
    decreases |xs|
  {
    if xs == [] then []
    else
      var init := Dedup(xs[..|xs| - 1]);
      var last := xs[|xs| - 1];
      assert xs == xs[..|xs| - 1] + [last];
      if last in init then init else init + [last]
  }

  /** A duplicate-free sequence has as many elements as the set of its elements. */
  lemma {:induction false} NoDuplicatesCardinality<T>(xs: seq<T>)
    requires NoDuplicates(xs)
    ensures |set x | x in xs| == |xs|
    decreases |xs|
  {
    if xs != [] {
      var init := xs[..|xs| - 1];
      NoDuplicatesCardinality(init);
      var last := xs[|xs| - 1];
      assert (set x | x in xs) == (set x | x in init) + {last} by {
        assert xs == init + [last];
      }
      assert last !in init by {
        forall i | 0 <= i < |init| ensures init[i] != last {
          assert init[i] == xs[i];
        }
      }
    }
  }

  /** Any two listings of the same sequence have the same length: one per distinct element. */
  lemma ListingLength<T>(listing: seq<T>, xs: seq<T>)
    requires IsListing(listing, xs)
    ensures |listing| == |set x | x in xs|
  {
    NoDuplicatesCardinality(listing);
    assert (set x | x in listing) == (set x | x in xs);
  }

  /** Concatenation is associative (stated for explicit use in long append chains). */
  lemma AppendAssoc<T>(a: seq<T>, b: seq<T>, c: seq<T>)
    ensures (a + b) + c == a + (b + c)
  {
  }

  lemma AppendAssoc4<T>(h: seq<T>, a: seq<T>, b: seq<T>, c: seq<T>, d: seq<T>)
    ensures h + a + b + c + d == h + (a + b + c + d)
  {
    AppendAssoc(h, a, b);
    AppendAssoc(h, a + b, c);
    AppendAssoc(h, a + b + c, d);
  }

  /** A left-nested chain of five appends after a prefix `h` is `h` followed by the chain's own concatenation. */
  lemma AppendAssoc5<T>(h: seq<T>, a: seq<T>, b: seq<T>, c: seq<T>, d: seq<T>, e: seq<T>)
    ensures h + a + b + c + d + e == h + (a + b + c + d + e)
  {
    AppendAssoc(h, a, b);
    AppendAssoc(h, a + b, c);
    AppendAssoc(h, a + b + c, d);
    AppendAssoc(h, a + b + c + d, e);
  }

  lemma AppendAssoc6<T>(h: seq<T>, a: seq<T>, b: seq<T>, c: seq<T>, d: seq<T>, e: seq<T>, f: seq<T>)
    ensures h + a + b + c + d + e + f == h + (a + b + c + d + e + f)
  {
    AppendAssoc5(h, a, b, c, d, e);
    AppendAssoc(h, a + b + c + d + e, f);
  }

  /** Position of the first occurrence of `x` in `xs`. */
  function FirstPos<T(==)>(xs: seq<T>, x: T): (r: nat)
    requires x in xs
    ensures r < |xs| && xs[r] == x
    ensures forall j :: 0 <= j < r ==> xs[j] != x
  {
    if xs[0] == x then 0 else 1 + FirstPos(xs[1..], x)
  }

  /** Appending elements does not move the first occurrence of an element already present. */
  lemma FirstPosPrefix<T>(xs: seq<T>, tail: seq<T>, x: T)
    requires x in xs
    ensures FirstPos(xs + tail, x) == FirstPos(xs, x)
  {
    var p := FirstPos(xs, x);
    var q := FirstPos(xs + tail, x);
    assert (xs + tail)[p] == x;
  }

  /** `Dedup` lists the distinct elements in the order in which each first appears. */
  lemma {:induction false} DedupInOrder<T>(xs: seq<T>, i: nat, j: nat)
    requires i < j < |Dedup(xs)|
    ensures FirstPos(xs, Dedup(xs)[i]) < FirstPos(xs, Dedup(xs)[j])
    decreases |xs|
  {
    var init := xs[..|xs| - 1];
    var last := xs[|xs| - 1];
    assert xs == init + [last];
    var d := Dedup(init);
    var di := Dedup(xs)[i];
    var dj := Dedup(xs)[j];
    assert di in d;
    FirstPosPrefix(init, [last], di);
    if j < |d| {
      DedupInOrder(init, i, j);
      assert dj in d;
      FirstPosPrefix(init, [last], dj);
    } else {
      assert dj == last && last !in d;
      assert last !in init;
    }
  }
}
