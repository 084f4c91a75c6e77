/** Sequence helpers of the generator: the `convert` template and the
    first-occurrence deduplication the `included` set performs. */
module Sequences {

  /** Applies `f` to every element, in order. Specifies `Convert`. */
  function MapSeq<T, U>(xs: seq<T>, f: T -> U): (r: seq<U>)
    ensures |r| == |xs|
    ensures forall i :: 0 <= i < |xs| ==> r[i] == f(xs[i])
  {
    if xs == [] then [] else MapSeq(xs[..|xs| - 1], f) + [f(xs[|xs| - 1])]
  }

  lemma MapSeqSnoc<T, U>(xs: seq<T>, x: T, f: T -> U)
    ensures MapSeq(xs + [x], f) == MapSeq(xs, f) + [f(x)]
  {
    assert (xs + [x])[..|xs|] == xs;
  }

  /** `convert`: reserves, then appends `f(in[i])` for each index in turn. */
  method Convert<T, U>(input: seq<T>, f: T -> U) returns (result: seq<U>)
    ensures result == MapSeq(input, f)
  {
    var sz := |input|;
    result := [];
    var i := 0;
    while i < sz
      invariant 0 <= i <= sz
      invariant result == MapSeq(input[..i], f)
    {
      MapSeqSnoc(input[..i], input[i], f);
      assert input[..i + 1] == input[..i] + [input[i]];
      result := result + [f(input[i])];
      i := i + 1;
    }
    assert input[..sz] == input;
  }

  /** The elements of `xs` in order, each kept at its first occurrence only:
      what a loop that appends an element unless a set already holds it yields. */
  function Dedup<T(==)>(xs: seq<T>): seq<T>
  {
    if xs == [] then []
    else
      var p := Dedup(xs[..|xs| - 1]);
      if xs[|xs| - 1] in p then p else p + [xs[|xs| - 1]]
  }

  /** Index of the first occurrence of `x` in `xs`. */
  function FirstIndex<T(==)>(xs: seq<T>, x: T): (k: nat)
    requires x in xs
    ensures k < |xs| && xs[k] == x && x !in xs[..k]
  {
    var n := |xs| - 1;
    if x in xs[..n] then
      assert xs[..n][..FirstIndex(xs[..n], x)] == xs[..FirstIndex(xs[..n], x)];
      FirstIndex(xs[..n], x)
    else n
  }

  lemma {:induction false} DedupElements<T>(xs: seq<T>)
    ensures forall x :: x in Dedup(xs) <==> x in xs
  {
    if xs != [] {
      var n := |xs| - 1;
      DedupElements(xs[..n]);
      assert xs == xs[..n] + [xs[n]];
    }
  }

  lemma DedupSnoc<T>(xs: seq<T>, x: T)
    ensures Dedup(xs + [x]) == if x in xs then Dedup(xs) else Dedup(xs) + [x]
  {
    assert (xs + [x])[..|xs|] == xs;
    DedupElements(xs);
  }

  /** No element is kept twice. */
  lemma {:induction false} DedupDistinct<T>(xs: seq<T>)
    ensures forall i, j :: 0 <= i < j < |Dedup(xs)| ==> Dedup(xs)[i] != Dedup(xs)[j]
  {
    if xs != [] {
      var n := |xs| - 1;
      DedupDistinct(xs[..n]);
    }
  }

  /** Appending an element keeps the first occurrences of the earlier ones; a new
      element first occurs at the end. */
  lemma FirstIndexSnoc<T>(p: seq<T>, y: T)
    ensures forall x :: x in p ==> FirstIndex(p + [y], x) == FirstIndex(p, x)
    ensures y !in p ==> FirstIndex(p + [y], y) == |p|
  {
    assert (p + [y])[..|p|] == p;
  }

  /** Kept elements come in the order of their first occurrences in `xs`. */
  lemma {:induction false} DedupFirstOccurrenceOrder<T>(xs: seq<T>)
    ensures forall x :: x in Dedup(xs) ==> x in xs
    ensures forall i, j :: 0 <= i < j < |Dedup(xs)| ==>
      FirstIndex(xs, Dedup(xs)[i]) < FirstIndex(xs, Dedup(xs)[j])
  {
    DedupElements(xs);
    if xs != [] {
      var n := |xs| - 1;
      var p, y := xs[..n], xs[n];
      DedupFirstOccurrenceOrder(p);
      DedupElements(p);
      assert xs == p + [y];
      FirstIndexSnoc(p, y);
      var d := Dedup(p);
      if y !in d {
        assert Dedup(xs) == d + [y];
        forall i | 0 <= i < |d| ensures FirstIndex(xs, d[i]) < n {
          assert d[i] in p;
        }
      }
    }
  }
}
