/** Sequence helpers shared by both encoding designs. */
module Seqs {

  function Min(a: int, b: int): int
  {
    if a <= b then a else b
  }

  /** `n` copies of `x`: what `make` followed by a fill loop builds. */
  function Repeat<T>(x: T, n: nat): (s: seq<T>)
    ensures |s| == n
    ensures forall i :: 0 <= i < n ==> s[i] == x
  {
    seq(n, _ => x)
  }

  /** A fresh filler slice of length `n` holding `x` everywhere, built by a fill loop. */
  method Filled<T>(x: T, n: nat) returns (s: seq<T>)
    ensures |s| == n
    ensures forall i :: 0 <= i < n ==> s[i] == x
  {
    s := [];
    var i := 0;
    while i < n
      invariant i <= n && |s| == i
      invariant forall k :: 0 <= k < i ==> s[k] == x
    {
      s := s + [x];
      i := i + 1;
    }
  }

  /** The rows laid end to end, in order. */
  function Concat<T>(rows: seq<seq<T>>): seq<T>
    decreases |rows|
  {
    if rows == [] then [] else Concat(rows[..|rows| - 1]) + rows[|rows| - 1]
  }

  lemma MulMono(a: nat, b: nat, w: nat)
    requires a <= b
    ensures a * w <= b * w
  {
  }

  /** Rows of one common width `w` flatten to `|rows| * w` elements, element `j` of
      row `i` landing at position `i * w + j`. */
  lemma {:induction false} ConcatUniform<T>(rows: seq<seq<T>>, w: nat)
    requires forall i :: 0 <= i < |rows| ==> |rows[i]| == w
    ensures |Concat(rows)| == |rows| * w
    ensures forall i, j :: 0 <= i < |rows| && 0 <= j < w ==> i * w + j < |Concat(rows)| && Concat(rows)[i * w + j] == rows[i][j]
    decreases |rows|
  {
    if rows != [] {
      var n := |rows|;
      var init := rows[..n - 1];
      ConcatUniform(init, w);
      assert Concat(rows) == Concat(init) + rows[n - 1];
      assert (n - 1) * w + w == n * w;
      forall i, j | 0 <= i < n && 0 <= j < w
        ensures i * w + j < |Concat(rows)| && Concat(rows)[i * w + j] == rows[i][j]
      {
        if i < n - 1 {
          MulMono(i + 1, n - 1, w);
          assert (i + 1) * w == i * w + w;
          assert init[i] == rows[i];
        } else {
          assert i * w == (n - 1) * w;
        }
      }
    }
  }

  /** One position of a uniform flattening, without quantifiers. */
  lemma ConcatAt<T>(rows: seq<seq<T>>, w: nat, i: nat, j: nat)
    requires forall k :: 0 <= k < |rows| ==> |rows[k]| == w
    requires i < |rows| && j < w
    ensures |Concat(rows)| == |rows| * w
    ensures i * w + j < |Concat(rows)| && Concat(rows)[i * w + j] == rows[i][j]
  {
    ConcatUniform(rows, w);
  }

  /** A property of every element of every row holds of every element of the
      flattening. */
  lemma {:induction false} ConcatForall<T>(rows: seq<seq<T>>, P: T -> bool)
    requires forall i, j :: 0 <= i < |rows| && 0 <= j < |rows[i]| ==> P(rows[i][j])
    ensures forall k :: 0 <= k < |Concat(rows)| ==> P(Concat(rows)[k])
    decreases |rows|
  {
    if rows != [] {
      var init := rows[..|rows| - 1];
      ConcatForall(init, P);
      assert forall i :: 0 <= i < |init| ==> init[i] == rows[i];
    }
  }
}
