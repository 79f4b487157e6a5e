/** Dense vectors as sequences of reals, with the zero-norm-safe cosine that
    both the matcher and the embedding store compute with numpy. The square
    root inside `numpy.linalg.norm` is a parameter: floating point is not
    modelled. */
module Vectors {

  type Vector = seq<real>

  function Dot(a: Vector, b: Vector): real
    requires |a| == |b|
  {
    if a == [] then 0.0 else a[0] * b[0] + Dot(a[1..], b[1..])
  }

  /** The squared Euclidean norm. */
  function NormSq(a: Vector): (r: real)
    ensures r >= 0.0
  {
    SquareNonNegative(if a == [] then 0.0 else a[0]);
    if a == [] then 0.0 else Square(a[0]) + NormSq(a[1..])
  }

  function Zeros(n: nat): (v: Vector)
    ensures |v| == n && forall k :: 0 <= k < n ==> v[k] == 0.0
  {
    seq(n, k => 0.0)
  }

  predicate IsZero(a: Vector) {
    forall k :: 0 <= k < |a| ==> a[k] == 0.0
  }

  /** `dot / (norm1 * norm2)`, or 0 when either norm is 0. */
  function Cosine(a: Vector, b: Vector, sqrt: real -> real): (c: real)
    requires |a| == |b|
    ensures sqrt(NormSq(a)) == 0.0 || sqrt(NormSq(b)) == 0.0 ==> c == 0.0
  {
    var n1, n2 := sqrt(NormSq(a)), sqrt(NormSq(b));
    if n1 == 0.0 || n2 == 0.0 then 0.0 else Dot(a, b) / (n1 * n2)
  }

  function Square(x: real): real { x * x }

  lemma SquareNonNegative(x: real)
    ensures Square(x) >= 0.0
  {
    if x < 0.0 {
      assert x * x == (-x) * (-x);
    }
  }

  /** The zero vector has squared norm 0. */
  lemma {:induction false} NormSqOfZero(a: Vector)
    requires IsZero(a)
    ensures NormSq(a) == 0.0
  {
    if a != [] {
      assert a[0] == 0.0;
      assert Square(a[0]) == a[0] * 0.0;
      assert IsZero(a[1..]) by {
        forall k | 0 <= k < |a[1..]| ensures a[1..][k] == 0.0 { assert a[1..][k] == a[k + 1]; }
      }
      NormSqOfZero(a[1..]);
    }
  }

  /** The zero-norm guard fires when one side is the zero vector (for
      instance the vector returned for empty text), so the cosine is 0. */
  lemma CosineOfZero(a: Vector, b: Vector, sqrt: real -> real)
    requires |a| == |b|
    requires sqrt(0.0) == 0.0
    requires IsZero(a) || IsZero(b)
    ensures Cosine(a, b, sqrt) == 0.0
  {
    if IsZero(a) { NormSqOfZero(a); } else { NormSqOfZero(b); }
  }
}
