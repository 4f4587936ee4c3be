/**
 * Cosine similarity between two embeddings (main.py `cosine_similarity`).
 *
 * The Euclidean norm needs a square root, which has no exact counterpart over
 * `real`; it is therefore a parameter `norm` of every operation that uses it.
 * The guards of the similarity hold whatever `norm` is. The lemma that needs
 * a genuine norm assumes `IsNorm(norm)`: non-negative, and zero exactly on
 * the all-zero vector.
 */
module VectorMath {

  /** A stand-in for `np.linalg.norm` on one-dimensional vectors. */
  type Norm = seq<real> -> real

  /** `np.dot` of two vectors of equal length. */
  function Dot(a: seq<real>, b: seq<real>): real
    requires |a| == |b|
  {
    if a == [] then 0.0 else a[0] * b[0] + Dot(a[1..], b[1..])
  }

  /** Every component is zero. */
  predicate IsZeroVector(v: seq<real>) {
    forall i :: 0 <= i < |v| ==> v[i] == 0.0
  }

  /** What the guards rely on: a norm is non-negative and zero exactly on the zero vector. */
  ghost predicate IsNorm(norm: Norm) {
    forall v :: norm(v) >= 0.0 && (norm(v) == 0.0 <==> IsZeroVector(v))
  }

  /**
   * The similarity is 0.0 when the shapes differ or either norm is zero, and
   * the normalised dot product otherwise.
   */
  function CosineSimilarity(a: seq<real>, b: seq<real>, norm: Norm): (r: real)
    ensures |a| != |b| ==> r == 0.0
    ensures |a| == |b| && (norm(a) == 0.0 || norm(b) == 0.0) ==> r == 0.0
    ensures |a| == |b| && norm(a) != 0.0 && norm(b) != 0.0 ==> r * (norm(a) * norm(b)) == Dot(a, b)
  {
    if |a| != |b| then 0.0
    else
      var n1 := norm(a);
      var n2 := norm(b);
      if n1 == 0.0 || n2 == 0.0 then 0.0 else Dot(a, b) / (n1 * n2)
  }

  lemma {:induction false} DotSymmetric(a: seq<real>, b: seq<real>)
    requires |a| == |b|
    ensures Dot(a, b) == Dot(b, a)
  {
    if a != [] {
      DotSymmetric(a[1..], b[1..]);
    }
  }

  /** The similarity does not depend on the order of its arguments. */
  lemma SimilaritySymmetric(a: seq<real>, b: seq<real>, norm: Norm)
    ensures CosineSimilarity(a, b, norm) == CosineSimilarity(b, a, norm)
  {
    if |a| == |b| {
      DotSymmetric(a, b);
      assert norm(a) * norm(b) == norm(b) * norm(a);
    }
  }

  /** An all-zero vector is similar to nothing (the zero-norm guard). */
  lemma ZeroVectorSimilarity(a: seq<real>, b: seq<real>, norm: Norm)
    requires IsNorm(norm)
    requires IsZeroVector(b)
    ensures CosineSimilarity(a, b, norm) == 0.0
    ensures CosineSimilarity(b, a, norm) == 0.0
  {
    assert norm(b) == 0.0;
  }
}
