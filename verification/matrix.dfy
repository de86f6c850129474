/**
  4x4 homogeneous matrices over exact reals, in the convention of the Gf
  matrix library the camera code uses: a matrix is a sequence of four rows,
  points are ROW vectors and are transformed as `v * M`, so in a product
  `A * B` the transform `A` is applied first and `B` second.
 */
module Matrix {

  /** A 4x4 matrix: four rows of four entries each. */
  type Mat4 = m: seq<seq<real>> | IsSquare4(m)
    witness [[0.0, 0.0, 0.0, 0.0], [0.0, 0.0, 0.0, 0.0],
             [0.0, 0.0, 0.0, 0.0], [0.0, 0.0, 0.0, 0.0]]

  /** A row vector of homogeneous coordinates (x, y, z, w). */
  type Vec4 = v: seq<real> | |v| == 4
    witness [0.0, 0.0, 0.0, 0.0]

  predicate IsSquare4(m: seq<seq<real>>) {
    |m| == 4 && forall i :: 0 <= i < 4 ==> |m[i]| == 4
  }

  function Identity(): Mat4 {
    [[1.0, 0.0, 0.0, 0.0],
     [0.0, 1.0, 0.0, 0.0],
     [0.0, 0.0, 1.0, 0.0],
     [0.0, 0.0, 0.0, 1.0]]
  }

  /** Entry (i, j) of the ordinary matrix product: row i of `a` against column j of `b`. */
  function ProductEntry(a: Mat4, b: Mat4, i: nat, j: nat): real
    requires i < 4 && j < 4
  {
    a[i][0] * b[0][j] + a[i][1] * b[1][j] + a[i][2] * b[2][j] + a[i][3] * b[3][j]
  }

  /** The ordinary matrix product `a * b` (Gf's `operator*`). */
  function Mul(a: Mat4, b: Mat4): Mat4 {
    seq(4, i requires 0 <= i < 4 =>
      seq(4, j requires 0 <= j < 4 => ProductEntry(a, b, i, j)))
  }

  function Transpose(m: Mat4): Mat4 {
    seq(4, i requires 0 <= i < 4 => seq(4, j requires 0 <= j < 4 => m[j][i]))
  }

  /** The row vector `v * m`: the point `v` carried through the transform `m`. */
  function Transform(v: Vec4, m: Mat4): Vec4 {
    seq(4, j requires 0 <= j < 4 =>
      v[0] * m[0][j] + v[1] * m[1][j] + v[2] * m[2][j] + v[3] * m[3][j])
  }

  /** `inv` is the two-sided inverse of `m` (what Gf's `GetInverse` returns for a nonsingular `m`). */
  predicate IsInverse(inv: Mat4, m: Mat4) {
    Mul(inv, m) == Identity() && Mul(m, inv) == Identity()
  }

  /** Matrices are equal when they agree entry by entry. */
  lemma EqualByEntries(a: Mat4, b: Mat4)
    requires forall i, j :: 0 <= i < 4 && 0 <= j < 4 ==> a[i][j] == b[i][j]
    ensures a == b
  {
    forall i | 0 <= i < 4
      ensures a[i] == b[i]
    {
      assert |a[i]| == |b[i]| == 4;
    }
  }

  lemma MulIdentity(m: Mat4)
    ensures Mul(Identity(), m) == m
    ensures Mul(m, Identity()) == m
  {
    EqualByEntries(Mul(Identity(), m), m);
    EqualByEntries(Mul(m, Identity()), m);
  }

  lemma MulAssociativeAt(a: Mat4, b: Mat4, c: Mat4, i: nat, j: nat)
    requires i < 4 && j < 4
    ensures Mul(Mul(a, b), c)[i][j] == Mul(a, Mul(b, c))[i][j]
  {
  }

  lemma MulAssociative(a: Mat4, b: Mat4, c: Mat4)
    ensures Mul(Mul(a, b), c) == Mul(a, Mul(b, c))
  {
    forall i, j | 0 <= i < 4 && 0 <= j < 4
      ensures Mul(Mul(a, b), c)[i][j] == Mul(a, Mul(b, c))[i][j]
    {
      MulAssociativeAt(a, b, c, i, j);
    }
    EqualByEntries(Mul(Mul(a, b), c), Mul(a, Mul(b, c)));
  }

  lemma TransformMulAt(v: Vec4, a: Mat4, b: Mat4, j: nat)
    requires j < 4
    ensures Transform(v, Mul(a, b))[j] == Transform(Transform(v, a), b)[j]
  {
  }

  /**
    Transforming by a product is transforming by its factors in order:
    `v * (a * b) == (v * a) * b`, so `a` acts first.
   */
  lemma TransformMul(v: Vec4, a: Mat4, b: Mat4)
    ensures Transform(v, Mul(a, b)) == Transform(Transform(v, a), b)
  {
    forall j | 0 <= j < 4
      ensures Transform(v, Mul(a, b))[j] == Transform(Transform(v, a), b)[j]
    {
      TransformMulAt(v, a, b, j);
    }
  }

  lemma TransformIdentity(v: Vec4)
    ensures Transform(v, Identity()) == v
  {
    assert forall j :: 0 <= j < 4 ==> Transform(v, Identity())[j] == v[j];
  }

  /** A matrix has at most one two-sided inverse. */
  lemma InverseUnique(m: Mat4, x: Mat4, y: Mat4)
    requires IsInverse(x, m) && IsInverse(y, m)
    ensures x == y
  {
    MulAssociative(x, m, y);
    MulIdentity(x);
    MulIdentity(y);
  }

  /** The inverse of a product is the product of the inverses, in reverse order. */
  lemma InverseOfProduct(a: Mat4, ia: Mat4, b: Mat4, ib: Mat4)
    requires IsInverse(ia, a) && IsInverse(ib, b)
    ensures IsInverse(Mul(ib, ia), Mul(a, b))
  {
    MulAssociative(Mul(ib, ia), a, b);
    MulAssociative(ib, ia, a);
    MulIdentity(ib);
    MulAssociative(Mul(a, b), ib, ia);
    MulAssociative(a, b, ib);
    MulIdentity(a);
  }

  /**
    Row-major flattening of a list of four-wide rows (what iterating a Gf
    matrix row by row and then each row value by value produces): row i,
    column j lands at position `4 * i + j`.
   */
  function FlattenRows(rows: seq<seq<real>>): (r: seq<real>)
    requires forall i :: 0 <= i < |rows| ==> |rows[i]| == 4
    ensures |r| == 4 * |rows|
    ensures forall k :: 0 <= k < |r| ==> r[k] == rows[k / 4][k % 4]
    decreases |rows|
  {
    if rows == [] then [] else rows[0] + FlattenRows(rows[1..])
  }

  /** `gf_matrix_to_tuple`: the 16 entries of `m`, row by row. */
  function Flatten(m: Mat4): (r: seq<real>)
    ensures |r| == 16
    ensures forall i, j :: 0 <= i < 4 && 0 <= j < 4 ==> r[4 * i + j] == m[i][j]
  {
    var r := FlattenRows(m);
    assert forall i, j :: 0 <= i < 4 && 0 <= j < 4 ==> r[4 * i + j] == m[i][j] by {
      forall i, j | 0 <= i < 4 && 0 <= j < 4
        ensures r[4 * i + j] == m[i][j]
      {
        assert (4 * i + j) / 4 == i && (4 * i + j) % 4 == j;
      }
    }
    r
  }

  /** Rebuilds a matrix from 16 row-major entries (Gf's 16-value constructor). */
  function Unflatten(t: seq<real>): (m: Mat4)
    requires |t| == 16
    ensures forall k :: 0 <= k < 16 ==> m[k / 4][k % 4] == t[k]
  {
    var m: Mat4 := seq(4, i requires 0 <= i < 4 => t[4 * i .. 4 * i + 4]);
    assert forall k :: 0 <= k < 16 ==> m[k / 4][k % 4] == t[k] by {
      forall k | 0 <= k < 16
        ensures m[k / 4][k % 4] == t[k]
      {
        assert m[k / 4] == t[4 * (k / 4) .. 4 * (k / 4) + 4];
      }
    }
    m
  }

  lemma UnflattenFlatten(m: Mat4)
    ensures Unflatten(Flatten(m)) == m
  {
    var u := Unflatten(Flatten(m));
    forall i | 0 <= i < 4
      ensures u[i] == m[i]
    {
      assert forall j :: 0 <= j < 4 ==> u[i][j] == Flatten(m)[4 * i + j];
    }
  }

  lemma FlattenUnflatten(t: seq<real>)
    requires |t| == 16
    ensures Flatten(Unflatten(t)) == t
  {
  }

  /** Flattening is injective: distinct matrices give distinct tuples. */
  lemma FlattenInjective(a: Mat4, b: Mat4)
    requires Flatten(a) == Flatten(b)
    ensures a == b
  {
    UnflattenFlatten(a);
    UnflattenFlatten(b);
  }
}
