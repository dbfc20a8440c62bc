/** The fixed-size real matrices the solver holds: rotations, translations and
    4x4 homogeneous transforms, with numpy's `@` written out over exact reals. */
module LinAlg {

  type Vec3 = v: seq<real> | |v| == 3 witness Zero3
  type Vec4 = v: seq<real> | |v| == 4 witness Zero4
  /** A 3x3 matrix, as its rows. */
  type Mat3 = m: seq<Vec3> | |m| == 3 witness [Zero3, Zero3, Zero3]
  /** A 4x4 matrix, as its rows. */
  type Mat4 = m: seq<Vec4> | |m| == 4 witness [Zero4, Zero4, Zero4, Zero4]

  const Zero3: seq<real> := [0.0, 0.0, 0.0]
  const Zero4: seq<real> := [0.0, 0.0, 0.0, 0.0]

  /** The last row of every homogeneous rigid transform. */
  const BottomRow: Vec4 := [0.0, 0.0, 0.0, 1.0]

  /** `np.eye(4)` */
  const Identity4: Mat4 := [[1.0, 0.0, 0.0, 0.0], [0.0, 1.0, 0.0, 0.0], [0.0, 0.0, 1.0, 0.0], BottomRow]

  function Abs(x: real): real { if x < 0.0 then -x else x }

  function Dot3(u: Vec3, v: Vec3): real { u[0] * v[0] + u[1] * v[1] + u[2] * v[2] }

  function Dot4(u: Vec4, v: Vec4): real { u[0] * v[0] + u[1] * v[1] + u[2] * v[2] + u[3] * v[3] }

  function Column3(m: Mat3, j: nat): Vec3
    requires j < 3
  {
    [m[0][j], m[1][j], m[2][j]]
  }

  function Column4(m: Mat4, j: nat): Vec4
    requires j < 4
  {
    [m[0][j], m[1][j], m[2][j], m[3][j]]
  }

  /** `a @ b` for 3x3 matrices */
  function MatMul3(a: Mat3, b: Mat3): Mat3 {
    seq(3, i requires 0 <= i < 3 => seq(3, j requires 0 <= j < 3 => Dot3(a[i], Column3(b, j))))
  }

  /** `a @ v` for a 3x3 matrix and a column 3-vector */
  function MatVec3(a: Mat3, v: Vec3): Vec3 {
    seq(3, i requires 0 <= i < 3 => Dot3(a[i], v))
  }

  function Add3(u: Vec3, v: Vec3): Vec3 {
    seq(3, i requires 0 <= i < 3 => u[i] + v[i])
  }

  /** `s * v`, numpy's scalar broadcast over a column 3-vector */
  function Scale3(s: real, v: Vec3): Vec3 {
    seq(3, i requires 0 <= i < 3 => s * v[i])
  }

  function SquaredNorm3(v: Vec3): real { Dot3(v, v) }

  /** `a @ b` for 4x4 matrices */
  function MatMul4(a: Mat4, b: Mat4): Mat4 {
    seq(4, i requires 0 <= i < 4 => seq(4, j requires 0 <= j < 4 => Dot4(a[i], Column4(b, j))))
  }

  /** `a @ x` for one homogeneous column x */
  function Apply(a: Mat4, x: Vec4): Vec4 {
    seq(4, i requires 0 <= i < 4 => Dot4(a[i], x))
  }

  /** `a @ X` for a 4xN matrix X, held as its N columns */
  function ApplyAll(a: Mat4, xs: seq<Vec4>): (ys: seq<Vec4>)
    ensures |ys| == |xs|
  {
    seq(|xs|, j requires 0 <= j < |xs| => Apply(a, xs[j]))
  }

  /** The homogeneous row (row 3) of a 4xN matrix held as its columns. */
  function HomogeneousRow(xs: seq<Vec4>): (w: seq<real>)
    ensures |w| == |xs|
  {
    seq(|xs|, j requires 0 <= j < |xs| => xs[j][3])
  }

  /** The first three rows of a 4xN matrix held as its columns. */
  function Euclidean(xs: seq<Vec4>): (ps: seq<Vec3>)
    ensures |ps| == |xs|
  {
    seq(|xs|, j requires 0 <= j < |xs| => xs[j][..3])
  }

  /** `__get_T`: the homogeneous transform with rotation block `r`, translation column `t`
      and bottom row [0, 0, 0, 1]. */
  function Homogeneous(r: Mat3, t: Vec3): (h: Mat4)
    ensures forall i, j :: 0 <= i < 3 && 0 <= j < 3 ==> h[i][j] == r[i][j]
    ensures forall i :: 0 <= i < 3 ==> h[i][3] == t[i]
    ensures h[3] == [0.0, 0.0, 0.0, 1.0]
  {
    [r[0] + [t[0]], r[1] + [t[1]], r[2] + [t[2]], BottomRow]
  }

  /** A homogeneous transform leaves the homogeneous row of the points it maps unchanged,
      so both the mapped and the unmapped points may be divided by the same row. */
  lemma ApplyKeepsHomogeneousRow(r: Mat3, t: Vec3, xs: seq<Vec4>)
    ensures HomogeneousRow(ApplyAll(Homogeneous(r, t), xs)) == HomogeneousRow(xs)
  {
    var ys := ApplyAll(Homogeneous(r, t), xs);
    forall j | 0 <= j < |xs|
      ensures ys[j][3] == xs[j][3]
    {
      assert ys[j] == Apply(Homogeneous(r, t), xs[j]);
    }
  }

  /** Composing two rigid transforms: rotations multiply, and the second
      translation is rotated by the first rotation before the first is added. */
  lemma ComposeHomogeneous(r1: Mat3, t1: Vec3, r2: Mat3, t2: Vec3)
    ensures MatMul4(Homogeneous(r1, t1), Homogeneous(r2, t2))
         == Homogeneous(MatMul3(r1, r2), Add3(MatVec3(r1, t2), t1))
  {
    var h1, h2 := Homogeneous(r1, t1), Homogeneous(r2, t2);
    var lhs := MatMul4(h1, h2);
    var rhs := Homogeneous(MatMul3(r1, r2), Add3(MatVec3(r1, t2), t1));
    forall i | 0 <= i < 4
      ensures lhs[i] == rhs[i]
    {
      forall j | 0 <= j < 4
        ensures lhs[i][j] == rhs[i][j]
      {
        assert lhs[i][j] == Dot4(h1[i], Column4(h2, j));
        if j < 3 {
          assert Column4(h2, j) == [r2[0][j], r2[1][j], r2[2][j], 0.0];
        } else {
          assert Column4(h2, j) == [t2[0], t2[1], t2[2], 1.0];
        }
        if i < 3 {
          assert h1[i] == [r1[i][0], r1[i][1], r1[i][2], t1[i]];
          assert rhs[i] == MatMul3(r1, r2)[i] + [Add3(MatVec3(r1, t2), t1)[i]];
          if j < 3 {
            assert rhs[i][j] == Dot3(r1[i], Column3(r2, j));
          } else {
            assert rhs[i][j] == Dot3(r1[i], t2) + t1[i];
          }
        }
      }
    }
  }

  /** A pose whose last row is [0, 0, 0, 1] keeps it when a rigid transform is composed on its right. */
  lemma ComposeKeepsBottomRow(pose: Mat4, r: Mat3, t: Vec3)
    ensures pose[3] == BottomRow ==> MatMul4(pose, Homogeneous(r, t))[3] == BottomRow
  {
    var p := MatMul4(pose, Homogeneous(r, t));
    assert p[3] == seq(4, j requires 0 <= j < 4 => Dot4(pose[3], Column4(Homogeneous(r, t), j)));
  }

  lemma MatMul4RightIdentity(a: Mat4)
    ensures MatMul4(a, Identity4) == a
  {
    var p := MatMul4(a, Identity4);
    forall i | 0 <= i < 4
      ensures p[i] == a[i]
    {
      forall j | 0 <= j < 4
        ensures p[i][j] == a[i][j]
      {
      }
    }
  }

  /** `a * p` for a 4-vector */
  function Scale4(a: real, p: Vec4): Vec4 {
    seq(4, k requires 0 <= k < 4 => a * p[k])
  }

  /** `p + q` for 4-vectors */
  function Add4(p: Vec4, q: Vec4): Vec4 {
    seq(4, k requires 0 <= k < 4 => p[k] + q[k])
  }

  /** The dot product is linear in its first argument. */
  lemma DotLinear(a: real, p: Vec4, q: Vec4, z: Vec4)
    ensures Dot4(Scale4(a, p), z) == a * Dot4(p, z)
    ensures Dot4(Add4(Scale4(a, p), q), z) == a * Dot4(p, z) + Dot4(q, z)
  {
  }

  /** The row vector x Y as a combination of the rows of Y. */
  function Combination(x: Vec4, y: Mat4): Vec4 {
    Add4(Scale4(x[0], y[0]), Add4(Scale4(x[1], y[1]), Add4(Scale4(x[2], y[2]), Scale4(x[3], y[3]))))
  }

  /** x Y computed column by column is the combination of the rows of Y weighted by x. */
  lemma RowTimesMatrix(x: Vec4, y: Mat4)
    ensures seq(4, k requires 0 <= k < 4 => Dot4(x, Column4(y, k))) == Combination(x, y)
  {
    var u := seq(4, k requires 0 <= k < 4 => Dot4(x, Column4(y, k)));
    var w := Combination(x, y);
    forall k | 0 <= k < 4
      ensures u[k] == w[k]
    {
    }
  }

  /** Entry (i, j) of a triple product does not depend on the grouping:
      (x Y) . z == x . (Y z) for a row x, a matrix Y and a column z. */
  lemma DotAssociative(x: Vec4, y: Mat4, z: Vec4)
    ensures Dot4(seq(4, k requires 0 <= k < 4 => Dot4(x, Column4(y, k))), z) == Dot4(x, Apply(y, z))
  {
    RowTimesMatrix(x, y);
    var w3 := Scale4(x[3], y[3]);
    var w2 := Add4(Scale4(x[2], y[2]), w3);
    var w1 := Add4(Scale4(x[1], y[1]), w2);
    DotLinear(x[3], y[3], w3, z);
    DotLinear(x[2], y[2], w3, z);
    DotLinear(x[1], y[1], w2, z);
    DotLinear(x[0], y[0], w1, z);
  }

  lemma MatMul4Associative(a: Mat4, b: Mat4, c: Mat4)
    ensures MatMul4(MatMul4(a, b), c) == MatMul4(a, MatMul4(b, c))
  {
    var lhs := MatMul4(MatMul4(a, b), c);
    var rhs := MatMul4(a, MatMul4(b, c));
    var ab := MatMul4(a, b);
    var bc := MatMul4(b, c);
    forall i | 0 <= i < 4
      ensures lhs[i] == rhs[i]
    {
      forall j | 0 <= j < 4
        ensures lhs[i][j] == rhs[i][j]
      {
        DotAssociative(a[i], b, Column4(c, j));
        assert ab[i] == seq(4, k requires 0 <= k < 4 => Dot4(a[i], Column4(b, k)));
        assert Column4(bc, j) == Apply(b, Column4(c, j));
      }
    }
  }

  /** The pose reached from `pose` by composing `steps` on the right one at a time,
      as each frame of the odometry loop does. */
  function Accumulate(pose: Mat4, steps: seq<Mat4>): Mat4
    decreases |steps|
  {
    if steps == [] then pose else Accumulate(MatMul4(pose, steps[0]), steps[1..])
  }

  /** `steps[0] @ steps[1] @ ... @ steps[n-1]` */
  function Product(steps: seq<Mat4>): Mat4
    decreases |steps|
  {
    if steps == [] then Identity4 else MatMul4(steps[0], Product(steps[1..]))
  }

  /** Frame-by-frame accumulation is the initial pose times the product of all relative transforms. */
  lemma {:induction false} AccumulateIsProduct(pose: Mat4, steps: seq<Mat4>)
    ensures Accumulate(pose, steps) == MatMul4(pose, Product(steps))
    decreases |steps|
  {
    if steps == [] {
      MatMul4RightIdentity(pose);
    } else {
      AccumulateIsProduct(MatMul4(pose, steps[0]), steps[1..]);
      MatMul4Associative(pose, steps[0], Product(steps[1..]));
    }
  }

  /** Processing a sequence in two runs gives the same pose as processing it in one. */
  lemma {:induction false} AccumulateSplit(pose: Mat4, first: seq<Mat4>, rest: seq<Mat4>)
    ensures Accumulate(pose, first + rest) == Accumulate(Accumulate(pose, first), rest)
    decreases |first|
  {
    if first != [] {
      assert (first + rest)[1..] == first[1..] + rest;
      AccumulateSplit(MatMul4(pose, first[0]), first[1..], rest);
    } else {
      assert first + rest == rest;
    }
  }

  /** Scaling a translation scales its squared length by the square of the factor. */
  lemma ScaledSquaredNorm(s: real, v: Vec3)
    ensures SquaredNorm3(Scale3(s, v)) == s * s * SquaredNorm3(v)
  {
    var w := Scale3(s, v);
    assert w[0] == s * v[0] && w[1] == s * v[1] && w[2] == s * v[2];
  }
}
