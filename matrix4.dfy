/** Real 4x4 matrices as sequences of rows, with the product used by forward kinematics. */
module Matrix4 {

  type Matrix = seq<seq<real>>

  /** Four rows of four entries each. */
  predicate Is4x4(m: Matrix)
  {
    |m| == 4 && forall i :: 0 <= i < 4 ==> |m[i]| == 4
  }

  /** The 4x4 identity matrix. */
  function Identity(): (r: Matrix)
    ensures Is4x4(r)
    ensures forall i, j :: 0 <= i < 4 && 0 <= j < 4 ==> r[i][j] == if i == j then 1.0 else 0.0
  {
    [[1.0, 0.0, 0.0, 0.0],
     [0.0, 1.0, 0.0, 0.0],
     [0.0, 0.0, 1.0, 0.0],
     [0.0, 0.0, 0.0, 1.0]]
  }

  /** Entry (i, j) of the product a·b: row i of a against column j of b. */
  function Dot(a: Matrix, b: Matrix, i: int, j: int): real
    requires Is4x4(a) && Is4x4(b) && 0 <= i < 4 && 0 <= j < 4
  {
    a[i][0] * b[0][j] + a[i][1] * b[1][j] + a[i][2] * b[2][j] + a[i][3] * b[3][j]
  }

  /** The matrix product a·b. */
  function Mul(a: Matrix, b: Matrix): (r: Matrix)
    requires Is4x4(a) && Is4x4(b)
    ensures Is4x4(r)
    ensures forall i, j :: 0 <= i < 4 && 0 <= j < 4 ==> r[i][j] == Dot(a, b, i, j)
  {
    seq(4, i requires 0 <= i < 4 => seq(4, j requires 0 <= j < 4 => Dot(a, b, i, j)))
  }

  /** Two 4x4 matrices are equal when all their entries are. */
  lemma EqualByEntries(a: Matrix, b: Matrix)
    requires Is4x4(a) && Is4x4(b)
    requires forall i, j :: 0 <= i < 4 && 0 <= j < 4 ==> a[i][j] == b[i][j]
    ensures a == b
  {
    forall i | 0 <= i < 4
      ensures a[i] == b[i]
    {
      assert forall j :: 0 <= j < 4 ==> a[i][j] == b[i][j];
    }
  }

  /** The identity is neutral on the left of a product. */
  lemma MulIdentityLeft(m: Matrix)
    requires Is4x4(m)
    ensures Mul(Identity(), m) == m
  {
    var r := Mul(Identity(), m);
    forall i, j | 0 <= i < 4 && 0 <= j < 4
      ensures r[i][j] == m[i][j]
    {
      var id := Identity();
      assert r[i][j] == id[i][0] * m[0][j] + id[i][1] * m[1][j] + id[i][2] * m[2][j] + id[i][3] * m[3][j];
    }
    EqualByEntries(r, m);
  }
}
