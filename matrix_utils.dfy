/** 3x3 matrices stored row-major in a flat sequence of nine numbers:
    entry (i, j) sits at index i * 3 + j. Entries are exact reals. */
module MatrixUtils {

  /** Entry (i, j) of a row-major 3x3 matrix. */
  function At(m: seq<real>, i: nat, j: nat): real
    requires i < 3 && j < 3 && |m| >= 9
  {
    m[i * 3 + j]
  }

  /** The row-major identity matrix. */
  function CreateIdentityMatrix(): (m: seq<real>)
    ensures |m| == 9
    ensures forall i: nat, j: nat :: i < 3 && j < 3 ==> At(m, i, j) == if i == j then 1.0 else 0.0
  {
    [1.0, 0.0, 0.0,
     0.0, 1.0, 0.0,
     0.0, 0.0, 1.0]
  }

  /** The first n terms of the dot product of row i of a with column j of b. */
  function DotPrefix(a: seq<real>, b: seq<real>, i: nat, j: nat, n: nat): real
    requires |a| >= 9 && |b| >= 9 && i < 3 && j < 3 && n <= 3
  {
    if n == 0 then 0.0 else DotPrefix(a, b, i, j, n - 1) + At(a, i, n - 1) * At(b, n - 1, j)
  }

  /** Row i of a times column j of b: the sum over k < 3 of a[i*3+k] * b[k*3+j]. */
  function Dot(a: seq<real>, b: seq<real>, i: nat, j: nat): real
    requires |a| >= 9 && |b| >= 9 && i < 3 && j < 3
  {
    DotPrefix(a, b, i, j, 3)
  }

  /** The 3x3 matrix product, as a specification of the loop in MultiplyMatrix. */
  function Multiply(a: seq<real>, b: seq<real>): (c: seq<real>)
    requires |a| >= 9 && |b| >= 9
  {
    seq(9, n requires 0 <= n < 9 => Dot(a, b, n / 3, n % 3))
  }

  lemma DotExpanded(a: seq<real>, b: seq<real>, i: nat, j: nat)
    requires |a| >= 9 && |b| >= 9 && i < 3 && j < 3
    ensures Dot(a, b, i, j) == At(a, i, 0) * At(b, 0, j) + At(a, i, 1) * At(b, 1, j) + At(a, i, 2) * At(b, 2, j)
  {
    assert DotPrefix(a, b, i, j, 1) == At(a, i, 0) * At(b, 0, j);
    assert DotPrefix(a, b, i, j, 2) == DotPrefix(a, b, i, j, 1) + At(a, i, 1) * At(b, 1, j);
  }

  /** Every entry of the product is the row-by-column sum, and nothing else is in it. */
  lemma {:induction false} MultiplyEntries(a: seq<real>, b: seq<real>)
    requires |a| >= 9 && |b| >= 9
    ensures |Multiply(a, b)| == 9
    ensures forall i: nat, j: nat :: i < 3 && j < 3 ==>
      At(Multiply(a, b), i, j) == At(a, i, 0) * At(b, 0, j) + At(a, i, 1) * At(b, 1, j) + At(a, i, 2) * At(b, 2, j)
  {
    forall i: nat, j: nat | i < 3 && j < 3
      ensures At(Multiply(a, b), i, j) == At(a, i, 0) * At(b, 0, j) + At(a, i, 1) * At(b, 1, j) + At(a, i, 2) * At(b, 2, j)
    {
      MultiplyEntry(a, b, i, j);
    }
  }

  /** The product of two 3x3 matrices, computed by the source's triple loop with a
      running sum, written into a fresh nine-entry buffer. Only entries 0..8 of
      each argument are read, so both must have at least nine entries. */
  method MultiplyMatrix(mat1: seq<real>, mat2: seq<real>) returns (result: seq<real>)
    requires |mat1| >= 9 && |mat2| >= 9
    ensures |result| == 9
    ensures result == Multiply(mat1, mat2)
  {
    var buffer := new real[9];
    for i := 0 to 3
      invariant forall n :: 0 <= n < i * 3 ==> buffer[n] == Multiply(mat1, mat2)[n]
    {
      for j := 0 to 3
        invariant forall n :: 0 <= n < i * 3 + j ==> buffer[n] == Multiply(mat1, mat2)[n]
      {
        var sum := 0.0;
        for k := 0 to 3
          invariant sum == DotPrefix(mat1, mat2, i, j, k)
        {
          sum := sum + mat1[i * 3 + k] * mat2[k * 3 + j];
        }
        assert (i * 3 + j) / 3 == i && (i * 3 + j) % 3 == j;
        buffer[i * 3 + j] := sum;
      }
    }
    result := buffer[..];
  }

  /** The product depends only on entries 0..8 of each argument. */
  lemma {:induction false} MultiplyReadsFirstNine(a: seq<real>, a': seq<real>, b: seq<real>, b': seq<real>)
    requires |a| >= 9 && |a'| >= 9 && |b| >= 9 && |b'| >= 9
    requires a[..9] == a'[..9] && b[..9] == b'[..9]
    ensures Multiply(a, b) == Multiply(a', b')
  {
    forall n | 0 <= n < 9
      ensures Multiply(a, b)[n] == Multiply(a', b')[n]
    {
      var i, j := n / 3, n % 3;
      forall k: nat | k < 3
        ensures At(a, i, k) == At(a', i, k) && At(b, k, j) == At(b', k, j)
      {
        assert a[i * 3 + k] == a[..9][i * 3 + k];
        assert a'[i * 3 + k] == a'[..9][i * 3 + k];
        assert b[k * 3 + j] == b[..9][k * 3 + j];
        assert b'[k * 3 + j] == b'[..9][k * 3 + j];
      }
      DotExpanded(a, b, i, j);
      DotExpanded(a', b', i, j);
    }
  }

  /** The identity is a left unit. */
  lemma {:induction false} MultiplyIdentityLeft(m: seq<real>)
    requires |m| == 9
    ensures Multiply(CreateIdentityMatrix(), m) == m
  {
    var id := CreateIdentityMatrix();
    MultiplyEntries(id, m);
    forall n | 0 <= n < 9
      ensures Multiply(id, m)[n] == m[n]
    {
      var i, j := n / 3, n % 3;
      assert n == i * 3 + j;
      assert At(Multiply(id, m), i, j) == At(m, i, j);
    }
  }

  /** The identity is a right unit. */
  lemma {:induction false} MultiplyIdentityRight(m: seq<real>)
    requires |m| == 9
    ensures Multiply(m, CreateIdentityMatrix()) == m
  {
    var id := CreateIdentityMatrix();
    MultiplyEntries(m, id);
    forall n | 0 <= n < 9
      ensures Multiply(m, id)[n] == m[n]
    {
      var i, j := n / 3, n % 3;
      assert n == i * 3 + j;
      assert At(Multiply(m, id), i, j) == At(m, i, j);
    }
  }

  /** Over exact arithmetic the product is associative. */
  lemma {:induction false} MultiplyAssociative(a: seq<real>, b: seq<real>, c: seq<real>)
    requires |a| >= 9 && |b| >= 9 && |c| >= 9
    ensures Multiply(Multiply(a, b), c) == Multiply(a, Multiply(b, c))
  {
    var ab, bc := Multiply(a, b), Multiply(b, c);
    MultiplyEntries(a, b);
    MultiplyEntries(b, c);
    MultiplyEntries(ab, c);
    MultiplyEntries(a, bc);
    forall n | 0 <= n < 9
      ensures Multiply(ab, c)[n] == Multiply(a, bc)[n]
    {
      var i, j := n / 3, n % 3;
      assert n == i * 3 + j;
      AssociativeEntry(a, b, c, i, j);
    }
  }

  /** Entry (i, j) of a product, written out term by term. */
  lemma MultiplyEntry(a: seq<real>, b: seq<real>, i: nat, j: nat)
    requires |a| >= 9 && |b| >= 9 && i < 3 && j < 3
    ensures At(Multiply(a, b), i, j) == At(a, i, 0) * At(b, 0, j) + At(a, i, 1) * At(b, 1, j) + At(a, i, 2) * At(b, 2, j)
  {
    assert (i * 3 + j) / 3 == i && (i * 3 + j) % 3 == j;
    DotExpanded(a, b, i, j);
  }

  /** The sum over k and l of a[i][k] * b[k][l] * c[l][j], written out. */
  function TripleSum(a: seq<real>, b: seq<real>, c: seq<real>, i: nat, j: nat): real
    requires |a| >= 9 && |b| >= 9 && |c| >= 9 && i < 3 && j < 3
  {
      At(a, i, 0) * At(b, 0, 0) * At(c, 0, j) + At(a, i, 0) * At(b, 0, 1) * At(c, 1, j) + At(a, i, 0) * At(b, 0, 2) * At(c, 2, j)
    + At(a, i, 1) * At(b, 1, 0) * At(c, 0, j) + At(a, i, 1) * At(b, 1, 1) * At(c, 1, j) + At(a, i, 1) * At(b, 1, 2) * At(c, 2, j)
    + At(a, i, 2) * At(b, 2, 0) * At(c, 0, j) + At(a, i, 2) * At(b, 2, 1) * At(c, 1, j) + At(a, i, 2) * At(b, 2, 2) * At(c, 2, j)
  }

  lemma LeftProductExpanded(a: seq<real>, b: seq<real>, c: seq<real>, i: nat, j: nat)
    requires |a| >= 9 && |b| >= 9 && |c| >= 9 && i < 3 && j < 3
    ensures At(Multiply(Multiply(a, b), c), i, j) == TripleSum(a, b, c, i, j)
  {
    var ab := Multiply(a, b);
    MultiplyEntry(ab, c, i, j);
    MultiplyEntry(a, b, i, 0);
    MultiplyEntry(a, b, i, 1);
    MultiplyEntry(a, b, i, 2);
  }

  lemma RightProductExpanded(a: seq<real>, b: seq<real>, c: seq<real>, i: nat, j: nat)
    requires |a| >= 9 && |b| >= 9 && |c| >= 9 && i < 3 && j < 3
    ensures At(Multiply(a, Multiply(b, c)), i, j) == TripleSum(a, b, c, i, j)
  {
    var bc := Multiply(b, c);
    MultiplyEntry(a, bc, i, j);
    MultiplyEntry(b, c, 0, j);
    MultiplyEntry(b, c, 1, j);
    MultiplyEntry(b, c, 2, j);
  }

  /** One entry of the associativity law: both sides are the same nine triple products. */
  lemma AssociativeEntry(a: seq<real>, b: seq<real>, c: seq<real>, i: nat, j: nat)
    requires |a| >= 9 && |b| >= 9 && |c| >= 9 && i < 3 && j < 3
    ensures At(Multiply(Multiply(a, b), c), i, j) == At(Multiply(a, Multiply(b, c)), i, j)
  {
    LeftProductExpanded(a, b, c, i, j);
    RightProductExpanded(a, b, c, i, j);
  }
}
