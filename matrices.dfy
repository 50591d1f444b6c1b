/**
 * The dynamic-shape `Matrix` of src/tdutil.rs. Storage is `values[row][col]`
 * and the logical size is the pair (cols, rows), the source's `size = [cols, rows]`.
 *
 * Storage and logical size differ: `New(cols, rows)` allocates rows + 1 rows of
 * cols + 1 zeros, so every matrix built through `New` or `FromFn` (the results of
 * `Add`, `Transpose` and `Dot`) carries one padding row and one padding column of
 * zeros outside its logical size. `FromArr` allocates exactly the size it records.
 *
 * Matrices are values here: in the source each one is owned by exactly one
 * variable or field, so the in-place `set` is modelled as a functional update.
 */
module Matrices {

  datatype Matrix = Matrix(values: seq<seq<real>>, cols: nat, rows: nat)

  /** (x, y) addresses a stored entry: `values[y][x]` does not panic. */
  predicate InStorage(m: Matrix, x: nat, y: nat) {
    y < |m.values| && x < |m.values[y]|
  }

  /** Every logical entry is stored. Every matrix the source can build satisfies this. */
  predicate Valid(m: Matrix) {
    m.rows <= |m.values| && forall y :: 0 <= y < |m.values| ==> m.cols <= |m.values[y]|
  }

  /** The storage shape that `new` allocates: (rows + 1) x (cols + 1), zero outside the logical size. */
  predicate Padded(m: Matrix) {
    && |m.values| == m.rows + 1
    && (forall y :: 0 <= y < |m.values| ==> |m.values[y]| == m.cols + 1)
    && (forall y, x :: 0 <= y < |m.values| && 0 <= x < |m.values[y]| && (x == m.cols || y == m.rows) ==>
          m.values[y][x] == 0.0)
  }

  /** `get(&vec![x, y])`: panics outside the storage. */
  function Get(m: Matrix, x: nat, y: nat): real
    requires InStorage(m, x, y)
  {
    m.values[y][x]
  }

  /** `set(&vec![x, y], v)`, as a functional update of the storage. */
  function Set(m: Matrix, x: nat, y: nat, v: real): (r: Matrix)
    requires InStorage(m, x, y)
    ensures r.cols == m.cols && r.rows == m.rows && |r.values| == |m.values|
    ensures forall j :: 0 <= j < |m.values| ==> |r.values[j]| == |m.values[j]|
    ensures Get(r, x, y) == v
    ensures forall j: nat, i: nat :: InStorage(m, i, j) && (i != x || j != y) ==> Get(r, i, j) == Get(m, i, j)
  {
    m.(values := m.values[y := m.values[y][x := v]])
  }

  function Zeros(n: nat): (r: seq<real>)
    ensures |r| == n && forall i :: 0 <= i < n ==> r[i] == 0.0
  {
    seq(n, _ => 0.0)
  }

  /** `Matrix::new(vec![cols, rows])`: size (cols, rows), storage (rows + 1) x (cols + 1), all zero. */
  function New(cols: nat, rows: nat): (m: Matrix)
    ensures m.cols == cols && m.rows == rows && Valid(m) && Padded(m)
    ensures forall y: nat, x: nat :: InStorage(m, x, y) ==> Get(m, x, y) == 0.0
  {
    Matrix(seq(rows + 1, _ => Zeros(cols + 1)), cols, rows)
  }

  /** Two matrices with the same size, storage shape and stored entries are equal. */
  lemma Extensionality(m1: Matrix, m2: Matrix)
    requires m1.cols == m2.cols && m1.rows == m2.rows && |m1.values| == |m2.values|
    requires forall y :: 0 <= y < |m1.values| ==> |m1.values[y]| == |m2.values[y]|
    requires forall y: nat, x: nat :: InStorage(m1, x, y) ==> Get(m1, x, y) == Get(m2, x, y)
    ensures m1 == m2
  {
    forall y | 0 <= y < |m1.values|
      ensures m1.values[y] == m2.values[y]
    {
      forall x | 0 <= x < |m1.values[y]|
        ensures m1.values[y][x] == m2.values[y][x]
      {
        assert InStorage(m1, x, y) && Get(m1, x, y) == Get(m2, x, y);
      }
    }
  }

  /* ---------------------------------------------------------------- from_arr */

  function PadRow(r: seq<real>, w: nat): (p: seq<real>)
    requires |r| <= w
    ensures |p| == w
    ensures forall x :: 0 <= x < w ==> p[x] == if x < |r| then r[x] else 0.0
  {
    r + Zeros(w - |r|)
  }

  /** The rows `from_arr` accepts: at least one row (row 0 gives the width), none longer than row 0. */
  predicate Literal(a: seq<seq<real>>) {
    |a| > 0 && forall y :: 0 <= y < |a| ==> |a[y]| <= |a[0]|
  }

  /**
   * The matrix `from_arr(a)` builds: size (|a[0]|, |a|), storage exactly that size,
   * entry (x, y) equal to a[y][x], and zero where a shorter row leaves no value.
   */
  function FromRows(a: seq<seq<real>>): (m: Matrix)
    requires Literal(a)
    ensures m.cols == |a[0]| && m.rows == |a| && Valid(m)
    ensures |m.values| == |a| && forall y :: 0 <= y < |a| ==> |m.values[y]| == |a[0]|
    ensures forall y: nat, x: nat :: y < |a| && x < |a[0]| ==>
              Get(m, x, y) == if x < |a[y]| then a[y][x] else 0.0
  {
    Matrix(seq(|a|, (y: int) requires 0 <= y < |a| => PadRow(a[y], |a[0]|)), |a[0]|, |a|)
  }

  /** `from_arr` on rows of equal length: every entry is read back unchanged. */
  lemma FromRowsGet(a: seq<seq<real>>, x: nat, y: nat)
    requires |a| > 0 && forall j :: 0 <= j < |a| ==> |a[j]| == |a[0]|
    requires y < |a| && x < |a[0]|
    ensures FromRows(a).cols == |a[0]| && FromRows(a).rows == |a|
    ensures Get(FromRows(a), x, y) == a[y][x]
  {
  }

  /** `Matrix::from_arr`: a zero-filled |a| x |a[0]| buffer filled row by row with counters x, y. */
  method FromArr(a: seq<seq<real>>) returns (m: Matrix)
    requires Literal(a)
    ensures m == FromRows(a)
  {
    var s0 := |a|;
    var s1 := |a[0]|;
    var v := seq(s0, _ => Zeros(s1));
    var x, y := 0, 0;
    while y < s0
      invariant 0 <= y <= s0 && |v| == s0
      invariant forall j :: 0 <= j < y ==> v[j] == PadRow(a[j], s1)
      invariant forall j :: y <= j < s0 ==> v[j] == Zeros(s1)
    {
      while x < |a[y]|
        invariant 0 <= x <= |a[y]| && |v| == s0
        invariant forall j :: 0 <= j < y ==> v[j] == PadRow(a[j], s1)
        invariant forall j :: y < j < s0 ==> v[j] == Zeros(s1)
        invariant v[y] == a[y][..x] + Zeros(s1 - x)
      {
        assert a[y][..x + 1] + Zeros(s1 - x - 1) == (a[y][..x] + Zeros(s1 - x))[x := a[y][x]];
        v := v[y := v[y][x := a[y][x]]];
        x := x + 1;
      }
      assert a[y][..x] == a[y];
      x := 0;
      y := y + 1;
    }
    m := Matrix(v, s1, s0);
  }

  /* ------------------------------------------------------------------ from_fn */

  /** An entry function callable at every logical position of a cols x rows matrix. */
  ghost predicate DefinedOn(f: (nat, nat) --> real, cols: nat, rows: nat) {
    forall x: nat, y: nat :: x < cols && y < rows ==> f.requires(x, y)
  }

  /** The matrix `from_fn(vec![cols, rows], f)` builds: padded storage, f(x, y) at each logical entry. */
  function Tabulate(cols: nat, rows: nat, f: (nat, nat) --> real): (m: Matrix)
    requires DefinedOn(f, cols, rows)
    ensures m.cols == cols && m.rows == rows && Valid(m) && Padded(m)
    ensures forall y: nat, x: nat :: x < cols && y < rows ==> Get(m, x, y) == f(x, y)
  {
    Matrix(seq(rows + 1, (y: int) requires 0 <= y <= rows =>
             seq(cols + 1, (x: int) requires 0 <= x <= cols =>
               if x < cols && y < rows then f(x, y) else 0.0)),
           cols, rows)
  }

  /** `Matrix::from_fn`: starts from `new` and sets every logical entry, column by column. */
  method FromFn(cols: nat, rows: nat, f: (nat, nat) --> real) returns (m: Matrix)
    requires DefinedOn(f, cols, rows)
    ensures m == Tabulate(cols, rows, f)
  {
    m := New(cols, rows);
    for x := 0 to cols
      invariant m.cols == cols && m.rows == rows && Valid(m) && Padded(m)
      invariant forall j: nat, i: nat :: InStorage(m, i, j) ==>
                  Get(m, i, j) == if i < x && j < rows then f(i, j) else 0.0
    {
      for y := 0 to rows
        invariant m.cols == cols && m.rows == rows && Valid(m) && Padded(m)
        invariant forall j: nat, i: nat :: InStorage(m, i, j) ==>
                    Get(m, i, j) == if (i < x && j < rows) || (i == x && j < y) then f(i, j) else 0.0
      {
        m := Set(m, x, y, f(x, y));
      }
    }
    Extensionality(m, Tabulate(cols, rows, f));
  }

  /* ---------------------------------------------------------------------- add */

  /** The closure `|c| self.get(&c) + other.get(&c)`. */
  function SumAt(a: Matrix, b: Matrix): (f: (nat, nat) --> real)
    requires Valid(a) && Valid(b) && a.cols == b.cols && a.rows == b.rows
    ensures DefinedOn(f, a.cols, a.rows)
  {
    (x: nat, y: nat) requires x < a.cols && y < a.rows => Get(a, x, y) + Get(b, x, y)
  }

  /** `a.add(&b)`: same size as both operands, each logical entry the sum of theirs. */
  function MatAdd(a: Matrix, b: Matrix): (r: Matrix)
    requires Valid(a) && Valid(b) && a.cols == b.cols && a.rows == b.rows
    ensures r.cols == a.cols && r.rows == a.rows && Valid(r) && Padded(r)
    ensures forall y: nat, x: nat :: x < a.cols && y < a.rows ==> Get(r, x, y) == Get(a, x, y) + Get(b, x, y)
  {
    Tabulate(a.cols, a.rows, SumAt(a, b))
  }

  /** `Matrix::add`; the `assert_eq!` on the sizes becomes the precondition. */
  method Add(a: Matrix, b: Matrix) returns (r: Matrix)
    requires Valid(a) && Valid(b) && a.cols == b.cols && a.rows == b.rows
    ensures r == MatAdd(a, b)
  {
    r := FromFn(a.cols, a.rows, SumAt(a, b));
  }

  /* ---------------------------------------------------------------- transpose */

  /** The closure `|p| self.get(&vec![p[1], p[0]])`. */
  function SwappedAt(m: Matrix): (f: (nat, nat) --> real)
    requires Valid(m)
    ensures DefinedOn(f, m.rows, m.cols)
  {
    (x: nat, y: nat) requires x < m.rows && y < m.cols => Get(m, y, x)
  }

  /** `m.transpose()`: the size pair swapped and entry (x, y) taken from (y, x). */
  function MatTranspose(m: Matrix): (t: Matrix)
    requires Valid(m)
    ensures t.cols == m.rows && t.rows == m.cols && Valid(t) && Padded(t)
    ensures forall y: nat, x: nat :: x < m.rows && y < m.cols ==> Get(t, x, y) == Get(m, y, x)
  {
    Tabulate(m.rows, m.cols, SwappedAt(m))
  }

  /** `Matrix::transpose`. */
  method Transpose(m: Matrix) returns (t: Matrix)
    requires Valid(m)
    ensures t == MatTranspose(m)
  {
    t := FromFn(m.rows, m.cols, SwappedAt(m));
  }

  /** Transposing twice restores the size and every logical entry. */
  lemma TransposeTwice(m: Matrix)
    requires Valid(m)
    ensures var t := MatTranspose(MatTranspose(m));
            t.cols == m.cols && t.rows == m.rows &&
            forall y: nat, x: nat :: x < m.cols && y < m.rows ==> Get(t, x, y) == Get(m, x, y)
  {
    var t1 := MatTranspose(m);
    var t2 := MatTranspose(t1);
    forall y: nat, x: nat | x < m.cols && y < m.rows
      ensures Get(t2, x, y) == Get(m, x, y)
    {
      assert Get(t2, x, y) == Get(t1, y, x);
    }
  }

  /** On a matrix with padded storage (any result of `new`/`from_fn`), transposing twice is the identity. */
  lemma TransposeInvolution(m: Matrix)
    requires Valid(m) && Padded(m)
    ensures MatTranspose(MatTranspose(m)) == m
  {
    var t2 := MatTranspose(MatTranspose(m));
    TransposeTwice(m);
    forall y: nat, x: nat | InStorage(t2, x, y)
      ensures Get(t2, x, y) == Get(m, x, y)
    {
      if x < m.cols && y < m.rows {
      } else {
        assert Get(t2, x, y) == 0.0 && m.values[y][x] == 0.0;
      }
    }
    Extensionality(t2, m);
  }

  /* ---------------------------------------------------------------------- dot */

  /** The running `sum` of `dot` after its inner loop has seen x1 = 0 .. n - 1. */
  function PartialDot(a: Matrix, b: Matrix, x2: nat, y1: nat, n: nat): real
    requires Valid(a) && Valid(b) && n <= a.cols && n <= b.rows && x2 < b.cols && y1 < a.rows
  {
    if n == 0 then 0.0 else PartialDot(a, b, x2, y1, n - 1) + Get(a, n - 1, y1) * Get(b, x2, n - 1)
  }

  /** Entry (x2, y1) of the product: the sum over x1 < a.cols of a(x1, y1) * b(x2, x1). */
  function DotEntry(a: Matrix, b: Matrix, x2: nat, y1: nat): real
    requires Valid(a) && Valid(b) && a.cols == b.rows && x2 < b.cols && y1 < a.rows
  {
    PartialDot(a, b, x2, y1, a.cols)
  }

  function ProductAt(a: Matrix, b: Matrix): (f: (nat, nat) --> real)
    requires Valid(a) && Valid(b) && a.cols == b.rows
    ensures DefinedOn(f, b.cols, a.rows)
  {
    (x: nat, y: nat) requires x < b.cols && y < a.rows => DotEntry(a, b, x, y)
  }

  /** `a.dot(&b)`: size (b.cols, a.rows), padded storage, entry (x2, y1) the row-by-column sum. */
  function MatMul(a: Matrix, b: Matrix): (r: Matrix)
    requires Valid(a) && Valid(b) && a.cols == b.rows
    ensures r.cols == b.cols && r.rows == a.rows && Valid(r) && Padded(r)
    ensures forall y: nat, x: nat :: x < b.cols && y < a.rows ==> Get(r, x, y) == DotEntry(a, b, x, y)
  {
    Tabulate(b.cols, a.rows, ProductAt(a, b))
  }

  /**
   * `Matrix::dot`: a triple loop over y1, x2 and x1 into a fresh `new` matrix.
   * The source does not check a.cols == b.rows; the intended use is the precondition.
   */
  method Dot(a: Matrix, b: Matrix) returns (r: Matrix)
    requires Valid(a) && Valid(b) && a.cols == b.rows
    ensures r == MatMul(a, b)
  {
    r := New(b.cols, a.rows);
    for y1 := 0 to a.rows
      invariant r.cols == b.cols && r.rows == a.rows && Valid(r) && Padded(r)
      invariant forall j: nat, i: nat :: InStorage(r, i, j) ==>
                  Get(r, i, j) == if i < b.cols && j < y1 then DotEntry(a, b, i, j) else 0.0
    {
      for x2 := 0 to b.cols
        invariant r.cols == b.cols && r.rows == a.rows && Valid(r) && Padded(r)
        invariant forall j: nat, i: nat :: InStorage(r, i, j) ==>
                    Get(r, i, j) == if i < b.cols && (j < y1 || (j == y1 && i < x2)) then DotEntry(a, b, i, j) else 0.0
      {
        var sum := 0.0;
        for x1 := 0 to a.cols
          invariant sum == PartialDot(a, b, x2, y1, x1)
        {
          sum := sum + Get(a, x1, y1) * Get(b, x2, x1);
        }
        r := Set(r, x2, y1, sum);
      }
    }
    Extensionality(r, MatMul(a, b));
  }

  /* ------------------------------------------------------- associativity */

  /** The double sum over j < m and k < n of a(j, y) * b(k, j) * c(x, k), grouped by j. */
  function DoubleSum(a: Matrix, b: Matrix, c: Matrix, x: nat, y: nat, m: nat, n: nat): real
    requires Valid(a) && Valid(b) && Valid(c) && a.cols == b.rows && b.cols == c.rows
    requires m <= a.cols && n <= b.cols && x < c.cols && y < a.rows
  {
    if m == 0 then 0.0 else DoubleSum(a, b, c, x, y, m - 1, n) + Get(a, m - 1, y) * PartialDot(b, c, x, m - 1, n)
  }

  /** Peeling the last k = n - 1 off every inner sum peels one term, grouped by k, off the double sum. */
  lemma {:induction false} DoubleSumStep(a: Matrix, b: Matrix, c: Matrix, x: nat, y: nat, m: nat, n: nat)
    requires Valid(a) && Valid(b) && Valid(c) && a.cols == b.rows && b.cols == c.rows
    requires m <= a.cols && 0 < n <= b.cols && x < c.cols && y < a.rows
    ensures DoubleSum(a, b, c, x, y, m, n) ==
              DoubleSum(a, b, c, x, y, m, n - 1) + PartialDot(a, b, n - 1, y, m) * Get(c, x, n - 1)
  {
    if m > 0 {
      DoubleSumStep(a, b, c, x, y, m - 1, n);
      var aj := Get(a, m - 1, y);
      var bk := Get(b, n - 1, m - 1);
      var ck := Get(c, x, n - 1);
      assert PartialDot(b, c, x, m - 1, n) == PartialDot(b, c, x, m - 1, n - 1) + bk * ck;
      assert aj * (PartialDot(b, c, x, m - 1, n - 1) + bk * ck) == aj * PartialDot(b, c, x, m - 1, n - 1) + aj * bk * ck;
      assert (PartialDot(a, b, n - 1, y, m - 1) + aj * bk) * ck == PartialDot(a, b, n - 1, y, m - 1) * ck + aj * bk * ck;
    }
  }

  /** The first n terms of (a . b) . c at (x, y), summed over k, are the double sum grouped by j. */
  lemma {:induction false} LeftGrouping(a: Matrix, b: Matrix, c: Matrix, x: nat, y: nat, n: nat)
    requires Valid(a) && Valid(b) && Valid(c) && a.cols == b.rows && b.cols == c.rows
    requires n <= b.cols && x < c.cols && y < a.rows
    ensures PartialDot(MatMul(a, b), c, x, y, n) == DoubleSum(a, b, c, x, y, a.cols, n)
  {
    if n == 0 {
      ZeroInner(a, b, c, x, y, a.cols);
    } else {
      LeftGrouping(a, b, c, x, y, n - 1);
      DoubleSumStep(a, b, c, x, y, a.cols, n);
    }
  }

  /** With no inner terms the double sum is zero. */
  lemma {:induction false} ZeroInner(a: Matrix, b: Matrix, c: Matrix, x: nat, y: nat, m: nat)
    requires Valid(a) && Valid(b) && Valid(c) && a.cols == b.rows && b.cols == c.rows
    requires m <= a.cols && x < c.cols && y < a.rows
    ensures DoubleSum(a, b, c, x, y, m, 0) == 0.0
  {
    if m > 0 {
      ZeroInner(a, b, c, x, y, m - 1);
    }
  }

  /** The first m terms of a . (b . c) at (x, y), summed over j, are the double sum grouped by j. */
  lemma {:induction false} RightGrouping(a: Matrix, b: Matrix, c: Matrix, x: nat, y: nat, m: nat)
    requires Valid(a) && Valid(b) && Valid(c) && a.cols == b.rows && b.cols == c.rows
    requires m <= a.cols && x < c.cols && y < a.rows
    ensures PartialDot(a, MatMul(b, c), x, y, m) == DoubleSum(a, b, c, x, y, m, b.cols)
  {
    if m > 0 {
      RightGrouping(a, b, c, x, y, m - 1);
    }
  }

  /** `dot` is associative on every logical entry. */
  lemma MatMulAssociativeAt(a: Matrix, b: Matrix, c: Matrix, x: nat, y: nat)
    requires Valid(a) && Valid(b) && Valid(c) && a.cols == b.rows && b.cols == c.rows
    requires x < c.cols && y < a.rows
    ensures Get(MatMul(MatMul(a, b), c), x, y) == Get(MatMul(a, MatMul(b, c)), x, y)
  {
    LeftGrouping(a, b, c, x, y, b.cols);
    RightGrouping(a, b, c, x, y, a.cols);
  }

  /** `dot` is associative: (a . b) . c and a . (b . c) are the same matrix, padding included. */
  lemma MatMulAssociative(a: Matrix, b: Matrix, c: Matrix)
    requires Valid(a) && Valid(b) && Valid(c) && a.cols == b.rows && b.cols == c.rows
    ensures MatMul(MatMul(a, b), c) == MatMul(a, MatMul(b, c))
  {
    var l := MatMul(MatMul(a, b), c);
    var r := MatMul(a, MatMul(b, c));
    forall y: nat, x: nat | InStorage(l, x, y)
      ensures Get(l, x, y) == Get(r, x, y)
    {
      if x < c.cols && y < a.rows {
        MatMulAssociativeAt(a, b, c, x, y);
      } else {
        assert Get(l, x, y) == 0.0 && r.values[y][x] == 0.0;
      }
    }
    Extensionality(l, r);
  }
}
