/** Dense arrays laid out in row-major order, the way numpy stores the
    signal: a shape vector and the flat sequence of elements. The last axis
    is the sample axis; everything before it indexes "rows". */
module Tensors {

  /** Multiplication of naturals, written out by recursion. Shapes, offsets
      and chunk counts are all products; keeping them behind this function
      (and the lemmas below) keeps the solver's nonlinear arithmetic out of
      the proofs about tensors. MulIsProduct ties it to `*`. */
  function Mul(a: nat, b: nat): nat
  {
    if a == 0 then 0 else Mul(a - 1, b) + b
  }

  lemma {:induction false} MulIsProduct(a: nat, b: nat)
    ensures Mul(a, b) == a * b
  {
    if a > 0 {
      MulIsProduct(a - 1, b);
      assert (a - 1) * b + b == a * b;
    }
  }

  lemma {:induction false} MulSucc(a: nat, b: nat)
    ensures Mul(a + 1, b) == Mul(a, b) + b
  {
  }

  lemma {:induction false} MulZeroRight(a: nat)
    ensures Mul(a, 0) == 0
  {
    if a > 0 {
      MulZeroRight(a - 1);
    }
  }

  lemma {:induction false} MulOneRight(a: nat)
    ensures Mul(a, 1) == a
  {
    if a > 0 {
      MulOneRight(a - 1);
    }
  }

  lemma {:induction false} MulOneLeft(b: nat)
    ensures Mul(1, b) == b
  {
    assert Mul(1, b) == Mul(0, b) + b;
  }

  /** (a + b) * c == a * c + b * c */
  lemma {:induction false} MulAddLeft(a: nat, b: nat, c: nat)
    ensures Mul(a + b, c) == Mul(a, c) + Mul(b, c)
  {
    if b > 0 {
      MulAddLeft(a, b - 1, c);
      MulSucc(a + b - 1, c);
      MulSucc(b - 1, c);
    }
  }

  /** a * (b + 1) == a * b + a */
  lemma {:induction false} MulSuccRight(a: nat, b: nat)
    ensures Mul(a, b + 1) == Mul(a, b) + a
  {
    if a > 0 {
      MulSuccRight(a - 1, b);
    }
  }

  lemma {:induction false} MulComm(a: nat, b: nat)
    ensures Mul(a, b) == Mul(b, a)
  {
    if a == 0 {
      MulZeroRight(b);
    } else {
      MulComm(a - 1, b);
      MulSuccRight(b, a - 1);
    }
  }

  lemma {:induction false} MulAssoc(a: nat, b: nat, c: nat)
    ensures Mul(Mul(a, b), c) == Mul(a, Mul(b, c))
  {
    if a > 0 {
      MulAssoc(a - 1, b, c);
      MulAddLeft(Mul(a - 1, b), b, c);
    }
  }

  lemma {:induction false} MulMonotone(a: nat, b: nat, c: nat)
    requires a <= b
    ensures Mul(a, c) <= Mul(b, c)
  {
    if a < b {
      MulMonotone(a, b - 1, c);
    }
  }

  lemma {:induction false} MulMonotoneRight(a: nat, b: nat, c: nat)
    requires b <= c
    ensures Mul(a, b) <= Mul(a, c)
  {
    MulComm(a, b);
    MulComm(a, c);
    MulMonotone(b, c, a);
  }

  /** Row r of `rows` rows of width w ends within the array. */
  lemma {:induction false} MulBound(r: nat, rows: nat, w: nat)
    requires r < rows
    ensures Mul(r, w) + w <= Mul(rows, w)
  {
    MulSucc(r, w);
    MulMonotone(r + 1, rows, w);
  }

  /** With a positive factor, products are ordered like their other factors. */
  lemma {:induction false} MulStrict(a: nat, b: nat, c: nat)
    requires c > 0 && Mul(a, c) < Mul(b, c)
    ensures a < b
  {
    if b <= a {
      MulMonotone(b, a, c);
    }
  }

  /** A dense array: its shape and its elements in row-major order. */
  datatype Tensor = Tensor(shape: seq<nat>, data: seq<real>)

  /** Number of elements of an array of the given shape (1 for a scalar). */
  function Product(shape: seq<nat>): nat
  {
    if shape == [] then 1 else Mul(Product(shape[..|shape| - 1]), shape[|shape| - 1])
  }

  /** The data holds exactly one element per index of the shape. */
  predicate Valid(t: Tensor)
  {
    |t.data| == Product(t.shape)
  }

  /** A valid array with at least one axis, so that it has a sample axis. */
  predicate HasSampleAxis(t: Tensor)
  {
    Valid(t) && |t.shape| >= 1
  }

  /** Length of the last (sample) axis. */
  function Width(t: Tensor): nat
    requires |t.shape| >= 1
  {
    t.shape[|t.shape| - 1]
  }

  /** All axes but the last. */
  function Leading(t: Tensor): seq<nat>
    requires |t.shape| >= 1
  {
    t.shape[..|t.shape| - 1]
  }

  /** Number of rows along the sample axis: the product of the leading axes. */
  function RowCount(t: Tensor): nat
    requires |t.shape| >= 1
  {
    Product(Leading(t))
  }

  /** Appending an axis multiplies the element count by its length. */
  lemma {:induction false} ProductSnoc(shape: seq<nat>, n: nat)
    ensures Product(shape + [n]) == Mul(Product(shape), n)
  {
    assert (shape + [n])[..|shape|] == shape;
  }

  /** The elements of a tensor are its rows laid end to end. */
  lemma {:induction false} DataLength(t: Tensor)
    requires HasSampleAxis(t)
    ensures |t.data| == Mul(RowCount(t), Width(t))
  {
    ProductSnoc(Leading(t), Width(t));
    assert Leading(t) + [Width(t)] == t.shape;
  }

  /** Row r of a tensor: the samples of the r-th one-dimensional slice along
      the last axis. */
  function Row(t: Tensor, r: nat): (row: seq<real>)
    requires HasSampleAxis(t) && r < RowCount(t)
    ensures |row| == Width(t)
  {
    DataLength(t);
    MulBound(r, RowCount(t), Width(t));
    seq(Width(t), j requires 0 <= j < Width(t) => t.data[Mul(r, Width(t)) + j])
  }

  /** Row r of a tensor whose rows are w long is the data from r*w to
      (r+1)*w. */
  lemma {:induction false} RowAt(t: Tensor, r: nat, w: nat)
    requires HasSampleAxis(t) && r < RowCount(t) && Width(t) == w
    ensures Mul(r, w) + w <= |t.data|
    ensures Row(t, r) == t.data[Mul(r, w) .. Mul(r, w) + w]
  {
    DataLength(t);
    MulBound(r, RowCount(t), w);
    var row := Row(t, r);
    var slice := t.data[Mul(r, w) .. Mul(r, w) + w];
    forall j | 0 <= j < w ensures row[j] == slice[j] {
    }
  }

  /** `n` zero samples, the constant numpy pads with. */
  function Zeros(n: nat): (z: seq<real>)
    ensures |z| == n && forall i :: 0 <= i < n ==> z[i] == 0.0
  {
    seq(n, _ => 0.0)
  }

  /** Concatenation of a sequence of sequences, in order. */
  function Concat<X>(xss: seq<seq<X>>): seq<X>
  {
    if xss == [] then [] else Concat(xss[..|xss| - 1]) + xss[|xss| - 1]
  }

  /** Concatenating blocks of equal length `w` gives `|xss| * w` elements. */
  lemma {:induction false} ConcatLength<X>(xss: seq<seq<X>>, w: nat)
    requires forall i :: 0 <= i < |xss| ==> |xss[i]| == w
    ensures |Concat(xss)| == Mul(|xss|, w)
  {
    if xss != [] {
      var n := |xss| - 1;
      ConcatLength(xss[..n], w);
      MulSucc(n, w);
    }
  }

  /** Block r of a concatenation of equal-length blocks occupies positions
      [r*w, (r+1)*w). */
  lemma {:induction false} ConcatBlock<X>(xss: seq<seq<X>>, w: nat, r: nat)
    requires forall i :: 0 <= i < |xss| ==> |xss[i]| == w
    requires r < |xss|
    ensures Mul(r, w) + w <= |Concat(xss)|
    ensures Concat(xss)[Mul(r, w) .. Mul(r, w) + w] == xss[r]
  {
    var n := |xss| - 1;
    var init := xss[..n];
    ConcatLength(init, w);
    assert Concat(xss) == Concat(init) + xss[n];
    if r < n {
      ConcatBlock(init, w, r);
      MulBound(r, n, w);
    }
  }

  /** Element j of block r of a concatenation of equal-length blocks. */
  lemma {:induction false} ConcatAt<X>(xss: seq<seq<X>>, w: nat, r: nat, j: nat)
    requires forall i :: 0 <= i < |xss| ==> |xss[i]| == w
    requires r < |xss| && j < w
    ensures Mul(r, w) + j < |Concat(xss)|
    ensures Concat(xss)[Mul(r, w) + j] == xss[r][j]
  {
    ConcatBlock(xss, w, r);
    assert Concat(xss)[Mul(r, w) .. Mul(r, w) + w][j] == xss[r][j];
  }

  /** The rows of a tensor, in order. */
  function Rows(t: Tensor): (rows: seq<seq<real>>)
    requires HasSampleAxis(t)
    ensures |rows| == RowCount(t)
    ensures forall r :: 0 <= r < |rows| ==> rows[r] == Row(t, r)
  {
    seq(RowCount(t), r requires 0 <= r < RowCount(t) => Row(t, r))
  }

  /** Consecutive rows lo..hi-1 are stored contiguously: concatenated they
      give the elements from lo*w to hi*w. */
  lemma {:induction false} RowsContiguous(t: Tensor, lo: nat, hi: nat)
    requires HasSampleAxis(t) && lo <= hi <= RowCount(t)
    ensures Mul(lo, Width(t)) <= Mul(hi, Width(t)) <= |t.data|
    ensures Concat(Rows(t)[lo..hi]) == t.data[Mul(lo, Width(t)) .. Mul(hi, Width(t))]
  {
    assert Mul(lo, Width(t)) <= Mul(hi, Width(t)) <= |t.data| by {
      DataLength(t);
      MulMonotone(hi, RowCount(t), Width(t));
      MulMonotone(lo, hi, Width(t));
    }
    if lo < hi {
      RowsContiguous(t, lo, hi - 1);
      RowsContiguousStep(t, lo, hi - 1);
    }
  }

  lemma {:induction false} RowsContiguousStep(t: Tensor, lo: nat, m: nat)
    requires HasSampleAxis(t) && lo <= m < RowCount(t)
    requires Mul(lo, Width(t)) <= Mul(m, Width(t)) <= |t.data|
    requires Concat(Rows(t)[lo..m]) == t.data[Mul(lo, Width(t)) .. Mul(m, Width(t))]
    ensures Mul(lo, Width(t)) <= Mul(m + 1, Width(t)) <= |t.data|
    ensures Concat(Rows(t)[lo..m + 1]) == t.data[Mul(lo, Width(t)) .. Mul(m + 1, Width(t))]
  {
    var w := Width(t);
    var rows := Rows(t);
    assert Concat(rows[lo..m + 1]) == Concat(rows[lo..m]) + Row(t, m) by {
      assert rows[lo..m + 1][..m - lo] == rows[lo..m];
      assert rows[lo..m + 1][m - lo] == Row(t, m);
    }
    assert Mul(m + 1, w) == Mul(m, w) + w by { MulSucc(m, w); }
    assert Row(t, m) == t.data[Mul(m, w) .. Mul(m, w) + w] by { RowAt(t, m, w); }
    assert t.data[Mul(lo, w) .. Mul(m + 1, w)] == t.data[Mul(lo, w) .. Mul(m, w)] + t.data[Mul(m, w) .. Mul(m + 1, w)];
  }
}
