/** The chunk partitioner: pads the sample axis of one pyramid level with
    zeros up to a whole number of chunks, then reshapes that axis into
    (chunk count, chunk size). */
module Partitioner {
  import opened Tensors

  /** ceil(n / s): the fewest chunks of length s that hold n samples. */
  function CeilDiv(n: nat, s: nat): (k: nat)
    requires s > 0
    ensures n <= Mul(k, s)
    ensures k > 0 ==> Mul(k - 1, s) < n
  {
    if n == 0 then 0
    else if n <= s then (MulOneLeft(s); 1)
    else CeilDiv(n - s, s) + 1
  }

  /** Dividing a whole number of chunks is exact. */
  lemma {:induction false} CeilDivExact(k: nat, s: nat)
    requires s > 0
    ensures CeilDiv(Mul(k, s), s) == k
  {
    if k == 1 {
      MulOneLeft(s);
    } else if k > 1 {
      MulSucc(k - 1, s);
      assert Mul(k - 1, s) >= s by {
        MulMonotone(1, k - 1, s);
        MulOneLeft(s);
      }
      CeilDivExact(k - 1, s);
    }
  }

  /** The number of zero samples appended to a row of n samples: what is
      missing from ceil(n/s) full chunks. */
  function Padding(n: nat, s: nat): (p: nat)
    requires s > 0
    ensures p < s
    ensures n + p == Mul(CeilDiv(n, s), s)
  {
    var k := CeilDiv(n, s);
    if k == 0 then 0
    else
      MulSucc(k - 1, s);
      Mul(k, s) - n
  }

  /** Row length after padding: a whole number of chunks. */
  function PaddedLength(n: nat, s: nat): nat
    requires s > 0
  {
    n + Padding(n, s)
  }

  /** m is a whole number of chunks of length s, with Python's `%`. */
  predicate WholeChunks(m: nat, s: nat)
    requires s > 0
  {
    m % s == 0
  }

  /** The padded length is a multiple of s, and no shorter padding would
      make one: Padding is the least completion of the last chunk. */
  lemma {:induction false} PaddingIsLeastCompletion(n: nat, s: nat)
    requires s > 0
    ensures WholeChunks(PaddedLength(n, s), s)
    ensures forall m :: n <= m < PaddedLength(n, s) ==> !WholeChunks(m, s)
  {
    var k := CeilDiv(n, s);
    var p := Padding(n, s);
    MulIsProduct(k, s);
    DivModUnique(n + p, s, k, 0);
    forall m | n <= m < n + p
      ensures !WholeChunks(m, s)
    {
      assert k > 0;
      MulIsProduct(k - 1, s);
      MulSucc(k - 1, s);
      DivModUnique(m, s, k - 1, m - Mul(k - 1, s));
    }
  }

  /** Euclidean division has one quotient and remainder. */
  lemma {:induction false} DivModUnique(a: nat, s: nat, q: nat, r: nat)
    requires s > 0 && r < s && a == q * s + r
    ensures a / s == q && a % s == r
  {
    var q', r' := a / s, a % s;
    assert a == q' * s + r';
    MulIsProduct(q, s);
    MulIsProduct(q', s);
    if q' < q {
      MulBound(q', q, s);
    } else if q < q' {
      MulBound(q, q', s);
    }
  }

  /** numpy.pad with zeros at the end of the last axis only: every row keeps
      its samples and gets Padding(n, s) zeros after them. */
  function PadChannels(x: Tensor, s: nat): (r: Tensor)
    requires HasSampleAxis(x) && s > 0
    ensures HasSampleAxis(r)
    ensures Leading(r) == Leading(x)
    ensures Width(r) == PaddedLength(Width(x), s)
  {
    var p := Padding(Width(x), s);
    var rows := seq(RowCount(x), i requires 0 <= i < RowCount(x) => Row(x, i) + Zeros(p));
    var shape := Leading(x) + [Width(x) + p];
    ConcatLength(rows, Width(x) + p);
    ProductSnoc(Leading(x), Width(x) + p);
    assert shape[..|shape| - 1] == Leading(x);
    Tensor(shape, Concat(rows))
  }

  /** Padding changes only the sample axis: row i of the padded level is row
      i of the input followed by the padding zeros. */
  lemma {:induction false} PaddedRow(x: Tensor, s: nat, i: nat)
    requires HasSampleAxis(x) && s > 0 && i < RowCount(x)
    ensures Row(PadChannels(x, s), i) == Row(x, i) + Zeros(Padding(Width(x), s))
  {
    var p := Padding(Width(x), s);
    var rows := seq(RowCount(x), i requires 0 <= i < RowCount(x) => Row(x, i) + Zeros(p));
    ConcatBlock(rows, Width(x) + p, i);
  }

  /** numpy.expand_dims(padded, axis=-2) followed by the reshape of the last
      two axes (1, M) into (M / s, s). M is a whole number of chunks, so M / s
      is the exact quotient, written here as CeilDiv. The data is unchanged:
      only the shape gains the chunk-count axis. */
  function ChannelsToChunks(x: Tensor, s: nat): (r: Tensor)
    requires HasSampleAxis(x) && s > 0
    ensures Valid(r) && |r.shape| == |x.shape| + 1
    ensures r.shape == Leading(x) + [CeilDiv(Width(x), s), s]
  {
    var padded := PadChannels(x, s);
    var expanded := Leading(padded) + [1, Width(padded)];
    var shape := expanded[..|expanded| - 2] + [CeilDiv(Width(padded), s), s];
    CeilDivExact(CeilDiv(Width(x), s), s);
    ChunkShapeProduct(Leading(x), CeilDiv(Width(x), s), s);
    DataLength(padded);
    Tensor(shape, padded.data)
  }

  lemma {:induction false} ChunkShapeProduct(lead: seq<nat>, k: nat, s: nat)
    ensures Product(lead + [k, s]) == Mul(Product(lead), Mul(k, s))
  {
    ProductSnoc(lead, k);
    ProductSnoc(lead + [k], s);
    assert lead + [k, s] == (lead + [k]) + [s];
    MulAssoc(Product(lead), k, s);
  }

  /** The number of chunks each row is cut into. */
  function ChunkCount(x: Tensor, s: nat): nat
    requires HasSampleAxis(x) && s > 0
  {
    CeilDiv(Width(x), s)
  }

  /** The chunk tensor has one row (of s samples) per chunk: row i of the input
      becomes rows i*K .. i*K+K-1 of the result, K = ChunkCount(x, s). */
  lemma {:induction false} ChunkRows(x: Tensor, s: nat)
    requires HasSampleAxis(x) && s > 0
    ensures HasSampleAxis(ChannelsToChunks(x, s))
    ensures Width(ChannelsToChunks(x, s)) == s
    ensures RowCount(ChannelsToChunks(x, s)) == Mul(RowCount(x), ChunkCount(x, s))
    ensures ChannelsToChunks(x, s).data == PadChannels(x, s).data
  {
    var c := ChannelsToChunks(x, s);
    ProductSnoc(Leading(x), ChunkCount(x, s));
    assert Leading(c) == Leading(x) + [ChunkCount(x, s)];
  }

  /** Chunk k of row i holds padded samples [k*s, (k+1)*s) of that row: the
      reshape moves no sample across a chunk boundary. */
  lemma {:induction false} ChunkIsPaddedSlice(x: Tensor, s: nat, i: nat, k: nat)
    requires HasSampleAxis(x) && s > 0
    requires i < RowCount(x) && k < ChunkCount(x, s)
    ensures HasSampleAxis(ChannelsToChunks(x, s))
    ensures Mul(i, ChunkCount(x, s)) + k < RowCount(ChannelsToChunks(x, s))
    ensures Mul(k, s) + s <= PaddedLength(Width(x), s)
    ensures Row(ChannelsToChunks(x, s), Mul(i, ChunkCount(x, s)) + k)
         == (Row(x, i) + Zeros(Padding(Width(x), s)))[Mul(k, s) .. Mul(k, s) + s]
  {
    ChunkRows(x, s);
    PaddedRow(x, s, i);
    ChunkOfPaddedRow(x, PadChannels(x, s), ChannelsToChunks(x, s), s, ChunkCount(x, s), i, k, Padding(Width(x), s));
  }

  /** ChunkIsPaddedSlice for any `padded` and `c` related as PadChannels and
      ChannelsToChunks relate them. */
  lemma {:induction false} ChunkOfPaddedRow(x: Tensor, padded: Tensor, c: Tensor, s: nat, kk: nat, i: nat, k: nat, p: nat)
    requires HasSampleAxis(x) && HasSampleAxis(padded) && HasSampleAxis(c)
    requires Width(padded) == Mul(kk, s) && Width(c) == s && c.data == padded.data
    requires RowCount(c) == Mul(RowCount(padded), kk) && RowCount(padded) == RowCount(x)
    requires i < RowCount(x) && k < kk
    requires Row(padded, i) == Row(x, i) + Zeros(p)
    ensures Mul(i, kk) + k < RowCount(c)
    ensures Mul(k, s) + s <= Width(padded)
    ensures Row(c, Mul(i, kk) + k) == (Row(x, i) + Zeros(p))[Mul(k, s) .. Mul(k, s) + s]
  {
    ChunkOfRow(padded, c, s, kk, i, k);
    assert Row(padded, i)[Mul(k, s) .. Mul(k, s) + s] == (Row(x, i) + Zeros(p))[Mul(k, s) .. Mul(k, s) + s];
  }

  /** Block i*kk + k of a tensor of width s is slice [k*s, (k+1)*s) of row i
      of a tensor of width kk*s holding the same data. */
  lemma {:induction false} ChunkOfRow(padded: Tensor, c: Tensor, s: nat, kk: nat, i: nat, k: nat)
    requires HasSampleAxis(padded) && HasSampleAxis(c)
    requires Width(padded) == Mul(kk, s) && Width(c) == s && c.data == padded.data
    requires RowCount(c) == Mul(RowCount(padded), kk)
    requires i < RowCount(padded) && k < kk
    ensures Mul(i, kk) + k < RowCount(c)
    ensures Mul(k, s) + s <= Width(padded)
    ensures Row(c, Mul(i, kk) + k) == Row(padded, i)[Mul(k, s) .. Mul(k, s) + s]
  {
    RowFromChunks(padded, c, s, kk, i);
    MulSucc(i, kk);
    var blocks := Rows(c)[Mul(i, kk) .. Mul(i + 1, kk)];
    assert |blocks| == kk;
    assert blocks[k] == Row(c, Mul(i, kk) + k);
    ConcatBlock(blocks, s, k);
    MulBound(k, kk, s);
  }

  /** Round trip: concatenating the chunks of a row in index order and
      truncating to the original sample count gives the row back exactly. */
  lemma {:induction false} ChunksReassemble(x: Tensor, s: nat, i: nat)
    requires HasSampleAxis(x) && s > 0 && i < RowCount(x)
    ensures HasSampleAxis(ChannelsToChunks(x, s))
    ensures Mul(i, ChunkCount(x, s)) <= Mul(i + 1, ChunkCount(x, s)) <= RowCount(ChannelsToChunks(x, s))
    ensures Width(x) <= |Concat(Rows(ChannelsToChunks(x, s))[Mul(i, ChunkCount(x, s)) .. Mul(i + 1, ChunkCount(x, s))])|
    ensures Concat(Rows(ChannelsToChunks(x, s))[Mul(i, ChunkCount(x, s)) .. Mul(i + 1, ChunkCount(x, s))])[..Width(x)]
         == Row(x, i)
  {
    ChunkRows(x, s);
    PaddedRow(x, s, i);
    PaddedRowFromChunks(x, PadChannels(x, s), ChannelsToChunks(x, s), s, ChunkCount(x, s), i, Padding(Width(x), s));
  }

  /** ChunksReassemble for any `padded` and `c` related as PadChannels and
      ChannelsToChunks relate them. */
  lemma {:induction false} PaddedRowFromChunks(x: Tensor, padded: Tensor, c: Tensor, s: nat, kk: nat, i: nat, p: nat)
    requires HasSampleAxis(x) && HasSampleAxis(padded) && HasSampleAxis(c)
    requires Width(padded) == Mul(kk, s) && Width(c) == s && c.data == padded.data
    requires RowCount(c) == Mul(RowCount(padded), kk) && RowCount(padded) == RowCount(x)
    requires i < RowCount(x)
    requires Row(padded, i) == Row(x, i) + Zeros(p)
    ensures Mul(i, kk) <= Mul(i + 1, kk) <= RowCount(c)
    ensures Width(x) <= |Concat(Rows(c)[Mul(i, kk) .. Mul(i + 1, kk)])|
    ensures Concat(Rows(c)[Mul(i, kk) .. Mul(i + 1, kk)])[..Width(x)] == Row(x, i)
  {
    RowFromChunks(padded, c, s, kk, i);
    assert (Row(x, i) + Zeros(p))[..Width(x)] == Row(x, i);
  }

  /** The kk chunks of row i of `padded`, concatenated, are that row. */
  lemma {:induction false} RowFromChunks(padded: Tensor, c: Tensor, s: nat, kk: nat, i: nat)
    requires HasSampleAxis(padded) && HasSampleAxis(c)
    requires Width(padded) == Mul(kk, s) && Width(c) == s && c.data == padded.data
    requires RowCount(c) == Mul(RowCount(padded), kk)
    requires i < RowCount(padded)
    ensures Mul(i, kk) <= Mul(i + 1, kk) <= RowCount(c)
    ensures Concat(Rows(c)[Mul(i, kk) .. Mul(i + 1, kk)]) == Row(padded, i)
  {
    MulBound(i, RowCount(padded), kk);
    MulSucc(i, kk);
    RowsContiguous(c, Mul(i, kk), Mul(i + 1, kk));
    MulAssoc(i, kk, s);
    MulAssoc(i + 1, kk, s);
    MulSucc(i, Mul(kk, s));
    RowAt(padded, i, Mul(kk, s));
  }

  /** create_chunks_from_channels_list: every pyramid level partitioned, in
      order, each into shape [..., ceil(n/s), s]. */
  function CreateChunksFromChannelsList(levels: seq<Tensor>, s: nat): (chunked: seq<Tensor>)
    requires s > 0
    requires forall d :: 0 <= d < |levels| ==> HasSampleAxis(levels[d])
    ensures |chunked| == |levels|
    ensures forall d :: 0 <= d < |levels| ==> chunked[d] == ChannelsToChunks(levels[d], s)
    ensures forall d :: 0 <= d < |levels| ==> Valid(chunked[d])
    ensures forall d :: 0 <= d < |levels| ==>
      |levels[d].shape| >= 1 && chunked[d].shape == Leading(levels[d]) + [CeilDiv(Width(levels[d]), s), s]
  {
    seq(|levels|, d requires 0 <= d < |levels| => ChannelsToChunks(levels[d], s))
  }
}
