/** The multiresolution pyramid: coarser copies of one recording, one per
    downsampling level, of which only the first copy of each length is kept. */
module Pyramid {
  import opened Tensors
  import opened Partitioner

  /** Why create_downsampled_channels_list cannot start: `math.log` of a
      number below one (no samples, or a chunk size of zero or less) raises a
      domain error, and a chunk size of one makes `math.log(chunk_size)`
      zero, so the division by it raises. */
  datatype PyramidError = MathDomainError | ZeroDivisionError

  datatype Result<T> = Success(value: T) | Failure(error: PyramidError)

  /** s^e */
  function Pow(s: nat, e: nat): nat
  {
    if e == 0 then 1 else Mul(Pow(s, e - 1), s)
  }

  lemma {:induction false} PowPositive(s: nat, e: nat)
    requires s >= 1
    ensures Pow(s, e) >= 1
  {
    if e > 0 {
      PowPositive(s, e - 1);
      MulMonotone(1, Pow(s, e - 1), s);
      MulOneLeft(s);
    }
  }

  lemma {:induction false} PowMonotone(s: nat, a: nat, b: nat)
    requires s >= 1 && a <= b
    ensures Pow(s, a) <= Pow(s, b)
  {
    if a < b {
      PowMonotone(s, a, b - 1);
      PowPositive(s, b - 1);
      MulMonotoneRight(Pow(s, b - 1), 1, s);
      MulOneRight(Pow(s, b - 1));
    }
  }

  /** math.floor(n / q) for naturals. */
  function FloorDiv(n: nat, q: nat): (r: nat)
    requires q > 0
    ensures Mul(r, q) <= n < Mul(r + 1, q)
  {
    if n < q then
      MulOneLeft(q);
      0
    else
      var r := FloorDiv(n - q, q);
      MulSucc(r, q);
      MulSucc(r + 1, q);
      r + 1
  }

  /** ceil(n / s) is a positive number below n once n >= 2 and s >= 2. */
  lemma {:induction false} CeilDivShrinks(n: nat, s: nat)
    requires n >= 2 && s >= 2
    ensures 1 <= CeilDiv(n, s) < n
  {
    var k := CeilDiv(n, s);
    if k >= n {
      MulMonotone(n - 1, k - 1, s);
      MulMonotoneRight(n - 1, 2, s);
      MulIsProduct(n - 1, 2);
    }
  }

  /** The number of candidate levels, ceil(log n / log s), computed on the
      integers: the least L with s^L >= n (LevelCountIsLeast). */
  function LevelCount(n: nat, s: nat): nat
    requires n >= 1 && s >= 2
    decreases n
  {
    if n == 1 then 0
    else
      CeilDivShrinks(n, s);
      1 + LevelCount(CeilDiv(n, s), s)
  }

  /** LevelCount(n, s) levels reach n: s^L >= n, and no smaller exponent
      does. */
  lemma {:induction false} LevelCountIsLeast(n: nat, s: nat)
    requires n >= 1 && s >= 2
    ensures n <= Pow(s, LevelCount(n, s))
    ensures forall e :: 0 <= e < LevelCount(n, s) ==> Pow(s, e) < n
  {
    var L := LevelCount(n, s);
    if L > 0 {
      LevelCountTop(n, s);
      forall e | 0 <= e < L
        ensures Pow(s, e) < n
      {
        PowMonotone(s, e, L - 1);
      }
    } else {
      assert n == 1;
    }
  }

  /** The two bounds of LevelCountIsLeast, for the largest exponent below L. */
  lemma {:induction false} LevelCountTop(n: nat, s: nat)
    requires n >= 1 && s >= 2
    ensures n <= Pow(s, LevelCount(n, s))
    ensures LevelCount(n, s) > 0 ==> Pow(s, LevelCount(n, s) - 1) < n
  {
    if n > 1 {
      CeilDivShrinks(n, s);
      var m := CeilDiv(n, s);
      var l := LevelCount(m, s);
      LevelCountTop(m, s);
      MulMonotone(m, Pow(s, l), s);
      if l > 0 {
        MulMonotone(Pow(s, l - 1), m - 1, s);
      }
    }
  }

  /** There is a coarser level (L >= 2) exactly when n > s. */
  lemma {:induction false} TwoLevelsIffLonger(n: nat, s: nat)
    requires n >= 1 && s >= 2
    ensures LevelCount(n, s) >= 2 <==> n > s
    ensures LevelCount(n, s) >= 1 <==> n > 1
  {
    LevelCountIsLeast(n, s);
    MulOneLeft(s);
    assert Pow(s, 1) == s;
    if LevelCount(n, s) >= 2 {
      assert Pow(s, 1) < n;
    }
  }

  /** downsample_channels' factor for level d >= 1 as written: s^d, or
      floor(n / 2s) when n / s^d would be at most 2s. */
  function DownsampleFactorAsWritten(n: nat, s: nat, d: nat): nat
    requires s >= 1 && d >= 1
  {
    if n <= Mul(Pow(s, d), 2 * s) then FloorDiv(n, 2 * s) else Pow(s, d)
  }

  /** As written, the factor of a level that exists is zero exactly when the
      recording is shorter than two chunks; resample_poly then raises. */
  lemma {:induction false} AsWrittenFactorZero(n: nat, s: nat, d: nat)
    requires n >= 1 && s >= 2 && 1 <= d < LevelCount(n, s)
    ensures DownsampleFactorAsWritten(n, s, d) == 0 <==> n < 2 * s
  {
    PowPositive(s, d);
    if n < 2 * s {
      MulMonotone(1, Pow(s, d), 2 * s);
      MulOneLeft(2 * s);
      MulOneLeft(2 * s);
    } else {
      MulOneLeft(2 * s);
    }
  }

  /** The input that shows it: with 4-sample chunks a 5-sample recording has
      two candidate levels, and level 1 gets factor 0. */
  lemma FiveSamplesInChunksOfFour()
    ensures LevelCount(5, 4) == 2
    ensures DownsampleFactorAsWritten(5, 4, 1) == 0
  {
    TwoLevelsIffLonger(5, 4);
    LevelCountIsLeast(5, 4);
    MulOneLeft(4);
    assert Pow(4, 1) == 4;
    assert Pow(4, 2) == Mul(4, 4);
    MulIsProduct(4, 4);
    AsWrittenFactorZero(5, 4, 1);
  }

  /** The factor used by this model: the one as written, raised to 1 where
      the source computes 0. A factor of 1 keeps every sample, so such a
      level has the input's length and is dropped by the deduplication. */
  function DownsampleFactor(n: nat, s: nat, d: nat): (f: nat)
    requires s >= 1 && d >= 1
    ensures f >= 1
    ensures DownsampleFactorAsWritten(n, s, d) >= 1 ==> f == DownsampleFactorAsWritten(n, s, d)
  {
    var f := DownsampleFactorAsWritten(n, s, d);
    if f == 0 then 1 else f
  }

  /** Length of level d: the input's n samples for d = 0, else ceil(n / f),
      the output length of resample_poly with up = 1, down = f. */
  function LevelWidth(n: nat, s: nat, d: nat): nat
    requires s >= 1
  {
    if d == 0 then n else CeilDiv(n, DownsampleFactor(n, s, d))
  }

  /** A coarser level never has more samples than the input, and it has at
      least 2s of them when the input has; when the input has fewer than 4s
      samples (and s >= 2) the factor is clamped to at most 1, so the coarser
      level keeps them all. */
  lemma {:induction false} CoarseLevelWidth(n: nat, s: nat, d: nat)
    requires s >= 1 && d >= 1
    ensures LevelWidth(n, s, d) <= n
    ensures n >= 2 * s ==> LevelWidth(n, s, d) >= 2 * s
    ensures n < 2 * s ==> LevelWidth(n, s, d) == n
    ensures s >= 2 && n < 4 * s ==> LevelWidth(n, s, d) == n
  {
    CoarseLevelWidthBounds(n, s, d);
    if s >= 2 && 2 * s <= n < 4 * s {
      PowMonotone(s, 1, d);
      MulOneLeft(s);
      assert Pow(s, 1) == s;
      MulMonotone(2, Pow(s, d), 2 * s);
      MulIsProduct(2, 2 * s);
      MulOneLeft(2 * s);
      var q := FloorDiv(n, 2 * s);
      MulStrict(q, 2, 2 * s);
      MulOneRight(n);
      CeilDivExact(n, 1);
    }
  }

  lemma {:induction false} CoarseLevelWidthBounds(n: nat, s: nat, d: nat)
    requires s >= 1 && d >= 1
    ensures LevelWidth(n, s, d) <= n
    ensures n >= 2 * s ==> LevelWidth(n, s, d) >= 2 * s
    ensures n < 2 * s ==> LevelWidth(n, s, d) == n
  {
    var f := DownsampleFactor(n, s, d);
    var w := LevelWidth(n, s, d);
    CeilDivAtMost(n, f);
    if n >= 2 * s {
      var p := Pow(s, d);
      PowPositive(s, d);
      if n <= Mul(p, 2 * s) {
        var q := FloorDiv(n, 2 * s);
        MulOneLeft(2 * s);
        assert q >= 1;
        CeilDivAtLeast(n, q, 2 * s);
      } else {
        MulComm(p, 2 * s);
        CeilDivAtLeast(n, p, 2 * s);
      }
    } else {
      PowPositive(s, d);
      MulMonotone(1, Pow(s, d), 2 * s);
      MulOneLeft(2 * s);
      assert FloorDiv(n, 2 * s) == 0;
      MulOneRight(n);
      CeilDivExact(n, 1);
    }
  }

  /** ceil(n / f) <= n for f >= 1. */
  lemma {:induction false} CeilDivAtMost(n: nat, f: nat)
    requires f >= 1
    ensures CeilDiv(n, f) <= n
  {
    var k := CeilDiv(n, f);
    if k > n {
      MulMonotone(n, k - 1, f);
      MulMonotoneRight(n, 1, f);
      MulOneRight(n);
    }
  }

  /** If f chunks of b fit in n, ceil(n / f) >= b. */
  lemma {:induction false} CeilDivAtLeast(n: nat, f: nat, b: nat)
    requires f >= 1 && Mul(f, b) <= n
    ensures CeilDiv(n, f) >= b
  {
    var k := CeilDiv(n, f);
    MulComm(f, b);
    if k < b {
      MulBound(k, b, f);
    }
  }

  /** resample(row, f): the row downsampled by the integer factor f, as
      scipy.signal.resample_poly(row, up=1, down=f) does; the filter itself is
      a parameter of this model, of which only the output length is known. */
  ghost predicate ResamplesToLength(resample: (seq<real>, nat) -> seq<real>)
  {
    forall row: seq<real>, f: nat :: f >= 1 ==> |resample(row, f)| == CeilDiv(|row|, f)
  }

  /** Every row of x resampled along the sample axis by factor f. */
  function ResampleRows(x: Tensor, f: nat, resample: (seq<real>, nat) -> seq<real>): (r: Tensor)
    requires HasSampleAxis(x) && f >= 1 && ResamplesToLength(resample)
    ensures HasSampleAxis(r)
    ensures Leading(r) == Leading(x)
    ensures Width(r) == CeilDiv(Width(x), f)
  {
    var w := CeilDiv(Width(x), f);
    var rows := seq(RowCount(x), i requires 0 <= i < RowCount(x) => resample(Row(x, i), f));
    var shape := Leading(x) + [w];
    forall i | 0 <= i < |rows|
      ensures |rows[i]| == w
    {
      assert |Row(x, i)| == Width(x);
    }
    ConcatLength(rows, w);
    ProductSnoc(Leading(x), w);
    assert shape[..|shape| - 1] == Leading(x);
    Tensor(shape, Concat(rows))
  }

  /** Row i of the resampled tensor is row i of the input, resampled. */
  lemma {:induction false} ResampledRow(x: Tensor, f: nat, resample: (seq<real>, nat) -> seq<real>, i: nat)
    requires HasSampleAxis(x) && f >= 1 && ResamplesToLength(resample) && i < RowCount(x)
    ensures Row(ResampleRows(x, f, resample), i) == resample(Row(x, i), f)
  {
    var w := CeilDiv(Width(x), f);
    var rows := seq(RowCount(x), i requires 0 <= i < RowCount(x) => resample(Row(x, i), f));
    forall k | 0 <= k < |rows|
      ensures |rows[k]| == w
    {
      assert |Row(x, k)| == Width(x);
    }
    ConcatBlock(rows, w, i);
    RowAt(ResampleRows(x, f, resample), i, w);
  }

  /** downsample_channels: level 0 is the input itself; level d >= 1 is
      every row resampled by DownsampleFactor. */
  function DownsampleChannels(x: Tensor, s: nat, d: nat, resample: (seq<real>, nat) -> seq<real>): (r: Tensor)
    requires HasSampleAxis(x) && s >= 1 && ResamplesToLength(resample)
    ensures HasSampleAxis(r)
    ensures Leading(r) == Leading(x)
    ensures Width(r) == LevelWidth(Width(x), s, d)
    ensures d == 0 ==> r == x
  {
    if d == 0 then x else ResampleRows(x, DownsampleFactor(Width(x), s, d), resample)
  }

  /** The downsampled copies for d = 0 .. LevelCount - 1, before
      deduplication. */
  function CandidateLevels(x: Tensor, s: nat, resample: (seq<real>, nat) -> seq<real>): (levels: seq<Tensor>)
    requires HasSampleAxis(x) && Width(x) >= 1 && s >= 2 && ResamplesToLength(resample)
    ensures |levels| == LevelCount(Width(x), s)
    ensures forall d :: 0 <= d < |levels| ==> levels[d] == DownsampleChannels(x, s, d, resample)
    ensures forall d :: 0 <= d < |levels| ==>
      HasSampleAxis(levels[d]) && Leading(levels[d]) == Leading(x) && Width(levels[d]) == LevelWidth(Width(x), s, d)
  {
    seq(LevelCount(Width(x), s), d requires 0 <= d < LevelCount(Width(x), s) => DownsampleChannels(x, s, d, resample))
  }

  // Deduplication by sample count.

  predicate AllHaveSampleAxis(levels: seq<Tensor>)
  {
    forall i :: 0 <= i < |levels| ==> |levels[i].shape| >= 1
  }

  /** The sample counts occurring in a list of levels. */
  function Sizes(levels: seq<Tensor>): set<nat>
    requires AllHaveSampleAxis(levels)
  {
    set i | 0 <= i < |levels| :: Width(levels[i])
  }

  /** Level i is the first of its length. */
  predicate IsFirstOfSize(levels: seq<Tensor>, i: nat)
    requires AllHaveSampleAxis(levels) && i < |levels|
  {
    Width(levels[i]) !in Sizes(levels[..i])
  }

  /** The levels that are the first of their length, in input order. */
  function KeepFirsts(levels: seq<Tensor>): seq<Tensor>
    requires AllHaveSampleAxis(levels)
  {
    if levels == [] then []
    else
      var n := |levels| - 1;
      KeepFirsts(levels[..n]) + (if IsFirstOfSize(levels, n) then [levels[n]] else [])
  }

  /** Positions in `levels` of the elements KeepFirsts keeps. */
  function KeptIndices(levels: seq<Tensor>): seq<nat>
    requires AllHaveSampleAxis(levels)
  {
    if levels == [] then []
    else
      var n := |levels| - 1;
      KeptIndices(levels[..n]) + (if IsFirstOfSize(levels, n) then [n] else [])
  }

  /** KeepFirsts keeps the first level of each length and nothing else, in
      increasing input order. */
  lemma {:induction false} KeepFirstsSelects(levels: seq<Tensor>)
    requires AllHaveSampleAxis(levels)
    ensures |KeptIndices(levels)| == |KeepFirsts(levels)|
    ensures forall j :: 0 <= j < |KeptIndices(levels)| ==>
      KeptIndices(levels)[j] < |levels|
      && KeepFirsts(levels)[j] == levels[KeptIndices(levels)[j]]
      && IsFirstOfSize(levels, KeptIndices(levels)[j])
    ensures forall j, k :: 0 <= j < k < |KeptIndices(levels)| ==> KeptIndices(levels)[j] < KeptIndices(levels)[k]
    ensures forall i :: 0 <= i < |levels| && IsFirstOfSize(levels, i) ==> i in KeptIndices(levels)
  {
    if levels != [] {
      var n := |levels| - 1;
      var init := levels[..n];
      KeepFirstsSelects(init);
      forall i | 0 <= i < n
        ensures init[..i] == levels[..i]
        ensures IsFirstOfSize(init, i) == IsFirstOfSize(levels, i)
      {
        assert init[..i] == levels[..i];
      }
    }
  }

  /** Every length occurring in the input occurs in the output. */
  lemma {:induction false} KeepFirstsSizes(levels: seq<Tensor>)
    requires AllHaveSampleAxis(levels)
    ensures AllHaveSampleAxis(KeepFirsts(levels))
    ensures Sizes(KeepFirsts(levels)) == Sizes(levels)
  {
    if levels != [] {
      var n := |levels| - 1;
      var init := levels[..n];
      var last := levels[n];
      KeepFirstsSizes(init);
      var kept := KeepFirsts(init);
      SizesSnoc(levels);
      if IsFirstOfSize(levels, n) {
        assert KeepFirsts(levels) == kept + [last];
        SizesSnoc(kept + [last]);
        assert (kept + [last])[..|kept|] == kept;
      } else {
        assert KeepFirsts(levels) == kept;
      }
    }
  }

  /** Adding a level adds its length. */
  lemma {:induction false} SizesSnoc(levels: seq<Tensor>)
    requires AllHaveSampleAxis(levels) && |levels| >= 1
    ensures AllHaveSampleAxis(levels[..|levels| - 1])
    ensures Sizes(levels) == Sizes(levels[..|levels| - 1]) + {Width(levels[|levels| - 1])}
  {
    var n := |levels| - 1;
    var init := levels[..n];
    assert forall i :: 0 <= i < n ==> init[i] == levels[i];
    forall w | w in Sizes(levels) ensures w in Sizes(init) + {Width(levels[n])} {
      var i :| 0 <= i < |levels| && Width(levels[i]) == w;
      if i < n {
        assert Width(init[i]) == w;
      }
    }
  }

  /** The kept levels have pairwise different lengths. */
  lemma {:induction false} KeepFirstsDistinct(levels: seq<Tensor>)
    requires AllHaveSampleAxis(levels)
    ensures AllHaveSampleAxis(KeepFirsts(levels))
    ensures forall j, k :: 0 <= j < k < |KeepFirsts(levels)| ==>
      Width(KeepFirsts(levels)[j]) != Width(KeepFirsts(levels)[k])
  {
    KeepFirstsSizes(levels);
    if levels != [] {
      var n := |levels| - 1;
      var init := levels[..n];
      KeepFirstsDistinct(init);
      KeepFirstsSizes(init);
      var kept := KeepFirsts(init);
      assert levels[..n] == init;
      if IsFirstOfSize(levels, n) {
        forall j | 0 <= j < |kept|
          ensures Width(kept[j]) != Width(levels[n])
        {
          assert Width(kept[j]) in Sizes(kept);
        }
      }
    }
  }

  /** The first level is always kept, and kept first. */
  lemma {:induction false} KeepFirstsHead(levels: seq<Tensor>)
    requires AllHaveSampleAxis(levels) && |levels| >= 1
    ensures |KeepFirsts(levels)| >= 1 && KeepFirsts(levels)[0] == levels[0]
  {
    var n := |levels| - 1;
    if n == 0 {
      assert levels[..0] == [];
      assert IsFirstOfSize(levels, 0);
    } else {
      var init := levels[..n];
      KeepFirstsHead(init);
    }
  }

  /** One step of the walk over levels[..i + 1]. */
  lemma {:induction false} KeepFirstsStep(levels: seq<Tensor>, i: nat)
    requires AllHaveSampleAxis(levels) && i < |levels|
    ensures AllHaveSampleAxis(levels[..i]) && AllHaveSampleAxis(levels[..i + 1])
    ensures KeepFirsts(levels[..i + 1]) ==
      KeepFirsts(levels[..i]) + (if Width(levels[i]) in Sizes(levels[..i]) then [] else [levels[i]])
    ensures Sizes(levels[..i + 1]) == Sizes(levels[..i]) + {Width(levels[i])}
  {
    var prefix := levels[..i + 1];
    assert prefix[..i] == levels[..i];
    SizesSnoc(prefix);
  }

  /** create_downsampled_channels_list's loop: walk the levels once, keeping
      a level when its length is not in `sizes` yet. */
  method DedupBySize(levels: seq<Tensor>) returns (unique: seq<Tensor>)
    requires AllHaveSampleAxis(levels)
    ensures unique == KeepFirsts(levels)
  {
    var sizes: set<nat> := {};
    unique := [];
    for i := 0 to |levels|
      invariant unique == KeepFirsts(levels[..i])
      invariant sizes == Sizes(levels[..i])
    {
      var level := levels[i];
      KeepFirstsStep(levels, i);
      if Width(level) in sizes {
        continue;
      }
      unique := unique + [level];
      sizes := sizes + {Width(level)};
    }
    assert levels[..|levels|] == levels;
  }

  /** create_downsampled_channels_list: the candidate levels, deduplicated by
      sample count; fails where the source's `math.log` calls fail. */
  method CreateDownsampledChannelsList(x: Tensor, s: int, resample: (seq<real>, nat) -> seq<real>)
    returns (r: Result<seq<Tensor>>)
    requires HasSampleAxis(x) && ResamplesToLength(resample)
    ensures r.Failure? <==> Width(x) == 0 || s <= 1
    ensures r.Failure? ==> r.error == (if Width(x) == 0 || s <= 0 then MathDomainError else ZeroDivisionError)
    ensures r.Success? ==> Width(x) >= 1 && s >= 2 && r.value == Levels(x, s, resample)
  {
    if Width(x) == 0 || s <= 0 {
      return Failure(MathDomainError);
    }
    if s == 1 {
      return Failure(ZeroDivisionError);
    }
    var candidates := CandidateLevels(x, s, resample);
    var unique := DedupBySize(candidates);
    return Success(unique);
  }

  /** The pyramid: the candidate levels with later copies of a length
      removed. */
  function Levels(x: Tensor, s: nat, resample: (seq<real>, nat) -> seq<real>): (levels: seq<Tensor>)
    requires HasSampleAxis(x) && Width(x) >= 1 && s >= 2 && ResamplesToLength(resample)
    ensures forall j :: 0 <= j < |levels| ==> HasSampleAxis(levels[j]) && Leading(levels[j]) == Leading(x)
  {
    var cands := CandidateLevels(x, s, resample);
    KeepFirstsSelects(cands);
    KeepFirsts(cands)
  }

  /** Level 0 of the pyramid is the input itself, unless the input has a
      single sample, which gives no level at all. */
  lemma {:induction false} LevelsStartWithInput(x: Tensor, s: nat, resample: (seq<real>, nat) -> seq<real>)
    requires HasSampleAxis(x) && Width(x) >= 1 && s >= 2 && ResamplesToLength(resample)
    ensures |Levels(x, s, resample)| == 0 <==> Width(x) == 1
    ensures Width(x) >= 2 ==> Levels(x, s, resample)[0] == x
  {
    var cands := CandidateLevels(x, s, resample);
    TwoLevelsIffLonger(Width(x), s);
    if Width(x) >= 2 {
      KeepFirstsHead(cands);
    }
  }

  /** No two levels of the pyramid have the same number of samples. */
  lemma {:induction false} LevelsDistinctSizes(x: Tensor, s: nat, resample: (seq<real>, nat) -> seq<real>)
    requires HasSampleAxis(x) && Width(x) >= 1 && s >= 2 && ResamplesToLength(resample)
    ensures forall j, k :: 0 <= j < k < |Levels(x, s, resample)| ==>
      Width(Levels(x, s, resample)[j]) != Width(Levels(x, s, resample)[k])
  {
    KeepFirstsDistinct(CandidateLevels(x, s, resample));
  }

  /** Every level after the first has at least 2s and fewer than n samples. */
  lemma {:induction false} LevelsCoarseSizes(x: Tensor, s: nat, resample: (seq<real>, nat) -> seq<real>)
    requires HasSampleAxis(x) && Width(x) >= 1 && s >= 2 && ResamplesToLength(resample)
    ensures forall j :: 0 < j < |Levels(x, s, resample)| ==>
      2 * s <= Width(Levels(x, s, resample)[j]) < Width(x)
  {
    var n := Width(x);
    var cands := CandidateLevels(x, s, resample);
    var levels := Levels(x, s, resample);
    var idx := KeptIndices(cands);
    KeepFirstsSelects(cands);
    forall j | 0 < j < |levels|
      ensures 2 * s <= Width(levels[j]) < n
    {
      LevelsStartWithInput(x, s, resample);
      LevelsDistinctSizes(x, s, resample);
      assert Width(levels[j]) != Width(levels[0]);
      assert idx[0] < idx[j];
      CoarseLevelWidth(n, s, idx[j]);
    }
  }

  /** When every level has the same length, only the first is kept. */
  lemma {:induction false} KeepFirstsOneSize(levels: seq<Tensor>)
    requires AllHaveSampleAxis(levels) && |levels| >= 1
    requires forall i :: 0 <= i < |levels| ==> Width(levels[i]) == Width(levels[0])
    ensures KeepFirsts(levels) == [levels[0]]
  {
    var n := |levels| - 1;
    if n > 0 {
      var init := levels[..n];
      KeepFirstsOneSize(init);
      assert Width(init[0]) in Sizes(init);
      assert !IsFirstOfSize(levels, n);
    } else {
      assert levels[..0] == [];
    }
  }

  /** A recording shorter than four chunks yields the single level 0: below
      two chunks the factor is clamped to 0 (raised to 1 here), from two to
      four chunks it is clamped to floor(n / 2s) = 1. */
  lemma {:induction false} ShortInputSingleLevel(x: Tensor, s: nat, resample: (seq<real>, nat) -> seq<real>)
    requires HasSampleAxis(x) && s >= 2 && 2 <= Width(x) < 4 * s && ResamplesToLength(resample)
    ensures Levels(x, s, resample) == [x]
  {
    var n := Width(x);
    var cands := CandidateLevels(x, s, resample);
    TwoLevelsIffLonger(n, s);
    forall d | 0 <= d < |cands|
      ensures Width(cands[d]) == Width(cands[0])
    {
      if d > 0 {
        CoarseLevelWidth(n, s, d);
      }
    }
    KeepFirstsOneSize(cands);
  }

  // Monotonicity.

  /** The factor never decreases from one level to the next: s^d grows with
      d, and once clamped the factor floor(n / 2s) is at least every s^d
      that was not clamped. */
  lemma {:induction false} DownsampleFactorMonotone(n: nat, s: nat, d: nat, e: nat)
    requires s >= 1 && 1 <= d <= e
    ensures DownsampleFactor(n, s, d) <= DownsampleFactor(n, s, e)
  {
    var pd, pe := Pow(s, d), Pow(s, e);
    PowMonotone(s, d, e);
    MulMonotone(pd, pe, 2 * s);
    var clampedD := n <= Mul(pd, 2 * s);
    var clampedE := n <= Mul(pe, 2 * s);
    if !clampedD && clampedE {
      var q := FloorDiv(n, 2 * s);
      MulStrict(pd, q + 1, 2 * s);
      PowPositive(s, d);
    }
  }

  /** A larger divisor gives no more chunks. */
  lemma {:induction false} CeilDivAntitone(n: nat, f: nat, g: nat)
    requires 1 <= f <= g
    ensures CeilDiv(n, g) <= CeilDiv(n, f)
  {
    var k, m := CeilDiv(n, f), CeilDiv(n, g);
    MulMonotoneRight(k, f, g);
    MulComm(k, f);
    MulComm(k, g);
    if m > k {
      MulMonotone(k, m - 1, g);
    }
  }

  /** Candidate level widths never increase with the level. */
  lemma {:induction false} LevelWidthMonotone(n: nat, s: nat, d: nat, e: nat)
    requires s >= 1 && d <= e
    ensures LevelWidth(n, s, e) <= LevelWidth(n, s, d)
  {
    if d == 0 {
      if e > 0 {
        CoarseLevelWidth(n, s, e);
      }
    } else {
      DownsampleFactorMonotone(n, s, d, e);
      CeilDivAntitone(n, DownsampleFactor(n, s, d), DownsampleFactor(n, s, e));
    }
  }

  /** The pyramid runs from finest to coarsest: each kept level has strictly
      fewer samples than the one before it. */
  lemma {:induction false} LevelsStrictlyDecreasing(x: Tensor, s: nat, resample: (seq<real>, nat) -> seq<real>)
    requires HasSampleAxis(x) && Width(x) >= 1 && s >= 2 && ResamplesToLength(resample)
    ensures forall j, k :: 0 <= j < k < |Levels(x, s, resample)| ==>
      Width(Levels(x, s, resample)[j]) > Width(Levels(x, s, resample)[k])
  {
    var n := Width(x);
    var cands := CandidateLevels(x, s, resample);
    var levels := Levels(x, s, resample);
    var idx := KeptIndices(cands);
    KeepFirstsSelects(cands);
    LevelsDistinctSizes(x, s, resample);
    forall j, k | 0 <= j < k < |levels|
      ensures Width(levels[j]) > Width(levels[k])
    {
      LevelWidthMonotone(n, s, idx[j], idx[k]);
    }
  }
}
