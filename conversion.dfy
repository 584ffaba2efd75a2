/** The conversion of one recording, eeglab_to_chunks and
    write_eeglab_chunks: the reader's [channels, samples] matrix gets a trace
    axis, becomes a pyramid of levels, each level is cut into chunks, and the
    index document and the chunk files are derived from the chunk tensors. */
module Conversion {
  import opened Tensors
  import opened Partitioner
  import opened Pyramid
  import opened Paths
  import opened Writer

  /** np.expand_dims(channels, axis=-2): a [C, N] matrix becomes [C, 1, N],
      each channel a single trace. The data is not moved. */
  function ExpandTraceAxis(channels: Tensor): (r: Tensor)
    requires Valid(channels) && |channels.shape| == 2
    ensures HasSampleAxis(r) && r.shape == [channels.shape[0], 1, channels.shape[1]]
    ensures RowCount(r) == channels.shape[0] && RowCount(channels) == channels.shape[0]
    ensures forall c :: 0 <= c < channels.shape[0] ==> Row(r, c) == Row(channels, c)
  {
    var r := Tensor([channels.shape[0], 1, channels.shape[1]], channels.data);
    ExpandedProduct(channels.shape[0], channels.shape[1]);
    assert Leading(r) == [channels.shape[0], 1];
    assert Leading(channels) == [channels.shape[0]];
    r
  }

  lemma {:induction false} ExpandedProduct(c: nat, n: nat)
    ensures Product([c]) == c && Product([c, 1]) == c
    ensures Product([c, 1, n]) == Product([c, n])
  {
    ProductSnoc([], c);
    MulOneLeft(c);
    assert [c] == [] + [c];
    ProductSnoc([c], 1);
    assert [c, 1] == [c] + [1];
    MulOneRight(c);
    ProductSnoc([c, 1], n);
    assert [c, 1, n] == [c, 1] + [n];
    ProductSnoc([c], n);
    assert [c, n] == [c] + [n];
  }

  /** The levels of the pyramid built from a [C, N] matrix. */
  function PyramidOf(channels: Tensor, s: nat, resample: (seq<real>, nat) -> seq<real>): (levels: seq<Tensor>)
    requires Valid(channels) && |channels.shape| == 2 && channels.shape[1] >= 1 && s >= 2
    requires ResamplesToLength(resample)
    ensures forall d :: 0 <= d < |levels| ==>
      HasSampleAxis(levels[d]) && Leading(levels[d]) == [channels.shape[0], 1]
  {
    var x := ExpandTraceAxis(channels);
    assert Leading(x) == [channels.shape[0], 1];
    Levels(x, s, resample)
  }

  /** eeglab_to_chunks (without the reader): the chunk tensor of every level
      of the pyramid, each of shape [C, 1, ceil(n_d / s), s]. */
  method EeglabToChunks(channels: Tensor, s: int, resample: (seq<real>, nat) -> seq<real>)
    returns (r: Result<seq<Tensor>>)
    requires Valid(channels) && |channels.shape| == 2 && ResamplesToLength(resample)
    ensures r.Failure? <==> channels.shape[1] == 0 || s <= 1
    ensures r.Success? ==>
      && s >= 2 && channels.shape[1] >= 1
      && r.value == CreateChunksFromChannelsList(PyramidOf(channels, s, resample), s)
      && AllChunkTensors(r.value)
      && forall d :: 0 <= d < |r.value| ==>
           r.value[d].shape == [channels.shape[0], 1, CeilDiv(Width(PyramidOf(channels, s, resample)[d]), s), s]
  {
    var x := ExpandTraceAxis(channels);
    var levels := CreateDownsampledChannelsList(x, s, resample);
    if levels.Failure? {
      return Failure(levels.error);
    }
    var size: nat := s;
    ghost var pyramid := PyramidOf(channels, size, resample);
    assert levels.value == pyramid;
    var chunks := CreateChunksFromChannelsList(levels.value, size);
    forall d | 0 <= d < |chunks|
      ensures chunks[d].shape == [channels.shape[0], 1, CeilDiv(Width(pyramid[d]), size), size]
    {
      assert Leading(pyramid[d]) == [channels.shape[0], 1];
    }
    return Success(chunks);
  }

  /** What one conversion produces: the chunk directory, where index.json
      goes and what it says, and every chunk file in the order written. */
  datatype Output = Output(chunkDir: string, indexPath: string, index: IndexDocument, files: seq<ChunkFile>)

  /** write_eeglab_chunks for a recording the reader returned as `channels`
      and `timeInterval`: name the chunk directory, build the chunks, then
      describe them in index.json and write them under raw/. */
  method WriteEeglabChunks(input: string, s: int, prefix: Option<string>, destination: Option<string>,
                           channels: Tensor, timeInterval: (real, real),
                           resample: (seq<real>, nat) -> seq<real>)
    returns (r: Result<Output>)
    requires Valid(channels) && |channels.shape| == 2 && ResamplesToLength(resample)
    ensures r.Failure? <==> channels.shape[1] == 0 || s <= 1
    ensures r.Success? ==>
      && s >= 2 && channels.shape[1] >= 1
      && var levels := PyramidOf(channels, s, resample);
      && var chunks := CreateChunksFromChannelsList(levels, s);
      && AllChunkTensors(chunks)
      && r.value.chunkDir == ChunkDirPath(input, prefix, destination)
      && r.value.indexPath == r.value.chunkDir + "/index.json"
      && r.value.index.chunkSize == s
      && r.value.index.timeInterval == timeInterval
      && r.value.index.traceTypes == map[]
      && |r.value.index.downsamplings| == |r.value.index.shapes| == |levels|
      && (forall d :: 0 <= d < |levels| ==>
            && r.value.index.downsamplings[d] == d
            && r.value.index.shapes[d] == chunks[d].shape
            && r.value.index.shapes[d] == [channels.shape[0], 1, CeilDiv(Width(levels[d]), s), s])
      && r.value.files == ChunkFiles(r.value.chunkDir, chunks)
  {
    var chunkDir := ChunkDirPath(input, prefix, destination);
    var chunks := EeglabToChunks(channels, s, resample);
    if chunks.Failure? {
      return Failure(chunks.error);
    }
    var (indexPath, index) := EeglabIndex(chunkDir, timeInterval, s, chunks.value);
    EeglabIndexDescribesLevels(chunkDir, timeInterval, s, chunks.value);
    ChunkDirPathIsDirectory(input, prefix, destination);
    IndexPathLayout(chunkDir);
    var files := WriteChunks(chunkDir, chunks.value);
    return Success(Output(chunkDir, indexPath, index, files));
  }

  /** End to end: in the chunk tensor of a level with one trace per
      channel, the file for chunk k of channel c goes to ChunkPath(chunkDir,
      d, c, 0, k) (chunkDir/raw/d/c/0/k.buf, ChunkPathLayout), its record
      carries k and d, and its samples are samples [k*s, (k+1)*s) of channel
      c of the level followed by its padding zeros. Where write_chunks puts
      that file among all others is ChunkFilesEnumerate. */
  lemma {:induction false} ChunkFileHoldsSamples(chunkDir: string, d: nat, level: Tensor, ct: Tensor, s: nat, c: nat, k: nat)
    requires HasSampleAxis(level) && |level.shape| == 3 && level.shape[1] == 1 && s >= 1
    requires ct == ChannelsToChunks(level, s)
    requires c < level.shape[0] && k < ChunkCount(level, s)
    ensures IsChunkTensor(ct) && ct.shape[1] == 1 && c < ct.shape[0] && k < ct.shape[2]
    ensures c < RowCount(level) && Mul(k, s) + s <= Width(level) + Padding(Width(level), s)
    ensures FileFor(chunkDir, d, ct, c, 0, k)
      == ChunkFile(ChunkPath(chunkDir, d, c, 0, k),
                   ChunkRecord(k, d, (Row(level, c) + Zeros(Padding(Width(level), s)))[Mul(k, s) .. Mul(k, s) + s]))
  {
    ChannelChunk(level, ct, s, c, k);
    FirstTraceFile(chunkDir, d, ct, c, k);
  }

  /** Chunk k of channel c is row c*K + k of the chunk tensor of a level with
      one trace per channel. */
  lemma {:induction false} ChannelChunk(level: Tensor, ct: Tensor, s: nat, c: nat, k: nat)
    requires HasSampleAxis(level) && |level.shape| == 3 && level.shape[1] == 1 && s >= 1
    requires ct == ChannelsToChunks(level, s)
    requires c < level.shape[0] && k < ChunkCount(level, s)
    ensures IsChunkTensor(ct) && ct.shape[1] == 1 && c < ct.shape[0] && k < ct.shape[2]
    ensures c < RowCount(level) && Mul(k, s) + s <= Width(level) + Padding(Width(level), s)
    ensures Mul(c, ct.shape[2]) + k < RowCount(ct)
    ensures Row(ct, Mul(c, ct.shape[2]) + k)
      == (Row(level, c) + Zeros(Padding(Width(level), s)))[Mul(k, s) .. Mul(k, s) + s]
  {
    assert Leading(level) == [level.shape[0], 1];
    assert RowCount(level) == level.shape[0] by {
      ExpandedProduct(level.shape[0], Width(level));
    }
    assert ct.shape[2] == ChunkCount(level, s);
    ChunkIsPaddedSlice(level, s, c, k);
  }

  /** The file of chunk k of the only trace of channel c. */
  lemma {:induction false} FirstTraceFile(chunkDir: string, d: nat, ct: Tensor, c: nat, k: nat)
    requires IsChunkTensor(ct) && ct.shape[1] == 1 && c < ct.shape[0] && k < ct.shape[2]
    ensures Mul(c, ct.shape[2]) + k < RowCount(ct)
    ensures FileFor(chunkDir, d, ct, c, 0, k)
      == ChunkFile(ChunkPath(chunkDir, d, c, 0, k), ChunkRecord(k, d, Row(ct, Mul(c, ct.shape[2]) + k)))
  {
    ChunkRowInRange(ct, c, 0, k);
    assert ChunkRow(ct, c, 0, k) == Mul(c, ct.shape[2]) + k by {
      MulOneRight(c);
    }
  }

  /** The first level is the recording itself: its chunk k of channel c
      holds the recorded samples [k*s, (k+1)*s) of that channel, padded with
      zeros past the end. */
  lemma {:induction false} FirstLevelIsRecording(channels: Tensor, s: nat, resample: (seq<real>, nat) -> seq<real>)
    requires Valid(channels) && |channels.shape| == 2 && channels.shape[1] >= 2 && s >= 2
    requires ResamplesToLength(resample)
    ensures |PyramidOf(channels, s, resample)| >= 1
    ensures PyramidOf(channels, s, resample)[0] == ExpandTraceAxis(channels)
    ensures Width(PyramidOf(channels, s, resample)[0]) == channels.shape[1]
    ensures forall c :: 0 <= c < channels.shape[0] ==>
      c < RowCount(PyramidOf(channels, s, resample)[0])
      && Row(PyramidOf(channels, s, resample)[0], c) == Row(channels, c)
  {
    var x := ExpandTraceAxis(channels);
    LevelsStartWithInput(x, s, resample);
  }
}
