# eeglab_to_chunks in Dafny

This is a model of the converter that turns an EEGLAB recording into chunk files for a browser-based viewer. The recording is a `[channels, samples]` matrix. It becomes a pyramid of coarser copies, one per downsampling level. Each level is cut into fixed-size chunks.

The converter writes two kinds of output into `<name>.chunks/`:

- an `index.json` that describes the levels;
- one `FloatChunk` record per chunk, under `raw/<level>/<channel>/<trace>/<chunk>.buf`.

The model has six modules:

- `Tensors` (tensors.dfy): numpy arrays as a shape plus flat row-major data. `Row(x, i)` is the i-th run of last-axis samples. `Mul` is multiplication written out recursively, with the lemmas the shape arithmetic needs.
- `Partitioner` (partitioner.dfy): `pad_channels`, `channels_to_chunks` and `create_chunks_from_channels_list`. It proves the padding bounds and the shape equation. It also proves that each chunk is a slice of the padded row, and that concatenating a channel's chunks and cutting at N gives the row back.
- `Pyramid` (pyramid.dfy): the pyramid of levels.
  - The resample factor of `downsample_channels`.
  - The number of candidate levels. It is the integer counterpart of `ceil(log N / log S)`.
  - The deduplication loop of `create_downsampled_channels_list`, as a method proved equal to a specification function. The function keeps the first level of each length, in order.
  - `resample_poly` is a function parameter. The model only assumes its output length, `ceil(n / down)`.
- `Paths` (paths.dfy): `os.path.splitext`, `split` and `join` on POSIX, `str()` of a natural number, and `chunk_dir_path`.
- `Writer` (writer.dfy): the document `write_index_json` writes, and the `write_chunks` loops. The loops are methods that emit the sequence of (path, record) pairs. That sequence is proved equal to a specification function, and its layout is proved position by position.
- `Conversion` (conversion.dfy): `eeglab_to_chunks` and `write_eeglab_chunks`, with the reader's output as a parameter.

When the arguments are invalid, `create_downsampled_channels_list` raises, and the model returns a `Failure` instead:

- `math.log` of a recording with no samples, or of a chunk size of zero or less, is a domain error;
- a chunk size of one makes `math.log(chunk_size)` zero, and dividing by it raises.

The source also raises for a recording longer than one chunk but shorter than two (`S < N < 2S`). There the factor it computes is 0, and `resample_poly` rejects `down=0`. The model does not reproduce that failure. It uses the corrected factor described under "## Findings", and every statement below about the pyramid is about the corrected factor.

The chunk size on the command line defaults to 50000. With the corrected factor, a recording of 2 to `4 * S - 1` samples has a single level, the recording itself (`Pyramid.ShortInputSingleLevel`). This includes a 120000-sample recording at the default chunk size. The source, as written, raises for such a recording only when `S < N < 2S`. For `2 <= N <= S` it also keeps the recording alone. A recording of a single sample has no level at all, because `log 1` is 0 (`Pyramid.LevelsStartWithInput`).

## Model

| member | source | states |
|---|---|---|
| Partitioner.CeilDiv | python/eeglab_to_chunks.py:22 | `math.ceil(n / s)` is the least k with `n <= k*s`. |
| Partitioner.CeilDivExact | python/eeglab_to_chunks.py:22 | A length that is already a multiple of s gives exactly that many chunks. |
| Partitioner.Padding | python/eeglab_to_chunks.py:22-24 | The padding is below s, and n plus the padding is `ceil(n/s)*s`. |
| Partitioner.PaddingIsLeastCompletion | python/eeglab_to_chunks.py:22-24 | The padded length is a multiple of s, and no shorter length from n upward is one. |
| Partitioner.PadChannels | python/eeglab_to_chunks.py:21-29 | Padding changes only the last axis, and its new length is the padded length. |
| Partitioner.PaddedRow | python/eeglab_to_chunks.py:25-28 | Every padded row is the original row followed by `padding` zeros. |
| Partitioner.ChannelsToChunks | python/eeglab_to_chunks.py:32-40 | A `[..., N]` tensor becomes `[..., ceil(N/S), S]`. |
| Partitioner.ChunkShapeProduct | python/eeglab_to_chunks.py:36-39 | The reshape keeps the element count: the leading axes times `ceil(N/S) * S`. |
| Partitioner.ChunkRows | python/eeglab_to_chunks.py:33-39 | The chunk tensor holds the padded data unchanged, in rows of S, with `ceil(N/S)` rows per input row. |
| Partitioner.ChunkIsPaddedSlice | python/eeglab_to_chunks.py:33-39 | Chunk k of row i is padded samples `[k*S, (k+1)*S)` of that row. |
| Partitioner.ChunksReassemble | python/eeglab_to_chunks.py:33-39 | Concatenating row i's chunks in order and cutting at N gives row i back. |
| Partitioner.CreateChunksFromChannelsList | python/eeglab_to_chunks.py:43-48 | One chunk tensor per level, in order, each `channels_to_chunks` of that level with its shape. |
| Pyramid.LevelCount | python/eeglab_to_chunks.py:62-64 | Definition: the number of candidate levels, one more per division by S (rounding up) until a single sample is left. Its meaning is stated by LevelCountIsLeast. |
| Pyramid.LevelCountIsLeast | python/eeglab_to_chunks.py:62-64 | The number of candidate levels is the least L with `N <= S^L`. |
| Pyramid.LevelCountTop | python/eeglab_to_chunks.py:62-64 | `S^(L-1) < N <= S^L` for the candidate count L. |
| Pyramid.TwoLevelsIffLonger | python/eeglab_to_chunks.py:62-64 | There is a candidate level iff N > 1, and a second one iff N > S. |
| Pyramid.DownsampleFactorAsWritten | python/eeglab_to_chunks.py:54-57 | Definition: the factor exactly as written, `S^d`, or `floor(N / 2S)` when `N <= 2S * S^d`. Its zero case is stated by AsWrittenFactorZero. |
| Pyramid.AsWrittenFactorZero | python/eeglab_to_chunks.py:54-57 | As written, the factor of an existing level d >= 1 is 0 iff N < 2S. |
| Pyramid.FiveSamplesInChunksOfFour | python/eeglab_to_chunks.py:54-58 | With S = 4 and N = 5 there are two candidate levels, and level 1 gets factor 0 as written. |
| Pyramid.DownsampleFactor | python/eeglab_to_chunks.py:54-57 | The corrected factor is at least 1, and equals the written one whenever that one is at least 1. |
| Pyramid.LevelWidth | python/eeglab_to_chunks.py:52-58 | Definition: the length of level d, N for d = 0 and `ceil(N / factor)` otherwise. Its bounds are stated by CoarseLevelWidth. |
| Pyramid.CoarseLevelWidth | python/eeglab_to_chunks.py:54-58 | A coarser level is never longer than the input. It has at least 2S samples if the input does. Below 2S samples (or 4S with S >= 2) it keeps all N. |
| Pyramid.DownsampleFactorMonotone | python/eeglab_to_chunks.py:54-57 | Deeper levels never get a smaller factor. |
| Pyramid.LevelWidthMonotone | python/eeglab_to_chunks.py:54-58 | Deeper levels are never longer. |
| Pyramid.ResampleRows | python/eeglab_to_chunks.py:58 | Resampling along the last axis keeps the leading axes, and its length becomes `ceil(n/f)`. |
| Pyramid.ResampledRow | python/eeglab_to_chunks.py:58 | Each row of the result is the resampler applied to that row. |
| Pyramid.DownsampleChannels | python/eeglab_to_chunks.py:51-58 | Level 0 is the input itself. Every level keeps the leading axes and has the level's length. |
| Pyramid.CandidateLevels | python/eeglab_to_chunks.py:62-68 | One candidate per level number, level d being `downsample_channels(x, S, d)`. |
| Pyramid.KeepFirsts | python/eeglab_to_chunks.py:69-76 | Definition: the candidates whose length did not occur earlier, in order. Its meaning is stated by KeepFirstsSelects. |
| Pyramid.KeepFirstsSelects | python/eeglab_to_chunks.py:69-76 | The kept levels are exactly the first level of each length, in encounter order. |
| Pyramid.KeepFirstsSizes | python/eeglab_to_chunks.py:69-76 | Every length among the candidates appears among the kept levels. |
| Pyramid.KeepFirstsDistinct | python/eeglab_to_chunks.py:69-76 | The kept levels have pairwise distinct lengths. |
| Pyramid.KeepFirstsHead | python/eeglab_to_chunks.py:69-76 | The first candidate is always kept, first. |
| Pyramid.KeepFirstsStep | python/eeglab_to_chunks.py:71-75 | One loop step: a level whose length was seen is skipped, otherwise it is appended and its length recorded. |
| Pyramid.KeepFirstsOneSize | python/eeglab_to_chunks.py:69-76 | Candidates of one length collapse to the first. |
| Pyramid.DedupBySize | python/eeglab_to_chunks.py:69-76 | The loop over the candidates, with its set of seen lengths, returns exactly the first level of each length. |
| Pyramid.CreateDownsampledChannelsList | python/eeglab_to_chunks.py:61-76 | Fails iff N = 0 or S <= 1: a domain error for N = 0 or S <= 0, a division by zero for S = 1. Otherwise it returns the deduplicated pyramid built with the corrected factor. For `S < N < 2S` that means success where the source raises. |
| Pyramid.Levels | python/eeglab_to_chunks.py:61-76 | The pyramid: the deduplicated candidate levels. Every level keeps the input's leading axes. |
| Pyramid.LevelsStartWithInput | python/eeglab_to_chunks.py:61-76 | The pyramid is empty iff N = 1. Otherwise its first level is the input. |
| Pyramid.LevelsDistinctSizes | python/eeglab_to_chunks.py:69-76 | No two levels of the pyramid have the same length. |
| Pyramid.LevelsCoarseSizes | python/eeglab_to_chunks.py:54-76 | Every level after the first has between 2S samples and fewer than N. |
| Pyramid.LevelsStrictlyDecreasing | python/eeglab_to_chunks.py:54-76 | The pyramid's levels get strictly shorter. |
| Pyramid.ShortInputSingleLevel | python/eeglab_to_chunks.py:54-76 | With the corrected factor, S >= 2 and 2 <= N < 4S, the pyramid is the input alone. As written, the source raises when S < N < 2S. |
| Paths.NatToString | python/eeglab_to_chunks.py:131-133 | `str(n)` is a non-empty run of decimal digits without a leading zero. |
| Paths.NatToStringRoundTrip | python/eeglab_to_chunks.py:131-133 | Reading `str(n)` back as a decimal gives n. |
| Paths.NatToStringInjective | python/eeglab_to_chunks.py:131-133 | Different numbers have different numerals. |
| Paths.SplitExt | python/eeglab_to_chunks.py:80 | `splitext` gives a root and extension that concatenate to the path. The extension is empty or one dot followed by no dot and no '/'. |
| Paths.SplitExtHasExtension | python/eeglab_to_chunks.py:80 | `splitext` finds an extension exactly when the final component has a '.' with something other than '.' before it in that component. |
| Paths.Split | python/eeglab_to_chunks.py:81 | `split` gives a tail with no '/' and a head that is a prefix of the path. Only '/'s lie between them. The head keeps no trailing '/' unless it is made of '/'s only, and then it is kept whole. |
| Paths.Join2 | python/eeglab_to_chunks.py:84 | `join` of two components: an absolute component replaces the path. Otherwise the path, then one '/' unless the path is empty or already ends in '/', then the component. |
| Paths.Join | python/eeglab_to_chunks.py:84 | Definition: `os.path.join` with several components, one component at a time. |
| Paths.Stem | python/eeglab_to_chunks.py:80-81 | Definition: the final component of the input without its extension. StemIsFileName states what it keeps. |
| Paths.ParentDir | python/eeglab_to_chunks.py:81-82 | Definition: the destination if one is given, otherwise the head of the input without its extension. |
| Paths.ChunkDirPath | python/eeglab_to_chunks.py:79-85 | The chunk directory's name ends in `.chunks`. |
| Paths.StemIsFileName | python/eeglab_to_chunks.py:80-81 | The directory name is the input's file name with only its extension removed. |
| Paths.ChunkDirPathJoined | python/eeglab_to_chunks.py:79-85 | For every parent and prefix: without a prefix, the stem joined to the parent, plus `.chunks`. With a prefix, the join of parent and prefix, then a '/' unless the prefix ends in one, then the stem and `.chunks`. |
| Paths.JoinTwoParts | python/eeglab_to_chunks.py:84 | `os.path.join(root, prefix, name)` for a name without '/': an empty prefix adds nothing, and a non-empty one is followed by a '/' unless it ends in one. |
| Paths.ChunkDirPathUnderParent | python/eeglab_to_chunks.py:79-85 | With a parent not ending in '/' and a relative prefix: `parent/prefix/stem.chunks`, or `parent/stem.chunks` without a prefix. The parent is the destination if one is given, otherwise the input's directory. |
| Paths.ChunkDirPathTrailingSep | python/eeglab_to_chunks.py:79-85 | With a parent ending in '/' (such as `out/` or `/`) and a relative prefix: `parentprefix/stem.chunks`, or `parentstem.chunks`, with no doubled '/'. |
| Paths.ChunkDirPathAbsolutePrefix | python/eeglab_to_chunks.py:83-85 | An absolute prefix replaces the parent: `prefix/stem.chunks`. |
| Paths.ChunkDirPathBare | python/eeglab_to_chunks.py:79-85 | Without a parent it is `prefix/stem.chunks`, or `stem.chunks`. |
| Paths.ChunkDirPathIsDirectory | python/eeglab_to_chunks.py:85 | The chunk directory is non-empty and ends in 's', so joins under it insert a '/'. |
| Writer.Range | python/eeglab_to_chunks.py:170 | `range(n)` lists 0 to n-1. |
| Writer.IndexJson | python/eeglab_to_chunks.py:96-109 | Definition: the path `join(chunk_dir, 'index.json')` and the document with the five keys. |
| Writer.EeglabIndex | python/eeglab_to_chunks.py:166-172 | Definition: the call with `range(len(levels))` and the default empty trace types. Its content is stated by EeglabIndexDescribesLevels. |
| Writer.EeglabIndexDescribesLevels | python/eeglab_to_chunks.py:96-106 | The index has one downsampling number and one shape per level, `downsamplings[i] == i`, `shapes[i]` the shape of level i. It has the given time interval and chunk size and empty trace types. |
| Writer.IndexPathLayout | python/eeglab_to_chunks.py:108 | `index.json` goes to `chunkDir/index.json`. |
| Writer.TracePath | python/eeglab_to_chunks.py:128-134 | Definition: the join of chunk directory, `raw`, level, channel and trace. |
| Writer.ChunkPath | python/eeglab_to_chunks.py:137-138 | Definition: the trace path joined with the chunk number, plus `.buf`. Its layout is stated by ChunkPathLayout. |
| Writer.TracePathNested | python/eeglab_to_chunks.py:128-134 | The trace directory is the nested join of raw, level, channel and trace. |
| Writer.ChunkPathLayout | python/eeglab_to_chunks.py:128-138 | Chunk (d, c, t, k) goes to `chunkDir/raw/d/c/t/k.buf`. |
| Writer.ChunkPathInjective | python/eeglab_to_chunks.py:128-138 | Different chunks go to different files. |
| Writer.FileFor | python/eeglab_to_chunks.py:136-140 | Definition: the path and record of chunk (d, c, t, k). Its contents are stated by FileForContents. |
| Writer.ChunkFiles | python/eeglab_to_chunks.py:125-142 | Definition: the files of all levels, each level's channels in order, each channel's traces in order, each trace's chunks in order. Its layout is stated by ChunkFilesEnumerate. |
| Writer.ChunkRowInRange | python/eeglab_to_chunks.py:125-136 | Every (channel, trace, chunk) in range names a row of the chunk tensor. |
| Writer.ChannelFilesAt | python/eeglab_to_chunks.py:127-142 | Within a channel, chunk (t, k) is file `t*K + k`. |
| Writer.LevelFilesAt | python/eeglab_to_chunks.py:126-142 | A level writes one file per chunk. Chunk (c, t, k) is the file at its row in the chunk tensor. |
| Writer.ChunkFilesLength | python/eeglab_to_chunks.py:125-142 | `write_chunks` writes one file per chunk of every level. |
| Writer.ChunkFilesEnumerate | python/eeglab_to_chunks.py:125-142 | Chunk (d, c, t, k) is written at position `ChunksBefore(d) + ChunkRow(c, t, k)`, i.e. in level, channel, trace, chunk order. |
| Writer.FileForContents | python/eeglab_to_chunks.py:136-140 | Each chunk file's path is `chunkDir/raw/d/c/t/k.buf`. Its record carries index k, downsampling d and the chunk's S samples. |
| Writer.WriteChannel | python/eeglab_to_chunks.py:127-142 | The trace and chunk loops of one channel emit exactly that channel's files, in order. |
| Writer.WriteLevel | python/eeglab_to_chunks.py:126-142 | The channel loop of one level emits exactly that level's files, in order. |
| Writer.WriteChunks | python/eeglab_to_chunks.py:118-142 | The four loops emit exactly the specified files, in order. |
| Conversion.ExpandTraceAxis | python/eeglab_to_chunks.py:155 | `expand_dims(axis=-2)` turns `[C, N]` into `[C, 1, N]` and leaves every channel's samples unchanged. |
| Conversion.PyramidOf | python/eeglab_to_chunks.py:155-157 | Every level of the recording's pyramid has shape `[C, 1, n_d]`. |
| Conversion.EeglabToChunks | python/eeglab_to_chunks.py:151-160 | Fails iff N = 0 or S <= 1. Otherwise there is one chunk tensor per level of the pyramid built with the corrected factor, of shape `[C, 1, ceil(n_d/S), S]`. |
| Conversion.WriteEeglabChunks | python/eeglab_to_chunks.py:163-173 | The output has the chunk directory and `chunkDir/index.json`. The index is consistent with the chunk tensors: chunk size, time interval, `downsamplings[d] == d`, `shapes[d]`. The files are exactly those of the chunk tensors. |
| Conversion.ChunkFileHoldsSamples | python/eeglab_to_chunks.py:125-140 | End to end: the file of chunk k of channel c of level d holds k, d and samples `[k*S, (k+1)*S)` of that channel, zero-padded. |
| Conversion.FirstLevelIsRecording | python/eeglab_to_chunks.py:151-157 | For N >= 2, level 0 is the recording with a trace axis, and each of its channels holds the recorded samples. |

## Left out

- `signal.resample_poly` (python/eeglab_to_chunks.py:58) is polyphase filtering. It is a parameter of the model, required to return `ceil(n / down)` samples per row. Nothing is assumed about the sample values.
- The candidate level count uses floating-point logarithms, `ceil(log N / log S)`. The model uses the least L with `N <= S^L`. The two can differ when rounding puts `log N / log S` on the wrong side of an integer.
- `DownsampleFactorAsWritten` compares `N / S^d <= 2S` exactly. The source compares floats, which can differ at the boundary for very large N.
- Partitioner.CeilDiv: the divisions at python/eeglab_to_chunks.py:22, 36 and 57 are float divisions in the source. The model's integer arithmetic agrees with them only below 2^53 samples.
- `encode_chunk` (Protocol Buffers `FloatChunk`) is not modelled. A file's content is the record triple (index, downsampling, samples). The conversion of samples to 32-bit floats is left out, and so are the unsigned 32-bit bounds on index and downsampling.
- Samples are `real`, not floating point.
- File-system effects are not modelled: `create_path_dirs` with its EEXIST handling, `shutil.rmtree` of `raw/`, opening and writing files. The model produces the paths and contents that would be written, in order. The `except e:` clause at python/eeglab_to_chunks.py:123 is therefore not modelled.
- `load_channels` and `mne.io.read_raw_eeglab` are not part of this model. The recording's matrix and time interval are parameters. For a recording with no samples, the source fails on `parsed.times[0]` at python/eeglab_to_chunks.py:154 before it reaches the level count. The model reports the level count's domain error instead.
- The argparse command line and the loop over input files are not modelled.
- `Paths.Split` and `Paths.SplitExt` follow POSIX `os.path` and do not cover Windows separators or drives.
- Pyramid.CreateDownsampledChannelsList: for `S < N < 2S` the source raises ValueError, because `resample_poly` gets `down=0`. The model uses the corrected factor and succeeds there with the input as the only level. The as-written behaviour is recorded under "## Findings".
- Conversion.EeglabToChunks: for `S < N < 2S` it succeeds with one level where the source raises ValueError, for the same reason.
- Conversion.WriteEeglabChunks: for `S < N < 2S` it returns the chunk directory, index and files of a single level. The source raises before it writes anything.
- `Writer.IndexJson` takes `trace_types` as a parameter. Only its default, the empty dict, is used by the conversion.

## Findings

| source | as written | input that shows it | evidently intended | confidence | as-written member | corrected member |
|---|---|---|---|---|---|---|
| python/eeglab_to_chunks.py:56-58 | When `N / S^d <= 2S`, the factor becomes `floor(N / (2S))`, which is 0 for `S < N < 2S`. `resample_poly` is then called with `down=0` and raises. | N = 5 samples, chunk size S = 4: two candidate levels, and level 1 gets factor 0. | A factor of at least 1. Such a level then keeps all N samples and is dropped as a duplicate of level 0. | not executed | Pyramid.FiveSamplesInChunksOfFour | Pyramid.DownsampleFactor |
