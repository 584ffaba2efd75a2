/** What write_eeglab_chunks puts on disk: index.json describing the levels,
    and one FloatChunk record per chunk under
    raw/<level>/<channel>/<trace>/<chunk>.buf. Only the names and contents
    are modelled, not the file system. */
module Writer {
  import opened Tensors
  import opened Paths

  /** The fields of one FloatChunk message. */
  datatype ChunkRecord = ChunkRecord(index: nat, downsampling: nat, samples: seq<real>)

  /** One chunk file: its path and the record written to it. */
  datatype ChunkFile = ChunkFile(path: string, record: ChunkRecord)

  /** The JSON object of index.json. */
  datatype IndexDocument = IndexDocument(
    timeInterval: (real, real),
    chunkSize: nat,
    downsamplings: seq<nat>,
    shapes: seq<seq<nat>>,
    traceTypes: map<string, string>)

  // The index document.

  /** list(range(n)) */
  function Range(n: nat): (r: seq<nat>)
    ensures |r| == n && forall i :: 0 <= i < n ==> r[i] == i
  {
    seq(n, i => i)
  }

  /** Where index.json goes. */
  function IndexPath(chunkDir: string): string
  {
    Join2(chunkDir, "index.json")
  }

  /** write_index_json: the path and the document written there. */
  function IndexJson(chunkDir: string, timeInterval: (real, real), chunkSize: nat, downsamplings: seq<nat>,
                     levels: seq<Tensor>, traceTypes: map<string, string>): (string, IndexDocument)
  {
    var shapes := seq(|levels|, i requires 0 <= i < |levels| => levels[i].shape);
    (IndexPath(chunkDir), IndexDocument(timeInterval, chunkSize, downsamplings, shapes, traceTypes))
  }

  /** The call in write_eeglab_chunks: downsamplings is range(len(levels))
      and traceTypes keeps its default, the empty dict. */
  function EeglabIndex(chunkDir: string, timeInterval: (real, real), chunkSize: nat, levels: seq<Tensor>): (string, IndexDocument)
  {
    IndexJson(chunkDir, timeInterval, chunkSize, Range(|levels|), levels, map[])
  }

  /** The index lists one downsampling number per level, numbered from 0,
      and each level's shape under the same position. */
  lemma {:induction false} EeglabIndexDescribesLevels(chunkDir: string, timeInterval: (real, real), chunkSize: nat, levels: seq<Tensor>)
    ensures var doc := EeglabIndex(chunkDir, timeInterval, chunkSize, levels).1;
      && |doc.downsamplings| == |doc.shapes| == |levels|
      && (forall i :: 0 <= i < |levels| ==> doc.downsamplings[i] == i && doc.shapes[i] == levels[i].shape)
      && doc.chunkSize == chunkSize && doc.timeInterval == timeInterval && doc.traceTypes == map[]
  {
  }

  /** Under a directory name that does not end in '/', index.json is
      chunkDir/index.json. */
  lemma {:induction false} IndexPathLayout(chunkDir: string)
    requires chunkDir != [] && chunkDir[|chunkDir| - 1] != '/'
    ensures IndexPath(chunkDir) == chunkDir + "/index.json"
  {
  }

  // Chunk paths.

  /** os.path.join(chunk_dir, 'raw', str(d), str(c), str(t)). */
  function TracePath(chunkDir: string, d: nat, c: nat, t: nat): string
  {
    Join(chunkDir, ["raw", NatToString(d), NatToString(c), NatToString(t)])
  }

  /** os.path.join(trace_path, str(k)) + '.buf'. */
  function ChunkPath(chunkDir: string, d: nat, c: nat, t: nat, k: nat): string
  {
    Join2(TracePath(chunkDir, d, c, t), NatToString(k)) + ".buf"
  }

  /** Joining a numeral: it neither starts with '/' nor ends with one. */
  lemma {:induction false} JoinNumeral(path: string, n: nat)
    requires path != [] && path[|path| - 1] != '/'
    ensures Join2(path, NatToString(n)) == path + "/" + NatToString(n)
    ensures var r := Join2(path, NatToString(n)); r[|r| - 1] != '/'
  {
  }

  /** os.path.join with several components is one join after another. */
  lemma {:induction false} TracePathNested(chunkDir: string, d: nat, c: nat, t: nat)
    ensures TracePath(chunkDir, d, c, t)
      == Join2(Join2(Join2(Join2(chunkDir, "raw"), NatToString(d)), NatToString(c)), NatToString(t))
  {
    var parts := ["raw", NatToString(d), NatToString(c), NatToString(t)];
    var rest: seq<string> := [NatToString(d), NatToString(c), NatToString(t)];
    var last: seq<string> := [NatToString(c), NatToString(t)];
    assert parts[1..] == rest && rest[1..] == last;
    var p1 := Join2(Join2(chunkDir, "raw"), NatToString(d));
    assert Join(chunkDir, parts) == Join(p1, last);
    JoinPair(p1, NatToString(c), NatToString(t));
  }

  /** The chunk (d, c, t, k) goes to chunkDir/raw/d/c/t/k.buf. */
  lemma {:induction false} ChunkPathLayout(chunkDir: string, d: nat, c: nat, t: nat, k: nat)
    requires chunkDir != [] && chunkDir[|chunkDir| - 1] != '/'
    ensures ChunkPath(chunkDir, d, c, t, k)
      == chunkDir + "/" + "raw" + "/" + NatToString(d) + "/" + NatToString(c) + "/" + NatToString(t)
         + "/" + NatToString(k) + ".buf"
  {
    TracePathNested(chunkDir, d, c, t);
    var p0 := Join2(chunkDir, "raw");
    var p1 := Join2(p0, NatToString(d));
    JoinNumeral(p0, d);
    var p2 := Join2(p1, NatToString(c));
    JoinNumeral(p1, c);
    var p3 := Join2(p2, NatToString(t));
    JoinNumeral(p2, t);
    JoinNumeral(p3, k);
  }

  /** A '/' before a final component without '/' marks where it starts. */
  lemma {:induction false} SplitAtLastSep(x: string, u: string, y: string, v: string)
    requires '/' !in u && '/' !in v && x + "/" + u == y + "/" + v
    ensures x == y && u == v
  {
    var l := x + "/" + u;
    RFindAppend(x + "/", u, '/');
    RFindAppend(y + "/", v, '/');
    assert RFind(x + "/", '/') == |x|;
    assert RFind(y + "/", '/') == |y|;
    assert x == l[..|x|] && y == l[..|y|];
    assert u == l[|x| + 1..] && v == l[|y| + 1..];
  }

  /** Joining a numeral loses nothing: path and number can be read back. */
  lemma {:induction false} JoinNumeralInjective(p: string, n: nat, p': string, n': nat)
    requires p != [] && p[|p| - 1] != '/' && p' != [] && p'[|p'| - 1] != '/'
    requires Join2(p, NatToString(n)) == Join2(p', NatToString(n'))
    ensures p == p' && n == n'
  {
    JoinNumeral(p, n);
    JoinNumeral(p', n');
    SplitAtLastSep(p, NatToString(n), p', NatToString(n'));
    NatToStringInjective(n, n');
  }

  /** Different chunks go to different files. */
  lemma {:induction false} ChunkPathInjective(chunkDir: string, d: nat, c: nat, t: nat, k: nat,
                                              d': nat, c': nat, t': nat, k': nat)
    requires chunkDir != [] && chunkDir[|chunkDir| - 1] != '/'
    requires ChunkPath(chunkDir, d, c, t, k) == ChunkPath(chunkDir, d', c', t', k')
    ensures d == d' && c == c' && t == t' && k == k'
  {
    TracePathNested(chunkDir, d, c, t);
    TracePathNested(chunkDir, d', c', t');
    var p0 := Join2(chunkDir, "raw");
    var p1, p1' := Join2(p0, NatToString(d)), Join2(p0, NatToString(d'));
    var p2, p2' := Join2(p1, NatToString(c)), Join2(p1', NatToString(c'));
    var p3, p3' := Join2(p2, NatToString(t)), Join2(p2', NatToString(t'));
    JoinNumeral(p0, d);
    JoinNumeral(p0, d');
    JoinNumeral(p1, c);
    JoinNumeral(p1', c');
    JoinNumeral(p2, t);
    JoinNumeral(p2', t');
    var q, q' := Join2(p3, NatToString(k)), Join2(p3', NatToString(k'));
    assert q == (q + ".buf")[..|q|];
    assert q' == (q' + ".buf")[..|q'|];
    JoinNumeralInjective(p3, k, p3', k');
    JoinNumeralInjective(p2, t, p2', t');
    JoinNumeralInjective(p1, c, p1', c');
    JoinNumeralInjective(p0, d, p0, d');
  }

  // The chunk enumeration.

  /** A chunk tensor as write_chunks walks it: [channels, traces, chunks,
      chunk size]. */
  predicate IsChunkTensor(level: Tensor)
  {
    HasSampleAxis(level) && |level.shape| == 4
  }

  /** Row of chunk k of trace t of channel c in a chunk tensor. */
  function ChunkRow(level: Tensor, c: nat, t: nat, k: nat): nat
    requires |level.shape| == 4
  {
    Mul(Mul(c, level.shape[1]) + t, level.shape[2]) + k
  }

  /** A chunk tensor has C * T * K rows of chunk-size samples, and every
      (c, t, k) in range names one of them. */
  lemma {:induction false} ChunkRowInRange(level: Tensor, c: nat, t: nat, k: nat)
    requires IsChunkTensor(level)
    requires c < level.shape[0] && t < level.shape[1] && k < level.shape[2]
    ensures RowCount(level) == Mul(Mul(level.shape[0], level.shape[1]), level.shape[2])
    ensures ChunkRow(level, c, t, k) < RowCount(level)
  {
    var sh := level.shape;
    RowCountOfChunkTensor(level);
    MulBound(c, sh[0], sh[1]);
    MulBound(Mul(c, sh[1]) + t, Mul(sh[0], sh[1]), sh[2]);
  }

  lemma {:induction false} RowCountOfChunkTensor(level: Tensor)
    requires IsChunkTensor(level)
    ensures RowCount(level) == Mul(Mul(level.shape[0], level.shape[1]), level.shape[2])
  {
    var sh := level.shape;
    var lead := Leading(level);
    var two := [sh[0], sh[1]];
    var one := [sh[0]];
    assert lead == two + [sh[2]];
    assert two == one + [sh[1]];
    assert one == [] + [sh[0]];
    ProductSnoc(two, sh[2]);
    ProductSnoc(one, sh[1]);
    ProductSnoc([], sh[0]);
    MulOneLeft(sh[0]);
  }

  /** The file written for chunk (c, t, k) of level d. */
  function FileFor(chunkDir: string, d: nat, level: Tensor, c: nat, t: nat, k: nat): ChunkFile
    requires IsChunkTensor(level)
    requires c < level.shape[0] && t < level.shape[1] && k < level.shape[2]
  {
    ChunkRowInRange(level, c, t, k);
    ChunkFile(ChunkPath(chunkDir, d, c, t, k), ChunkRecord(k, d, Row(level, ChunkRow(level, c, t, k))))
  }

  /** The files of one trace, in chunk order. */
  function TraceFiles(chunkDir: string, d: nat, level: Tensor, c: nat, t: nat): (files: seq<ChunkFile>)
    requires IsChunkTensor(level) && c < level.shape[0] && t < level.shape[1]
    ensures |files| == level.shape[2]
  {
    seq(level.shape[2], k requires 0 <= k < level.shape[2] => FileFor(chunkDir, d, level, c, t, k))
  }

  /** The traces of channel c, one block per trace. */
  function TraceBlocks(chunkDir: string, d: nat, level: Tensor, c: nat): (blocks: seq<seq<ChunkFile>>)
    requires IsChunkTensor(level) && c < level.shape[0]
    ensures |blocks| == level.shape[1]
    ensures forall t :: 0 <= t < |blocks| ==> |blocks[t]| == level.shape[2]
  {
    seq(level.shape[1], t requires 0 <= t < level.shape[1] => TraceFiles(chunkDir, d, level, c, t))
  }

  /** The files of channel c, trace by trace. */
  function ChannelFiles(chunkDir: string, d: nat, level: Tensor, c: nat): (files: seq<ChunkFile>)
    requires IsChunkTensor(level) && c < level.shape[0]
    ensures |files| == Mul(level.shape[1], level.shape[2])
  {
    var blocks := TraceBlocks(chunkDir, d, level, c);
    ConcatLength(blocks, level.shape[2]);
    Concat(blocks)
  }

  /** The channels of a level, one block per channel. */
  function ChannelBlocks(chunkDir: string, d: nat, level: Tensor): (blocks: seq<seq<ChunkFile>>)
    requires IsChunkTensor(level)
    ensures |blocks| == level.shape[0]
    ensures forall c :: 0 <= c < |blocks| ==> |blocks[c]| == Mul(level.shape[1], level.shape[2])
  {
    seq(level.shape[0], c requires 0 <= c < level.shape[0] => ChannelFiles(chunkDir, d, level, c))
  }

  /** The files of level d, channel by channel. */
  function LevelFiles(chunkDir: string, d: nat, level: Tensor): seq<ChunkFile>
    requires IsChunkTensor(level)
  {
    Concat(ChannelBlocks(chunkDir, d, level))
  }

  predicate AllChunkTensors(levels: seq<Tensor>)
  {
    forall d :: 0 <= d < |levels| ==> IsChunkTensor(levels[d])
  }

  /** The levels, one block per level. */
  function LevelBlocks(chunkDir: string, levels: seq<Tensor>): (blocks: seq<seq<ChunkFile>>)
    requires AllChunkTensors(levels)
    ensures |blocks| == |levels|
  {
    seq(|levels|, d requires 0 <= d < |levels| => LevelFiles(chunkDir, d, levels[d]))
  }

  /** Every file write_chunks writes, in the order it writes them. */
  function ChunkFiles(chunkDir: string, levels: seq<Tensor>): seq<ChunkFile>
    requires AllChunkTensors(levels)
  {
    Concat(LevelBlocks(chunkDir, levels))
  }

  /** Number of chunks in the levels before d. */
  function ChunksBefore(levels: seq<Tensor>, d: nat): nat
    requires AllChunkTensors(levels) && d <= |levels|
  {
    if d == 0 then 0 else ChunksBefore(levels, d - 1) + RowCount(levels[d - 1])
  }

  /** Chunk (t, k) of channel c is at position t * K + k of the channel's
      files. */
  lemma {:induction false} ChannelFilesAt(chunkDir: string, d: nat, level: Tensor, c: nat, t: nat, k: nat)
    requires IsChunkTensor(level)
    requires c < level.shape[0] && t < level.shape[1] && k < level.shape[2]
    ensures Mul(t, level.shape[2]) + k < Mul(level.shape[1], level.shape[2])
    ensures ChannelFiles(chunkDir, d, level, c)[Mul(t, level.shape[2]) + k] == FileFor(chunkDir, d, level, c, t, k)
  {
    var traces := TraceBlocks(chunkDir, d, level, c);
    ConcatAt(traces, level.shape[2], t, k);
    assert traces[t][k] == FileFor(chunkDir, d, level, c, t, k);
    MulBound(t, level.shape[1], level.shape[2]);
  }

  /** Position c * (T * K) + t * K + k is the chunk's row. */
  lemma {:induction false} ChunkRowSplit(level: Tensor, c: nat, t: nat, k: nat)
    requires |level.shape| == 4
    ensures Mul(c, Mul(level.shape[1], level.shape[2])) + (Mul(t, level.shape[2]) + k) == ChunkRow(level, c, t, k)
  {
    var sh := level.shape;
    MulAssoc(c, sh[1], sh[2]);
    MulAddLeft(Mul(c, sh[1]), t, sh[2]);
  }

  /** A level writes one file per row of its chunk tensor, and chunk
      (c, t, k) is the file at its row's position. */
  lemma {:induction false} LevelFilesAt(chunkDir: string, d: nat, level: Tensor, c: nat, t: nat, k: nat)
    requires IsChunkTensor(level)
    requires c < level.shape[0] && t < level.shape[1] && k < level.shape[2]
    ensures |LevelFiles(chunkDir, d, level)| == RowCount(level)
    ensures ChunkRow(level, c, t, k) < RowCount(level)
    ensures LevelFiles(chunkDir, d, level)[ChunkRow(level, c, t, k)] == FileFor(chunkDir, d, level, c, t, k)
  {
    var sh := level.shape;
    var w := Mul(sh[1], sh[2]);
    var j := Mul(t, sh[2]) + k;
    var blocks := ChannelBlocks(chunkDir, d, level);
    ChunkRowInRange(level, c, t, k);
    LevelFilesLength(chunkDir, d, level);
    assert j < w && blocks[c][j] == FileFor(chunkDir, d, level, c, t, k) by {
      assert blocks[c] == ChannelFiles(chunkDir, d, level, c);
      ChannelFilesAt(chunkDir, d, level, c, t, k);
    }
    assert Mul(c, w) + j == ChunkRow(level, c, t, k) by {
      ChunkRowSplit(level, c, t, k);
    }
    ConcatPick(blocks, w, c, j, ChunkRow(level, c, t, k), FileFor(chunkDir, d, level, c, t, k));
  }

  /** ConcatAt, with the position and the element named. */
  lemma {:induction false} ConcatPick<X>(xss: seq<seq<X>>, w: nat, r: nat, j: nat, i: nat, x: X)
    requires forall n :: 0 <= n < |xss| ==> |xss[n]| == w
    requires r < |xss| && j < w && i == Mul(r, w) + j && xss[r][j] == x
    ensures i < |Concat(xss)| && Concat(xss)[i] == x
  {
    ConcatAt(xss, w, r, j);
  }

  lemma {:induction false} LevelFilesLength(chunkDir: string, d: nat, level: Tensor)
    requires IsChunkTensor(level)
    ensures |LevelFiles(chunkDir, d, level)| == RowCount(level)
  {
    var sh := level.shape;
    RowCountOfChunkTensor(level);
    ConcatLength(ChannelBlocks(chunkDir, d, level), Mul(sh[1], sh[2]));
    MulAssoc(sh[0], sh[1], sh[2]);
  }

  /** Element i of block d of a concatenation sits after all earlier blocks. */
  lemma {:induction false} ConcatOffset<X>(xss: seq<seq<X>>, d: nat, i: nat)
    requires d < |xss| && i < |xss[d]|
    ensures |Concat(xss[..d])| + i < |Concat(xss)|
    ensures Concat(xss)[|Concat(xss[..d])| + i] == xss[d][i]
  {
    var n := |xss| - 1;
    assert Concat(xss) == Concat(xss[..n]) + xss[n];
    if d < n {
      assert xss[..n][..d] == xss[..d];
      ConcatOffset(xss[..n], d, i);
    } else {
      assert xss[..n] == xss[..d];
    }
  }

  /** The blocks before d hold exactly the chunks of the levels before d. */
  lemma {:induction false} LevelBlocksBefore(chunkDir: string, levels: seq<Tensor>, d: nat)
    requires AllChunkTensors(levels) && d <= |levels|
    ensures |Concat(LevelBlocks(chunkDir, levels)[..d])| == ChunksBefore(levels, d)
  {
    if d > 0 {
      var blocks := LevelBlocks(chunkDir, levels);
      LevelBlocksBefore(chunkDir, levels, d - 1);
      assert blocks[..d][..d - 1] == blocks[..d - 1];
      LevelFilesLength(chunkDir, d - 1, levels[d - 1]);
    }
  }

  /** write_chunks writes one file per chunk of every level. */
  lemma {:induction false} ChunkFilesLength(chunkDir: string, levels: seq<Tensor>)
    requires AllChunkTensors(levels)
    ensures |ChunkFiles(chunkDir, levels)| == ChunksBefore(levels, |levels|)
  {
    var blocks := LevelBlocks(chunkDir, levels);
    LevelBlocksBefore(chunkDir, levels, |levels|);
    assert blocks[..|blocks|] == blocks;
  }

  /** write_chunks writes chunk (d, c, t, k) exactly at position
      ChunksBefore(levels, d) + ChunkRow(c, t, k): level d fills the
      positions from ChunksBefore(d) up to ChunksBefore(d + 1), in channel,
      trace, chunk order. */
  lemma {:induction false} ChunkFilesEnumerate(chunkDir: string, levels: seq<Tensor>, d: nat, c: nat, t: nat, k: nat)
    requires AllChunkTensors(levels) && d < |levels|
    requires c < levels[d].shape[0] && t < levels[d].shape[1] && k < levels[d].shape[2]
    ensures ChunksBefore(levels, d) + ChunkRow(levels[d], c, t, k) < ChunksBefore(levels, d + 1)
    ensures ChunksBefore(levels, d) + ChunkRow(levels[d], c, t, k) < |ChunkFiles(chunkDir, levels)|
    ensures ChunkFiles(chunkDir, levels)[ChunksBefore(levels, d) + ChunkRow(levels[d], c, t, k)]
      == FileFor(chunkDir, d, levels[d], c, t, k)
  {
    var i := ChunkRow(levels[d], c, t, k);
    ChunkRowInRange(levels[d], c, t, k);
    assert i < |LevelFiles(chunkDir, d, levels[d])| by {
      LevelFilesLength(chunkDir, d, levels[d]);
    }
    assert LevelFiles(chunkDir, d, levels[d])[i] == FileFor(chunkDir, d, levels[d], c, t, k) by {
      LevelFilesAt(chunkDir, d, levels[d], c, t, k);
    }
    LevelBlockAt(chunkDir, levels, d, i);
  }

  /** The files of level d follow those of the levels before it. */
  lemma {:induction false} LevelBlockAt(chunkDir: string, levels: seq<Tensor>, d: nat, i: nat)
    requires AllChunkTensors(levels) && d < |levels| && i < |LevelFiles(chunkDir, d, levels[d])|
    ensures ChunksBefore(levels, d) + i < |ChunkFiles(chunkDir, levels)|
    ensures ChunkFiles(chunkDir, levels)[ChunksBefore(levels, d) + i] == LevelFiles(chunkDir, d, levels[d])[i]
  {
    var blocks := LevelBlocks(chunkDir, levels);
    LevelBlocksBefore(chunkDir, levels, d);
    assert blocks[d] == LevelFiles(chunkDir, d, levels[d]);
    ConcatOffsetPick(blocks, d, i, ChunksBefore(levels, d) + i);
  }

  /** ConcatOffset, with the position named. */
  lemma {:induction false} ConcatOffsetPick<X>(xss: seq<seq<X>>, d: nat, i: nat, p: nat)
    requires d < |xss| && i < |xss[d]| && p == |Concat(xss[..d])| + i
    ensures p < |Concat(xss)| && Concat(xss)[p] == xss[d][i]
  {
    ConcatOffset(xss, d, i);
  }

  /** Every chunk file is named after its position and carries it: the
      record's index is the chunk number k and its downsampling the level d,
      and its samples are row ChunkRow(c, t, k) of the level. */
  lemma {:induction false} FileForContents(chunkDir: string, d: nat, level: Tensor, c: nat, t: nat, k: nat)
    requires IsChunkTensor(level)
    requires c < level.shape[0] && t < level.shape[1] && k < level.shape[2]
    requires chunkDir != [] && chunkDir[|chunkDir| - 1] != '/'
    ensures ChunkRow(level, c, t, k) < RowCount(level)
    ensures FileFor(chunkDir, d, level, c, t, k).record
      == ChunkRecord(k, d, Row(level, ChunkRow(level, c, t, k)))
    ensures FileFor(chunkDir, d, level, c, t, k).path
      == chunkDir + "/" + "raw" + "/" + NatToString(d) + "/" + NatToString(c) + "/" + NatToString(t)
         + "/" + NatToString(k) + ".buf"
    ensures |FileFor(chunkDir, d, level, c, t, k).record.samples| == level.shape[3]
  {
    ChunkRowInRange(level, c, t, k);
    ChunkPathLayout(chunkDir, d, c, t, k);
  }

  lemma {:induction false} ConcatPrefixStep<X>(xss: seq<seq<X>>, i: nat)
    requires i < |xss|
    ensures Concat(xss[..i + 1]) == Concat(xss[..i]) + xss[i]
  {
    assert xss[..i + 1][..i] == xss[..i];
  }

  lemma {:induction false} TraceFilesStep(chunkDir: string, d: nat, level: Tensor, c: nat, t: nat, k: nat)
    requires IsChunkTensor(level)
    requires c < level.shape[0] && t < level.shape[1] && k < level.shape[2]
    ensures TraceFiles(chunkDir, d, level, c, t)[..k + 1]
      == TraceFiles(chunkDir, d, level, c, t)[..k] + [FileFor(chunkDir, d, level, c, t, k)]
  {
    var files := TraceFiles(chunkDir, d, level, c, t);
    assert files[..k + 1] == files[..k] + [files[k]];
    assert files[k] == FileFor(chunkDir, d, level, c, t, k);
  }

  /** The two inner loops of write_chunks for channel c of level d: every
      trace of the channel, and every chunk of the trace. */
  method WriteChannel(chunkDir: string, d: nat, level: Tensor, c: nat) returns (files: seq<ChunkFile>)
    requires IsChunkTensor(level) && c < level.shape[0]
    ensures files == ChannelFiles(chunkDir, d, level, c)
  {
    ghost var traceBlocks := TraceBlocks(chunkDir, d, level, c);
    files := [];
    for t := 0 to level.shape[1]
      invariant files == Concat(traceBlocks[..t])
    {
      var tracePath := TracePath(chunkDir, d, c, t);
      ghost var doneTraces := files;
      for k := 0 to level.shape[2]
        invariant files == doneTraces + TraceFiles(chunkDir, d, level, c, t)[..k]
      {
        ChunkRowInRange(level, c, t, k);
        var chunkPath := Join2(tracePath, NatToString(k)) + ".buf";
        var record := ChunkRecord(k, d, Row(level, ChunkRow(level, c, t, k)));
        files := files + [ChunkFile(chunkPath, record)];
        TraceFilesStep(chunkDir, d, level, c, t, k);
      }
      assert TraceFiles(chunkDir, d, level, c, t)[..level.shape[2]] == traceBlocks[t];
      ConcatPrefixStep(traceBlocks, t);
    }
    assert traceBlocks[..level.shape[1]] == traceBlocks;
  }

  /** The channel loop of write_chunks for level d: every channel in order,
      each with its traces and chunks. */
  method WriteLevel(chunkDir: string, d: nat, level: Tensor) returns (files: seq<ChunkFile>)
    requires IsChunkTensor(level)
    ensures files == LevelFiles(chunkDir, d, level)
  {
    ghost var channelBlocks := ChannelBlocks(chunkDir, d, level);
    files := [];
    for c := 0 to level.shape[0]
      invariant files == Concat(channelBlocks[..c])
    {
      var channelFiles := WriteChannel(chunkDir, d, level, c);
      assert channelFiles == channelBlocks[c];
      files := files + channelFiles;
      ConcatPrefixStep(channelBlocks, c);
    }
    assert channelBlocks[..level.shape[0]] == channelBlocks;
  }

  /** write_chunks: walks levels, channels, traces and chunks in order and
      emits one file per chunk. */
  method WriteChunks(chunkDir: string, levels: seq<Tensor>) returns (files: seq<ChunkFile>)
    requires AllChunkTensors(levels)
    ensures files == ChunkFiles(chunkDir, levels)
  {
    ghost var levelBlocks := LevelBlocks(chunkDir, levels);
    files := [];
    for d := 0 to |levels|
      invariant files == Concat(levelBlocks[..d])
    {
      var levelFiles := WriteLevel(chunkDir, d, levels[d]);
      assert levelFiles == levelBlocks[d];
      files := files + levelFiles;
      ConcatPrefixStep(levelBlocks, d);
    }
    assert levelBlocks[..|levels|] == levelBlocks;
  }
}
