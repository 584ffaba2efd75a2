/** Path names as Python's os.path computes them on POSIX systems, decimal
    numerals as str() writes them, and the name of a recording's chunk
    directory. */
module Paths {
  datatype Option<T> = None | Some(value: T)

  // Decimal numerals.

  function Digit(n: nat): (c: char)
    requires n < 10
    ensures '0' <= c <= '9'
  {
    "0123456789"[n]
  }

  function DigitValue(c: char): nat
  {
    if '0' <= c <= '9' then (c - '0') as nat else 0
  }

  /** str(n) for a non-negative int: its decimal digits, most significant
      first, with no leading zero. */
  function NatToString(n: nat): (r: string)
    ensures |r| >= 1
    ensures forall i :: 0 <= i < |r| ==> '0' <= r[i] <= '9'
    ensures |r| > 1 ==> r[0] != '0'
  {
    if n < 10 then [Digit(n)] else NatToString(n / 10) + [Digit(n % 10)]
  }

  /** The value of a string of decimal digits. */
  function ParseNat(s: string): nat
  {
    if s == [] then 0 else ParseNat(s[..|s| - 1]) * 10 + DigitValue(s[|s| - 1])
  }

  lemma {:induction false} DigitRoundTrip(n: nat)
    requires n < 10
    ensures DigitValue(Digit(n)) == n
  {
  }

  /** Reading str(n) back gives n. */
  lemma {:induction false} NatToStringRoundTrip(n: nat)
    ensures ParseNat(NatToString(n)) == n
  {
    DigitRoundTrip(n % 10);
    if n < 10 {
      assert NatToString(n)[..0] == [];
    } else {
      var s := NatToString(n / 10);
      NatToStringRoundTrip(n / 10);
      assert (s + [Digit(n % 10)])[..|s|] == s;
    }
  }

  /** Different numbers have different numerals. */
  lemma {:induction false} NatToStringInjective(m: nat, n: nat)
    requires NatToString(m) == NatToString(n)
    ensures m == n
  {
    NatToStringRoundTrip(m);
    NatToStringRoundTrip(n);
  }

  // os.path on POSIX.

  /** str.rfind for one character: the last position of c in p, or -1. */
  function RFind(p: string, c: char): (i: int)
    ensures -1 <= i < |p|
    ensures i >= 0 ==> p[i] == c
    ensures forall k :: i < k < |p| ==> p[k] != c
  {
    if p == [] then -1
    else if p[|p| - 1] == c then |p| - 1
    else RFind(p[..|p| - 1], c)
  }

  /** os.path.splitext: splits off the extension, the part of the final
      component from its last '.' on, unless everything in that component
      before the '.' is itself a '.' (a hidden file such as ".rc"). */
  function SplitExt(p: string): (r: (string, string))
    ensures r.0 + r.1 == p
    ensures r.1 == [] || (r.1[0] == '.' && '/' !in r.1 && '.' !in r.1[1..])
  {
    var sepIndex := RFind(p, '/');
    var dotIndex := RFind(p, '.');
    if dotIndex > sepIndex && exists k :: sepIndex < k < dotIndex && p[k] != '.' then
      var ext := p[dotIndex..];
      assert forall k :: 0 <= k < |ext| ==> ext[k] == p[dotIndex + k];
      assert ext[1..] == p[dotIndex + 1..];
      (p[..dotIndex], ext)
    else
      (p, [])
  }

  /** splitext finds an extension exactly when the final component has a
      '.' with something other than '.' before it in that component. */
  lemma SplitExtHasExtension(p: string)
    ensures SplitExt(p).1 != [] <==>
      exists k, i :: 0 <= k < i < |p| && p[i] == '.' && p[k] != '.' && '/' !in p[k..]
  {
  }

  predicate AllSeps(s: string)
  {
    forall k :: 0 <= k < |s| ==> s[k] == '/'
  }

  /** s.rstrip('/'). */
  function StripTrailingSeps(s: string): (r: string)
    ensures |r| <= |s| && s[..|r|] == r
    ensures r == [] || r[|r| - 1] != '/'
    ensures forall k :: |r| <= k < |s| ==> s[k] == '/'
  {
    if s == [] || s[|s| - 1] != '/' then s else StripTrailingSeps(s[..|s| - 1])
  }

  /** os.path.split: (head, tail), the tail being everything after the last
      '/' and the head everything before it, trailing '/'s removed unless the
      head consists of '/'s only. */
  function Split(p: string): (r: (string, string))
    ensures '/' !in r.1
    ensures |r.0| + |r.1| <= |p|
    ensures p[..|r.0|] == r.0 && p[|p| - |r.1|..] == r.1
    ensures forall k :: |r.0| <= k < |p| - |r.1| ==> p[k] == '/'
    ensures |r.1| < |p| ==> p[|p| - |r.1| - 1] == '/'
    ensures r.0 == [] || AllSeps(r.0) || r.0[|r.0| - 1] != '/'
    ensures AllSeps(p[..|p| - |r.1|]) ==> r.0 == p[..|p| - |r.1|]
  {
    var i := RFind(p, '/') + 1;
    var head := p[..i];
    var tail := p[i..];
    assert forall k :: 0 <= k < |tail| ==> tail[k] == p[i + k];
    if head != [] && !AllSeps(head) then
      var stripped := StripTrailingSeps(head);
      (stripped, tail)
    else
      (head, tail)
  }

  /** os.path.join of two components: an absolute `b` replaces the path;
      otherwise `b` follows the path, with a '/' between them unless the path
      is empty or already ends in '/'. */
  function Join2(path: string, b: string): (r: string)
    ensures |b| > 0 && b[0] == '/' ==> r == b
    ensures !(|b| > 0 && b[0] == '/') ==>
      r == path + (if path == [] || path[|path| - 1] == '/' then "" else "/") + b
    ensures !(|b| > 0 && b[0] == '/') ==>
      |path| + |b| <= |r| <= |path| + |b| + 1 && r[..|path|] == path && r[|r| - |b|..] == b
  {
    if |b| > 0 && b[0] == '/' then b
    else if path == [] || path[|path| - 1] == '/' then path + b
    else path + "/" + b
  }

  /** os.path.join(a, *parts). */
  function Join(a: string, parts: seq<string>): string
    decreases parts
  {
    if parts == [] then a else Join(Join2(a, parts[0]), parts[1..])
  }

  /** A component that neither starts nor ends with '/' (or is empty). */
  predicate Relative(b: string)
  {
    b == [] || (b[0] != '/' && b[|b| - 1] != '/')
  }

  /** The file name of the chunk directory: the input's file name without
      its extension. */
  function Stem(input: string): string
  {
    Split(SplitExt(input).0).1
  }

  /** The directory the chunk directory goes in before the prefix: the
      destination if one is given, else the input's own directory. */
  function ParentDir(input: string, destination: Option<string>): string
  {
    if destination.None? then Split(SplitExt(input).0).0 else destination.value
  }

  /** The prefix directory; none is the empty component. */
  function PrefixDir(prefix: Option<string>): string
  {
    if prefix.None? then "" else prefix.value
  }

  /** chunk_dir_path: the input path without its extension, renamed with
      ".chunks", placed under the parent directory and the prefix. */
  function ChunkDirPath(input: string, prefix: Option<string>, destination: Option<string>): (r: string)
    ensures |r| >= 7 && r[|r| - 7..] == ".chunks"
  {
    Join(ParentDir(input, destination), [PrefixDir(prefix), Stem(input)]) + ".chunks"
  }

  /** The stem followed by the extension is the input's file name: only the
      extension is removed. */
  lemma {:induction false} StemIsFileName(input: string)
    ensures Split(input).1 == Stem(input) + SplitExt(input).1
    ensures '/' !in Stem(input)
  {
    var (base, ext) := SplitExt(input);
    SplitAppend(base, ext);
  }

  /** Appending a string without '/' extends the final component only. */
  lemma {:induction false} SplitAppend(base: string, ext: string)
    requires '/' !in ext
    ensures Split(base + ext).1 == Split(base).1 + ext
  {
    var p := base + ext;
    RFindAppend(base, ext, '/');
    var i := RFind(base, '/') + 1;
    assert p[i..] == base[i..] + ext;
  }

  lemma {:induction false} RFindAppend(a: string, b: string, c: char)
    requires c !in b
    ensures RFind(a + b, c) == RFind(a, c)
  {
    if b != [] {
      var ab := a + b;
      assert ab[..|ab| - 1] == a + b[..|b| - 1];
      assert b[|b| - 1] != c;
      RFindAppend(a, b[..|b| - 1], c);
    } else {
      assert a + b == a;
    }
  }

  /** os.path.join(root, pre, name) for a relative prefix and a name that
      does not start with '/'. */
  lemma {:induction false} JoinThree(root: string, pre: string, name: string)
    requires Relative(pre) && (name == [] || name[0] != '/')
    ensures root != [] && root[|root| - 1] != '/' ==>
      Join(root, [pre, name]) == if pre == [] then root + "/" + name else root + "/" + pre + "/" + name
    ensures root == [] ==>
      Join(root, [pre, name]) == if pre == [] then name else pre + "/" + name
  {
    var parts: seq<string> := [pre, name];
    var first := Join2(root, pre);
    var last: seq<string> := [name];
    assert parts[1..] == last;
    assert Join(root, parts) == Join(first, last);
    assert last[1..] == [];
    assert Join(first, last) == Join2(first, name);
  }

  /** Under a non-empty parent directory the chunk directory is
      parent/prefix/stem.chunks, or parent/stem.chunks without a prefix. */
  lemma {:induction false} ChunkDirPathUnderParent(input: string, prefix: Option<string>, destination: Option<string>)
    requires ParentDir(input, destination) != []
    requires ParentDir(input, destination)[|ParentDir(input, destination)| - 1] != '/'
    requires Relative(PrefixDir(prefix))
    ensures PrefixDir(prefix) == [] ==>
      ChunkDirPath(input, prefix, destination) == ParentDir(input, destination) + "/" + Stem(input) + ".chunks"
    ensures PrefixDir(prefix) != [] ==>
      ChunkDirPath(input, prefix, destination)
        == ParentDir(input, destination) + "/" + PrefixDir(prefix) + "/" + Stem(input) + ".chunks"
  {
    StemIsFileName(input);
    ChunkDirFromParts(ParentDir(input, destination), PrefixDir(prefix), Stem(input));
  }

  /** Without a parent directory (a bare file name and no destination) the
      chunk directory is prefix/stem.chunks, or stem.chunks. */
  lemma {:induction false} ChunkDirPathBare(input: string, prefix: Option<string>, destination: Option<string>)
    requires ParentDir(input, destination) == []
    requires Relative(PrefixDir(prefix))
    ensures PrefixDir(prefix) == [] ==> ChunkDirPath(input, prefix, destination) == Stem(input) + ".chunks"
    ensures PrefixDir(prefix) != [] ==>
      ChunkDirPath(input, prefix, destination) == PrefixDir(prefix) + "/" + Stem(input) + ".chunks"
  {
    StemIsFileName(input);
    ChunkDirFromParts(ParentDir(input, destination), PrefixDir(prefix), Stem(input));
  }

  /** The chunk directory built from a parent, a prefix and a file name
      without '/'. */
  lemma {:induction false} ChunkDirFromParts(root: string, pre: string, name: string)
    requires Relative(pre) && '/' !in name
    ensures root != [] && root[|root| - 1] != '/' && pre == [] ==>
      Join(root, [pre, name]) + ".chunks" == root + "/" + name + ".chunks"
    ensures root != [] && root[|root| - 1] != '/' && pre != [] ==>
      Join(root, [pre, name]) + ".chunks" == root + "/" + pre + "/" + name + ".chunks"
    ensures root == [] && pre == [] ==> Join(root, [pre, name]) + ".chunks" == name + ".chunks"
    ensures root == [] && pre != [] ==> Join(root, [pre, name]) + ".chunks" == pre + "/" + name + ".chunks"
  {
    assert name == [] || name[0] != '/';
    JoinThree(root, pre, name);
  }

  /** For any parent and prefix: the stem is joined to the parent when there
      is no prefix, and otherwise follows the join of parent and prefix, with
      a '/' in between unless the prefix already ends in one. */
  lemma {:induction false} ChunkDirPathJoined(input: string, prefix: Option<string>, destination: Option<string>)
    ensures PrefixDir(prefix) == [] ==>
      ChunkDirPath(input, prefix, destination) == Join2(ParentDir(input, destination), Stem(input)) + ".chunks"
    ensures PrefixDir(prefix) != [] ==>
      var pre := PrefixDir(prefix);
      ChunkDirPath(input, prefix, destination)
        == Join2(ParentDir(input, destination), pre) + (if pre[|pre| - 1] == '/' then "" else "/")
           + Stem(input) + ".chunks"
  {
    StemIsFileName(input);
    JoinTwoParts(ParentDir(input, destination), PrefixDir(prefix), Stem(input));
  }

  /** os.path.join(root, pre, name) for a name without '/'. */
  lemma {:induction false} JoinTwoParts(root: string, pre: string, name: string)
    requires '/' !in name
    ensures pre == [] ==> Join(root, [pre, name]) == Join2(root, name)
    ensures pre != [] ==>
      Join(root, [pre, name]) == Join2(root, pre) + (if pre[|pre| - 1] == '/' then "" else "/") + name
  {
    JoinPair(root, pre, name);
    assert name == [] || name[0] != '/';
    if pre == [] {
      JoinEmpty(root, name);
    } else {
      JoinKeepsLast(root, pre);
      JoinRelative(Join2(root, pre), name);
    }
  }

  /** A join of two components is two joins of one. */
  lemma {:induction false} JoinPair(root: string, pre: string, name: string)
    ensures Join(root, [pre, name]) == Join2(Join2(root, pre), name)
  {
    var parts: seq<string> := [pre, name];
    var last: seq<string> := [name];
    assert parts[1..] == last;
    assert Join(root, parts) == Join(Join2(root, pre), last);
    assert last[1..] == [];
  }

  /** An empty component only adds the separator the next join adds anyway. */
  lemma {:induction false} JoinEmpty(root: string, name: string)
    requires name == [] || name[0] != '/'
    ensures Join2(Join2(root, []), name) == Join2(root, name)
  {
  }

  /** A join ends the way its last component does. */
  lemma JoinKeepsLast(root: string, pre: string)
    requires pre != []
    ensures Join2(root, pre) != [] && Join2(root, pre)[|Join2(root, pre)| - 1] == pre[|pre| - 1]
  {
  }

  /** Joining a relative component to a non-empty path. */
  lemma {:induction false} JoinRelative(q: string, name: string)
    requires q != [] && (name == [] || name[0] != '/')
    ensures Join2(q, name) == q + (if q[|q| - 1] == '/' then "" else "/") + name
  {
  }

  /** Under a parent that ends in '/' (a destination such as "out/", or an
      input in the root directory) no second '/' is inserted. */
  lemma {:induction false} ChunkDirPathTrailingSep(input: string, prefix: Option<string>, destination: Option<string>)
    requires ParentDir(input, destination) != []
    requires ParentDir(input, destination)[|ParentDir(input, destination)| - 1] == '/'
    requires Relative(PrefixDir(prefix))
    ensures PrefixDir(prefix) == [] ==>
      ChunkDirPath(input, prefix, destination) == ParentDir(input, destination) + Stem(input) + ".chunks"
    ensures PrefixDir(prefix) != [] ==>
      ChunkDirPath(input, prefix, destination)
        == ParentDir(input, destination) + PrefixDir(prefix) + "/" + Stem(input) + ".chunks"
  {
    StemIsFileName(input);
    ChunkDirPathJoined(input, prefix, destination);
  }

  /** An absolute prefix replaces the parent directory. */
  lemma {:induction false} ChunkDirPathAbsolutePrefix(input: string, prefix: Option<string>, destination: Option<string>)
    requires PrefixDir(prefix) != [] && PrefixDir(prefix)[0] == '/'
    ensures var pre := PrefixDir(prefix);
      ChunkDirPath(input, prefix, destination)
        == pre + (if pre[|pre| - 1] == '/' then "" else "/") + Stem(input) + ".chunks"
  {
    ChunkDirPathJoined(input, prefix, destination);
  }

  /** The chunk directory's name ends in 's', so paths joined under it get
      a '/' in between. */
  lemma {:induction false} ChunkDirPathIsDirectory(input: string, prefix: Option<string>, destination: Option<string>)
    ensures ChunkDirPath(input, prefix, destination) != []
    ensures ChunkDirPath(input, prefix, destination)[|ChunkDirPath(input, prefix, destination)| - 1] == 's'
  {
    var r := ChunkDirPath(input, prefix, destination);
    assert r[|r| - 7..][6] == 's';
  }
}
