/** The binary index file: writing, and parsing as its exact inverse. */
module IndexFile {
  import opened Bytes
  import opened LittleEndian
  import opened Sorting

  datatype IndexEntry = IndexEntry(
    ctime: I64, mtime: I64, size: U64, mode: U32,
    hash: seq<Byte>,   // 32 bytes
    path: seq<Byte>)   // as stored: forward slashes, UTF-8

  const MAGIC: seq<Byte> := [71, 89, 84, 73]  // "GYTI"
  const VERSION: U32 := 1
  const HEADER_LEN: nat := 12
  const HASH_LEN: nat := 32
  const FIXED_LEN: nat := 62

  const SLASH: Byte := 47
  const DOT: Byte := 46
  const BACKSLASH: Byte := 92

  // ----- Which paths may be stored -----

  predicate Continuation(b: Byte) { 0x80 <= b <= 0xBF }

  /** Well-formed UTF-8, as section 3.9 of the Unicode standard defines it. */
  predicate IsUtf8(b: seq<Byte>)
    decreases |b|
  {
    if b == [] then true
    else if b[0] < 0x80 then IsUtf8(b[1..])
    else if 0xC2 <= b[0] <= 0xDF then |b| >= 2 && Continuation(b[1]) && IsUtf8(b[2..])
    else if 0xE0 <= b[0] <= 0xEF then
      && |b| >= 3 && Continuation(b[1]) && Continuation(b[2])
      && (b[0] == 0xE0 ==> b[1] >= 0xA0) && (b[0] == 0xED ==> b[1] <= 0x9F)
      && IsUtf8(b[3..])
    else if 0xF0 <= b[0] <= 0xF4 then
      && |b| >= 4 && Continuation(b[1]) && Continuation(b[2]) && Continuation(b[3])
      && (b[0] == 0xF0 ==> b[1] >= 0x90) && (b[0] == 0xF4 ==> b[1] <= 0x8F)
      && IsUtf8(b[4..])
    else false
  }

  /** The components of a path; `acc` is the component being read. */
  function Components(path: seq<Byte>, acc: seq<Byte>): seq<seq<Byte>>
    decreases |path|
  {
    if path == [] then [acc]
    else if path[0] == SLASH then [acc] + Components(path[1..], [])
    else Components(path[1..], acc + [path[0]])
  }

  function Lower(b: Byte): Byte { if 65 <= b <= 90 then b + 32 else b }

  /** ".gyt", in any case. */
  predicate IsMetaDir(c: seq<Byte>) {
    |c| == 4 && c[0] == DOT && Lower(c[1]) == 103 && Lower(c[2]) == 121 && Lower(c[3]) == 116
  }

  predicate ValidComponent(c: seq<Byte>) { c != [] && c != [DOT] && c != [DOT, DOT] && !IsMetaDir(c) }

  predicate ValidPath(path: seq<Byte>) {
    && path != [] && path[0] != SLASH && 0 !in path && BACKSLASH !in path
    && forall i :: 0 <= i < |Components(path, [])| ==> ValidComponent(Components(path, [])[i])
  }

  /** An entry that can be written and read back. */
  predicate Storable(e: IndexEntry) {
    |e.hash| == HASH_LEN && |e.path| < 0x1_0000 && IsUtf8(e.path) && ValidPath(e.path)
  }

  // ----- Encoding -----

  function Fixed(e: IndexEntry): (b: seq<Byte>)
    ensures |e.hash| == HASH_LEN ==> |b| == FIXED_LEN
  {
    ToLeI64(e.ctime) + ToLeI64(e.mtime) + ToLe(e.size, 8) + ToLe(e.mode, 4) + e.hash + ToLe(|e.path|, 2)
  }

  function EncodeEntry(e: IndexEntry): (b: seq<Byte>) { Fixed(e) + e.path }

  function EncodeEntries(es: seq<IndexEntry>): (b: seq<Byte>)
    decreases |es|
  {
    if es == [] then [] else EncodeEntry(es[0]) + EncodeEntries(es[1..])
  }

  function Header(count: U32): (b: seq<Byte>)
    ensures |b| == HEADER_LEN
  {
    MAGIC + ToLe(VERSION, 4) + ToLe(count, 4)
  }

  function Complement(x: I64): nat { if x < 0 then x + 0x1_0000_0000_0000_0000 else x }

  /** An entry, byte by byte. */
  lemma {:induction false} EntryLayout(e: IndexEntry)
    ensures EncodeEntry(e) == Eight(Complement(e.ctime)) + Eight(Complement(e.mtime)) + Eight(e.size) + Four(e.mode)
                              + e.hash + Two(|e.path|) + e.path
  {
    EightIs(Complement(e.ctime));
    EightIs(Complement(e.mtime));
    EightIs(e.size);
    FourIs(e.mode);
    TwoIs(|e.path|);
  }

  /** The header, byte by byte: the letters GYTI, the version, and the count. */
  lemma {:induction false} HeaderLayout(count: U32)
    ensures Header(count) == [71, 89, 84, 73] + [1, 0, 0, 0] + Four(count)
  {
    FourIs(1);
    FourIs(count);
  }

  // ----- Decoding, entry by entry -----

  function DecodeFixed(b: seq<Byte>, path: seq<Byte>): IndexEntry
    requires |b| == FIXED_LEN
  {
    FromLeBound(b[16..24]);
    FromLeBound(b[24..28]);
    Widths();
    IndexEntry(FromLeI64(b[..8]), FromLeI64(b[8..16]), FromLe(b[16..24]), FromLe(b[24..28]), b[28..60], path)
  }

  /** Read one entry off the front. */
  function TakeEntry(data: seq<Byte>): Option<(IndexEntry, seq<Byte>)> {
    if |data| < FIXED_LEN then None
    else
      var len := FromLe(data[60..62]);
      if |data| < FIXED_LEN + len then None
      else
        var path := data[FIXED_LEN..FIXED_LEN + len];
        if IsUtf8(path) && ValidPath(path) then Some((DecodeFixed(data[..FIXED_LEN], path), data[FIXED_LEN + len..]))
        else None
  }

  function TakeAll(data: seq<Byte>, count: nat): Option<seq<IndexEntry>>
    decreases count
  {
    if count == 0 then if data == [] then Some([]) else None
    else
      match TakeEntry(data)
      case None => None
      case Some((e, rest)) =>
        match TakeAll(rest, count - 1)
        case None => None
        case Some(es) => Some([e] + es)
  }

  /** The slices of the fixed part. */
  lemma {:induction false} FixedSlices(e: IndexEntry)
    requires |e.hash| == HASH_LEN && |e.path| < 0x1_0000
    ensures var b := Fixed(e);
      && b[..8] == ToLeI64(e.ctime) && b[8..16] == ToLeI64(e.mtime) && b[16..24] == ToLe(e.size, 8)
      && b[24..28] == ToLe(e.mode, 4) && b[28..60] == e.hash && b[60..62] == ToLe(|e.path|, 2)
  {
    Slices(ToLeI64(e.ctime), ToLeI64(e.mtime), ToLe(e.size, 8), ToLe(e.mode, 4), e.hash, ToLe(|e.path|, 2));
  }

  lemma {:induction false} Slices(c: seq<Byte>, m: seq<Byte>, s: seq<Byte>, o: seq<Byte>, h: seq<Byte>, l: seq<Byte>)
    requires |c| == 8 && |m| == 8 && |s| == 8 && |o| == 4 && |h| == 32 && |l| == 2
    ensures var b := c + m + s + o + h + l;
      && b[..8] == c && b[8..16] == m && b[16..24] == s && b[24..28] == o && b[28..60] == h && b[60..62] == l
  {
  }

  lemma {:induction false} DecodeFixedInverse(e: IndexEntry)
    requires |e.hash| == HASH_LEN && |e.path| < 0x1_0000
    ensures DecodeFixed(Fixed(e), e.path) == e && FromLe(Fixed(e)[60..62]) == |e.path|
  {
    FixedSlices(e);
    Widths();
    I64RoundTrip(e.ctime);
    I64RoundTrip(e.mtime);
    FromToLe(e.size, 8);
    FromToLe(e.mode, 4);
    FromToLe(|e.path|, 2);
  }

  /** Decoding and re-encoding the fixed part gives the same bytes. */
  lemma {:induction false} FixedExact(b: seq<Byte>, path: seq<Byte>)
    requires |b| == FIXED_LEN && |path| == FromLe(b[60..62])
    ensures |path| < 0x1_0000 && Fixed(DecodeFixed(b, path)) == b
  {
    FromLeBound(b[60..62]);
    Widths();
    var e := DecodeFixed(b, path);
    assert ToLeI64(e.ctime) == b[..8] by { I64Exact(b[..8]); }
    assert ToLeI64(e.mtime) == b[8..16] by { I64Exact(b[8..16]); }
    assert ToLe(e.size, 8) == b[16..24] by { ToFromLe(b[16..24]); }
    assert ToLe(e.mode, 4) == b[24..28] by { ToFromLe(b[24..28]); }
    assert ToLe(|e.path|, 2) == b[60..62] by { ToFromLe(b[60..62]); }
    CutFixed(b);
  }

  lemma {:induction false} CutFixed(b: seq<Byte>)
    requires |b| == FIXED_LEN
    ensures b[..8] + b[8..16] + b[16..24] + b[24..28] + b[28..60] + b[60..62] == b
  {
    assert b[..8] + b[8..16] == b[..16];
    assert b[..16] + b[16..24] == b[..24];
    assert b[..24] + b[24..28] == b[..28];
    assert b[..28] + b[28..60] == b[..60];
    assert b[..60] + b[60..62] == b;
  }

  lemma {:induction false} TakeEncoded(e: IndexEntry, tail: seq<Byte>)
    requires Storable(e)
    ensures TakeEntry(EncodeEntry(e) + tail) == Some((e, tail))
  {
    var data := EncodeEntry(e) + tail;
    DecodeFixedInverse(e);
    assert data[..FIXED_LEN] == Fixed(e);
    assert data[60..62] == Fixed(e)[60..62];
    assert data[FIXED_LEN..FIXED_LEN + |e.path|] == e.path;
    assert data[FIXED_LEN + |e.path|..] == tail;
  }

  lemma {:induction false} TakenIsEncoded(data: seq<Byte>, e: IndexEntry, rest: seq<Byte>)
    requires TakeEntry(data) == Some((e, rest))
    ensures Storable(e) && data == EncodeEntry(e) + rest && |data| >= FIXED_LEN + |rest|
  {
    var len := FromLe(data[60..62]);
    var path := data[FIXED_LEN..FIXED_LEN + len];
    var b := data[..FIXED_LEN];
    assert b[60..62] == data[60..62];
    FixedExact(b, path);
    CutAt(data, FIXED_LEN, FIXED_LEN + len);
  }

  lemma {:induction false} CutAt(data: seq<Byte>, i: nat, j: nat)
    requires i <= j <= |data|
    ensures data[..i] + data[i..j] + data[j..] == data
  {
  }

  ghost predicate AllStorable(es: seq<IndexEntry>) { forall i :: 0 <= i < |es| ==> Storable(es[i]) }

  lemma {:induction false} TakeAllCons(data: seq<Byte>, n: nat, e: IndexEntry, rest: seq<Byte>, es: seq<IndexEntry>)
    requires n > 0 && TakeEntry(data) == Some((e, rest)) && TakeAll(rest, n - 1) == Some(es)
    ensures TakeAll(data, n) == Some([e] + es)
  {
  }

  /** Reading entries is exactly the inverse of encoding them. */
  lemma {:induction false} TakeAllInverse(es: seq<IndexEntry>)
    requires AllStorable(es)
    ensures TakeAll(EncodeEntries(es), |es|) == Some(es)
    decreases |es|
  {
    if es != [] {
      StorableTail(es);
      TakeAllInverse(es[1..]);
      TakeAllEncoded(es[0], es[1..], EncodeEntries(es[1..]));
    }
  }

  lemma {:induction false} StorableTail(es: seq<IndexEntry>)
    requires AllStorable(es) && es != []
    ensures Storable(es[0]) && AllStorable(es[1..]) && es == [es[0]] + es[1..]
    ensures EncodeEntries(es) == EncodeEntry(es[0]) + EncodeEntries(es[1..])
  {
  }

  lemma {:induction false} TakeAllEncoded(e: IndexEntry, es: seq<IndexEntry>, rest: seq<Byte>)
    requires Storable(e) && TakeAll(rest, |es|) == Some(es)
    ensures TakeAll(EncodeEntry(e) + rest, |es| + 1) == Some([e] + es)
  {
    TakeEncoded(e, rest);
    TakeAllCons(EncodeEntry(e) + rest, |es| + 1, e, rest, es);
  }

  lemma {:induction false} EncodeCons(e: IndexEntry, es: seq<IndexEntry>)
    requires Storable(e) && AllStorable(es)
    ensures AllStorable([e] + es) && EncodeEntries([e] + es) == EncodeEntry(e) + EncodeEntries(es)
  {
    assert ([e] + es)[1..] == es;
  }

  lemma {:induction false} TakeAllUnfold(data: seq<Byte>, count: nat) returns (e: IndexEntry, rest: seq<Byte>,
                                         es: seq<IndexEntry>)
    requires count > 0 && TakeAll(data, count).Some?
    ensures TakeEntry(data) == Some((e, rest)) && TakeAll(rest, count - 1) == Some(es)
    ensures TakeAll(data, count) == Some([e] + es)
  {
    e, rest := TakeEntry(data).value.0, TakeEntry(data).value.1;
    es := TakeAll(rest, count - 1).value;
  }

  lemma {:induction false} TakeAllExact(data: seq<Byte>, count: nat, es: seq<IndexEntry>)
    requires TakeAll(data, count) == Some(es)
    ensures |es| == count && AllStorable(es) && data == EncodeEntries(es)
    decreases count
  {
    if count == 0 {
      assert data == [] && es == [];
    } else {
      var e, rest, tail := TakeAllUnfold(data, count);
      TakeAllExact(rest, count - 1, tail);
      TakenCons(data, e, rest, tail);
      assert es == [e] + tail;
    }
  }

  lemma {:induction false} TakenCons(data: seq<Byte>, e: IndexEntry, rest: seq<Byte>, tail: seq<IndexEntry>)
    requires TakeEntry(data) == Some((e, rest)) && AllStorable(tail) && rest == EncodeEntries(tail)
    ensures AllStorable([e] + tail) && data == EncodeEntries([e] + tail)
  {
    TakenIsEncoded(data, e, rest);
    EncodeCons(e, tail);
  }

  lemma {:induction false} EncodedLength(es: seq<IndexEntry>)
    requires AllStorable(es)
    ensures |EncodeEntries(es)| >= 62 * |es|
    decreases |es|
  {
    if es != [] { EncodedLength(es[1..]); }
  }

  // ----- Paths, told by their bytes -----

  /** From i to j runs one component of the path. */
  predicate Between(w: seq<Byte>, i: nat, j: nat) {
    && i <= j <= |w| && (i == 0 || w[i - 1] == 47) && (j == |w| || w[j] == 47)
    && forall k :: i <= k < j ==> w[k] != 47
  }

  /** Nothing, one dot, two dots, or `.gyt` in any case. */
  predicate Refused(c: seq<Byte>) {
    || c == [] || c == [46] || c == [46, 46]
    || (|c| == 4 && c[0] == 46 && (c[1] == 103 || c[1] == 71) && (c[2] == 121 || c[2] == 89) && (c[3] == 116 || c[3] == 84))
  }

  /** No zero byte, no backslash, and no refused component. */
  ghost predicate PathOk(w: seq<Byte>) {
    0 !in w && 92 !in w && forall i: nat, j: nat :: Between(w, i, j) ==> !Refused(w[i..j])
  }

  ghost predicate IsPiece(w: seq<Byte>, b: nat, c: seq<Byte>) {
    exists i: nat, j: nat :: Between(w, i, j) && b <= i && c == w[i..j]
  }

  /** The component being read at n began at b. */
  predicate ReadingFrom(w: seq<Byte>, b: nat, n: nat) {
    b <= n <= |w| && (b == 0 || w[b - 1] == 47) && forall k :: b <= k < n ==> w[k] != 47
  }

  lemma {:induction false} PieceEnds(w: seq<Byte>, b: nat, n: nat, i: nat, j: nat)
    requires ReadingFrom(w, b, n) && (n == |w| || w[n] == 47) && Between(w, i, j) && b <= i
    ensures (i == b && j == n) || (n < |w| && n + 1 <= i)
  {
  }

  lemma {:induction false} PieceIff(w: seq<Byte>, b: nat, n: nat, c: seq<Byte>)
    requires ReadingFrom(w, b, n) && (n == |w| || w[n] == 47)
    ensures IsPiece(w, b, c) <==> c == w[b..n] || (n < |w| && IsPiece(w, n + 1, c))
  {
    assert Between(w, b, n);
    if IsPiece(w, b, c) {
      var i: nat, j: nat :| Between(w, i, j) && b <= i && c == w[i..j];
      PieceEnds(w, b, n, i, j);
    }
    if n < |w| && IsPiece(w, n + 1, c) {
      var i: nat, j: nat :| Between(w, i, j) && n + 1 <= i && c == w[i..j];
    }
  }

  /** The components of a path are its pieces. */
  lemma {:induction false} ComponentsArePieces(w: seq<Byte>, b: nat, n: nat, c: seq<Byte>)
    requires ReadingFrom(w, b, n)
    ensures c in Components(w[n..], w[b..n]) <==> IsPiece(w, b, c)
    decreases |w| - n
  {
    if n == |w| {
      PieceIff(w, b, n, c);
    } else {
      assert w[n..][0] == w[n] && w[n..][1..] == w[n + 1..];
      if w[n] == 47 {
        PieceIff(w, b, n, c);
        ComponentsArePieces(w, n + 1, n + 1, c);
        assert w[n + 1..n + 1] == [];
      } else {
        assert w[b..n] + [w[n]] == w[b..n + 1];
        ComponentsArePieces(w, b, n + 1, c);
      }
    }
  }

  /** Which paths are refused, told by their bytes. */
  lemma {:induction false} PathIff(w: seq<Byte>)
    ensures ValidPath(w) <==> PathOk(w)
  {
    var cs := Components(w, []);
    assert w[0..] == w && w[0..0] == [];
    forall c ensures c in cs <==> IsPiece(w, 0, c) {
      ComponentsArePieces(w, 0, 0, c);
    }
    if ValidPath(w) {
      forall i: nat, j: nat | Between(w, i, j) ensures !Refused(w[i..j]) {
        assert IsPiece(w, 0, w[i..j]);
        assert w[i..j] in cs;
      }
    }
    if PathOk(w) {
      forall k | 0 <= k < |cs| ensures ValidComponent(cs[k]) {
        assert cs[k] in cs && IsPiece(w, 0, cs[k]);
      }
      FirstNotEmpty(w);
    }
  }

  lemma {:induction false} FirstNotEmpty(w: seq<Byte>)
    requires PathOk(w)
    ensures w != [] && w[0] != 47
  {
    assert Between(w, 0, 0) <==> w == [] || w[0] == 47;
    assert w[0..0] == [];
  }

  // ----- The file -----

  /** What parsing a file must yield. */
  function ParseSpec(data: seq<Byte>): Option<seq<IndexEntry>> {
    if |data| < HEADER_LEN || data[..4] != MAGIC || FromLe(data[4..8]) != VERSION then None
    else TakeAll(data[HEADER_LEN..], FromLe(data[8..12]))
  }

  /** A file that holds exactly these entries, in this order. */
  ghost predicate IsFileOf(data: seq<Byte>, es: seq<IndexEntry>) {
    |es| < 0x1_0000_0000 && AllStorable(es) && data == Header(|es|) + EncodeEntries(es)
  }

  lemma {:induction false} HeaderSlices(count: U32, body: seq<Byte>)
    ensures var data := Header(count) + body;
      && data[..4] == MAGIC && FromLe(data[4..8]) == VERSION && FromLe(data[8..12]) == count && data[HEADER_LEN..] == body
  {
    Widths();
    FromToLe(VERSION, 4);
    FromToLe(count, 4);
    var data := Header(count) + body;
    assert data[..4] == MAGIC;
    assert data[4..8] == ToLe(VERSION, 4);
    assert data[8..12] == ToLe(count, 4);
  }

  lemma {:induction false} HeaderExact(data: seq<Byte>)
    requires |data| >= HEADER_LEN && data[..4] == MAGIC && FromLe(data[4..8]) == VERSION
    ensures FromLe(data[8..12]) < 0x1_0000_0000
    ensures data == Header(FromLe(data[8..12])) + data[HEADER_LEN..]
  {
    Widths();
    FromLeBound(data[8..12]);
    ToFromLe(data[4..8]);
    ToFromLe(data[8..12]);
    assert data == data[..4] + data[4..8] + data[8..12] + data[HEADER_LEN..];
  }

  /** Well-sized entries, whatever their paths. */
  predicate Sized(es: seq<IndexEntry>) {
    |es| < 0x1_0000_0000 && forall i :: 0 <= i < |es| ==> |es[i].hash| == 32 && |es[i].path| < 0x1_0000
  }

  /** A file of well-sized entries is read back exactly when each path is UTF-8 without a zero
      byte, a backslash or a refused component. */
  lemma {:induction false} PathsRead(es: seq<IndexEntry>)
    requires Sized(es)
    ensures ParseSpec(Header(|es|) + EncodeEntries(es)) == Some(es) <==>
      forall i :: 0 <= i < |es| ==> IsUtf8(es[i].path) && PathOk(es[i].path)
  {
    ParseIsInverse(Header(|es|) + EncodeEntries(es), es);
    forall i | 0 <= i < |es| ensures Storable(es[i]) <==> IsUtf8(es[i].path) && PathOk(es[i].path) {
      PathIff(es[i].path);
    }
  }

  /** Parsing accepts exactly the in-order encodings of storable entries, and returns them. */
  lemma {:induction false} ParseIsInverse(data: seq<Byte>, es: seq<IndexEntry>)
    ensures ParseSpec(data) == Some(es) <==> IsFileOf(data, es)
  {
    if ParseSpec(data) == Some(es) {
      HeaderExact(data);
      TakeAllExact(data[HEADER_LEN..], FromLe(data[8..12]), es);
    }
    if IsFileOf(data, es) {
      HeaderSlices(|es|, EncodeEntries(es));
      TakeAllInverse(es);
    }
  }

  /** Lexicographic order on bytes. */
  predicate BytesLe(a: seq<Byte>, b: seq<Byte>)
    decreases |a|
  {
    a == [] || (b != [] && (a[0] < b[0] || (a[0] == b[0] && BytesLe(a[1..], b[1..]))))
  }

  predicate PathLe(x: IndexEntry, y: IndexEntry) { BytesLe(x.path, y.path) }

  lemma {:induction false} BytesLeTotal(a: seq<Byte>, b: seq<Byte>)
    ensures BytesLe(a, b) || BytesLe(b, a)
    decreases |a|
  {
    if a != [] && b != [] { BytesLeTotal(a[1..], b[1..]); }
  }

  lemma {:induction false} BytesLeTrans(a: seq<Byte>, b: seq<Byte>, c: seq<Byte>)
    requires BytesLe(a, b) && BytesLe(b, c)
    ensures BytesLe(a, c)
    decreases |a|
  {
    if a != [] && a[0] == b[0] == c[0] { BytesLeTrans(a[1..], b[1..], c[1..]); }
  }

  lemma {:induction false} PathLePreorder()
    ensures TotalPreorder(PathLe)
  {
    forall x: IndexEntry, y: IndexEntry ensures PathLe(x, y) || PathLe(y, x) { BytesLeTotal(x.path, y.path); }
    forall x: IndexEntry, y: IndexEntry, z: IndexEntry | PathLe(x, y) && PathLe(y, z) ensures PathLe(x, z) {
      BytesLeTrans(x.path, y.path, z.path);
    }
  }

  predicate ShortPaths(es: seq<IndexEntry>) {
    forall i :: 0 <= i < |es| ==> |es[i].path| < 0x1_0000
  }

  /** The encoding loop: it stops at a path whose length does not fit a u16. */
  method AppendEntries(sorted: seq<IndexEntry>, header: seq<Byte>) returns (r: Option<seq<Byte>>)
    ensures r.Some? <==> ShortPaths(sorted)
    ensures r.Some? ==> r.value == header + EncodeEntries(sorted)
  {
    var buf := header;
    assert header + [] == header;
    for i := 0 to |sorted|
      invariant ShortPaths(sorted[..i]) && buf == header + EncodeEntries(sorted[..i])
    {
      if |sorted[i].path| >= 0x1_0000 {
        return None;
      }
      AppendOne(sorted, i, header);
      buf := buf + EncodeEntry(sorted[i]);
    }
    assert sorted[..|sorted|] == sorted;
    r := Some(buf);
  }

  lemma {:induction false} AppendOne(es: seq<IndexEntry>, i: nat, header: seq<Byte>)
    requires i < |es| && ShortPaths(es[..i]) && |es[i].path| < 0x1_0000
    ensures ShortPaths(es[..i + 1])
    ensures header + EncodeEntries(es[..i]) + EncodeEntry(es[i]) == header + EncodeEntries(es[..i + 1])
  {
    assert es[..i + 1] == es[..i] + [es[i]];
    EncodeSnoc(es[..i], es[i]);
    Assoc(header, EncodeEntries(es[..i]), EncodeEntry(es[i]));
  }

  /** Write the entries, sorted by path. `None` is an index too large, or a path too long, for
      the format's counters. */
  method Write(entries: seq<IndexEntry>) returns (r: Option<seq<Byte>>)
    ensures r.Some? <==> |entries| < 0x1_0000_0000 && ShortPaths(entries)
    ensures r.Some? ==> r.value == Header(|entries|) + EncodeEntries(Sort(PathLe, entries))
  {
    var sorted := Sort(PathLe, entries);
    SortedSame(entries);
    SameShortPaths(entries, sorted);
    if |sorted| >= 0x1_0000_0000 {
      return None;
    }
    r := AppendEntries(sorted, Header(|sorted|));
  }

  lemma {:induction false} SameShortPaths(es: seq<IndexEntry>, fs: seq<IndexEntry>)
    requires forall e :: e in fs <==> e in es
    ensures ShortPaths(es) <==> ShortPaths(fs)
  {
    assert ShortPaths(es) <==> forall e :: e in es ==> |e.path| < 0x1_0000;
    assert ShortPaths(fs) <==> forall e :: e in fs ==> |e.path| < 0x1_0000;
  }

  lemma {:induction false} EncodeSnoc(es: seq<IndexEntry>, e: IndexEntry)
    ensures EncodeEntries(es + [e]) == EncodeEntries(es) + EncodeEntry(e)
    decreases |es|
  {
    if es == [] {
      assert es + [e] == [e] && [e][1..] == [];
    } else {
      Uncons(es, [e]);
      EncodeSnoc(es[1..], e);
      Assoc(EncodeEntry(es[0]), EncodeEntries(es[1..]), EncodeEntry(e));
    }
  }

  /** Sorting keeps the entries, so also what can be said of each of them. */
  lemma {:induction false} SortedSame(entries: seq<IndexEntry>)
    ensures |Sort(PathLe, entries)| == |entries|
    ensures forall e :: e in Sort(PathLe, entries) <==> e in entries
  {
    if entries != [] {
      PathLePreorder();
      SortCorrect(PathLe, entries, entries[0]);
      var sorted := Sort(PathLe, entries);
      assert |multiset(sorted)| == |multiset(entries)|;
      forall e ensures e in sorted <==> e in entries {
        assert e in sorted <==> e in multiset(sorted);
        assert e in entries <==> e in multiset(entries);
      }
    }
  }

  /** What is written reads back as the entries stably sorted by path. */
  lemma {:induction false} WriteParse(entries: seq<IndexEntry>)
    requires |entries| < 0x1_0000_0000 && AllStorable(entries)
    ensures ParseSpec(Header(|entries|) + EncodeEntries(Sort(PathLe, entries))) == Some(Sort(PathLe, entries))
  {
    SortedSame(entries);
    var sorted := Sort(PathLe, entries);
    forall i | 0 <= i < |sorted| ensures Storable(sorted[i]) { assert sorted[i] in sorted; }
    ParseIsInverse(Header(|entries|) + EncodeEntries(sorted), sorted);
  }

  /** The parsing loop, with an offset into the data; every slice it takes is in bounds. */
  method Parse(data: seq<Byte>) returns (r: Option<seq<IndexEntry>>)
    ensures r == ParseSpec(data)
  {
    if |data| < HEADER_LEN {
      return None;
    }
    if data[..4] != MAGIC {
      return None;
    }
    if FromLe(data[4..8]) != VERSION {
      return None;
    }
    var count := FromLe(data[8..12]);
    if count * FIXED_LEN > |data| - HEADER_LEN {
      TooFewBytes(data[HEADER_LEN..], count);
      return None;
    }
    var entries: seq<IndexEntry> := [];
    var off := HEADER_LEN;
    PrependNothing(TakeAll(data[off..], count));
    for i := 0 to count
      invariant HEADER_LEN <= off <= |data|
      invariant ParseSpec(data) == Prepend(entries, TakeAll(data[off..], count - i))
    {
      var next := ParseEntry(data, off);
      PrependStep(entries, data[off..], count - i);
      if next.None? {
        return None;
      }
      entries, off := entries + [next.value.0], next.value.1;
    }
    if off != |data| {
      return None;
    }
    assert data[off..] == [] && entries + [] == entries;
    r := Some(entries);
  }

  /** One round of the loop: the entry at the offset, and the offset behind it. */
  method ParseEntry(data: seq<Byte>, off: nat) returns (r: Option<(IndexEntry, nat)>)
    requires off <= |data|
    ensures r.None? <==> TakeEntry(data[off..]).None?
    ensures r.Some? ==> off <= r.value.1 <= |data| && TakeEntry(data[off..]) == Some((r.value.0, data[r.value.1..]))
  {
    ghost var rest := data[off..];
    if |data| < off + FIXED_LEN {
      return None;
    }
    var fixed := data[off..off + FIXED_LEN];
    assert fixed == rest[..FIXED_LEN] && fixed[60..62] == rest[60..62];
    var len := FromLe(fixed[60..62]);
    if |data| < off + FIXED_LEN + len {
      return None;
    }
    var path := data[off + FIXED_LEN..off + FIXED_LEN + len];
    assert path == rest[FIXED_LEN..FIXED_LEN + len];
    if !IsUtf8(path) || !ValidPath(path) {
      return None;
    }
    assert data[off + FIXED_LEN + len..] == rest[FIXED_LEN + len..];
    r := Some((DecodeFixed(fixed, path), off + FIXED_LEN + len));
  }

  lemma {:induction false} PrependStep(es: seq<IndexEntry>, data: seq<Byte>, count: nat)
    requires count > 0
    ensures TakeEntry(data).None? ==> Prepend(es, TakeAll(data, count)) == None
    ensures TakeEntry(data).Some? ==>
      Prepend(es, TakeAll(data, count)) == Prepend(es + [TakeEntry(data).value.0], TakeAll(TakeEntry(data).value.1, count - 1))
  {
    if TakeEntry(data).Some? {
      var e, r := TakeEntry(data).value.0, TakeAll(TakeEntry(data).value.1, count - 1);
      if r.Some? { assert es + ([e] + r.value) == es + [e] + r.value; }
    }
  }

  /** A count that cannot fit in the remaining bytes is rejected early, and rightly so. */
  lemma {:induction false} TooFewBytes(data: seq<Byte>, count: nat)
    requires 62 * count > |data|
    ensures TakeAll(data, count).None?
  {
    if TakeAll(data, count).Some? {
      var es := TakeAll(data, count).value;
      TakeAllExact(data, count, es);
      EncodedLength(es);
    }
  }

  // ----- The in-memory index -----

  /** The first entry with this path. */
  function Lookup(es: seq<IndexEntry>, path: seq<Byte>): Option<IndexEntry>
    decreases |es|
  {
    if es == [] then None else if es[0].path == path then Some(es[0]) else Lookup(es[1..], path)
  }

  ghost predicate DistinctPaths(es: seq<IndexEntry>) {
    forall i, j :: 0 <= i < j < |es| ==> es[i].path != es[j].path
  }

  /** The first position of a path, or the length of the list. */
  function FirstAt(es: seq<IndexEntry>, path: seq<Byte>): (i: nat)
    ensures i <= |es| && (i < |es| ==> es[i].path == path)
    ensures forall j :: 0 <= j < i ==> es[j].path != path
    decreases |es|
  {
    if es == [] then 0 else if es[0].path == path then 0 else 1 + FirstAt(es[1..], path)
  }

  lemma {:induction false} LookupAt(es: seq<IndexEntry>, path: seq<Byte>)
    ensures Lookup(es, path) == if FirstAt(es, path) < |es| then Some(es[FirstAt(es, path)]) else None
    decreases |es|
  {
    if es != [] && es[0].path != path { LookupAt(es[1..], path); }
  }

  lemma {:induction false} LookupUpdate(es: seq<IndexEntry>, i: nat, e: IndexEntry, path: seq<Byte>)
    requires i < |es| && es[i].path == e.path && i == FirstAt(es, e.path)
    ensures Lookup(es[i := e], path) == if path == e.path then Some(e) else Lookup(es, path)
    decreases |es|
  {
    if i > 0 {
      LookupUpdate(es[1..], i - 1, e, path);
      assert es[i := e][1..] == es[1..][i - 1 := e];
    } else {
      assert es[i := e][1..] == es[1..];
    }
  }

  lemma {:induction false} LookupAppend(es: seq<IndexEntry>, e: IndexEntry, path: seq<Byte>)
    requires FirstAt(es, e.path) == |es|
    ensures Lookup(es + [e], path) == if path == e.path then Some(e) else Lookup(es, path)
    decreases |es|
  {
    if es == [] {
      assert es + [e] == [e];
    } else {
      LookupAppend(es[1..], e, path);
      assert (es + [e])[1..] == es[1..] + [e];
    }
  }

  /** The entries with another path, in order. */
  function Without(es: seq<IndexEntry>, path: seq<Byte>): seq<IndexEntry>
    decreases |es|
  {
    if es == [] then [] else (if es[0].path == path then [] else [es[0]]) + Without(es[1..], path)
  }

  lemma {:induction false} LookupWithout(es: seq<IndexEntry>, gone: seq<Byte>, path: seq<Byte>)
    ensures Lookup(Without(es, gone), path) == if path == gone then None else Lookup(es, path)
    ensures |Without(es, gone)| <= |es| && (|Without(es, gone)| == |es| <==> Lookup(es, gone).None?)
    decreases |es|
  {
    if es != [] {
      LookupWithout(es[1..], gone, path);
      if es[0].path != gone {
        assert Without(es, gone)[1..] == Without(es[1..], gone);
      } else {
        assert Without(es, gone) == Without(es[1..], gone);
      }
    }
  }

  lemma {:induction false} WithoutDistinct(es: seq<IndexEntry>, gone: seq<Byte>)
    requires DistinctPaths(es)
    ensures DistinctPaths(Without(es, gone))
    ensures forall e :: e in Without(es, gone) ==> e in es
    decreases |es|
  {
    if es != [] {
      WithoutDistinct(es[1..], gone);
      var rest := Without(es[1..], gone);
      forall i | 0 <= i < |rest| ensures rest[i].path != es[0].path && rest[i] in es {
        assert rest[i] in es[1..];
      }
      assert Without(es, gone) == rest || Without(es, gone) == [es[0]] + rest;
    }
  }

  class Index {
    var entries: seq<IndexEntry>

    constructor ()
      ensures entries == [] && DistinctPaths(entries)
    {
      entries := [];
    }

    method Find(path: seq<Byte>) returns (r: Option<IndexEntry>)
      ensures r == Lookup(entries, path)
    {
      LookupAt(entries, path);
      for i := 0 to |entries|
        invariant forall j :: 0 <= j < i ==> entries[j].path != path
      {
        if entries[i].path == path {
          assert FirstAt(entries, path) == i;
          return Some(entries[i]);
        }
      }
      return None;
    }

    /** Replace the entry of the same path in its slot, or append. */
    method Insert(e: IndexEntry)
      modifies this
      ensures forall path :: Lookup(entries, path) == if path == e.path then Some(e) else Lookup(old(entries), path)
      ensures var i := FirstAt(old(entries), e.path);
              entries == if i < |old(entries)| then old(entries)[i := e] else old(entries) + [e]
      ensures old(DistinctPaths(entries)) ==> DistinctPaths(entries)
    {
      LookupAt(entries, e.path);
      var i := FirstAt(entries, e.path);
      if i < |entries| {
        forall path ensures Lookup(entries[i := e], path) == if path == e.path then Some(e) else Lookup(entries, path) {
          LookupUpdate(entries, i, e, path);
        }
        entries := entries[i := e];
      } else {
        forall path ensures Lookup(entries + [e], path) == if path == e.path then Some(e) else Lookup(entries, path) {
          LookupAppend(entries, e, path);
        }
        entries := entries + [e];
      }
    }

    /** Remove every entry of a path. */
    method Remove(gone: seq<Byte>) returns (removed: bool)
      modifies this
      ensures entries == Without(old(entries), gone)
      ensures removed <==> Lookup(old(entries), gone).Some?
      ensures forall path :: Lookup(entries, path) == if path == gone then None else Lookup(old(entries), path)
      ensures old(DistinctPaths(entries)) ==> DistinctPaths(entries)
    {
      forall path ensures Lookup(Without(entries, gone), path) == if path == gone then None else Lookup(entries, path) {
        LookupWithout(entries, gone, path);
      }
      LookupWithout(entries, gone, gone);
      if DistinctPaths(entries) { WithoutDistinct(entries, gone); }
      var before := |entries|;
      entries := Without(entries, gone);
      removed := |entries| != before;
    }
  }
}
