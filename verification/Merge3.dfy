/** Three-way merge of lines: the reconciliation loop and what it yields. */
module Merge3 {
  // When the loop ends, when it is clean, what text it gives, and exactly when it loses an edit.

  import opened Bytes
  import opened Lines
  import opened EditDistance
  import opened EditMaps
  import Myers

  datatype MergeChunk =
    | Unchanged(lines: seq<Line>)
    | Conflict(ours: seq<Line>, baseLines: seq<Line>, theirs: seq<Line>)

  /** `Diverges` stands for a run whose cursor stops moving before the end of the base. */
  datatype Outcome = Merged(chunks: seq<MergeChunk>, clean: bool) | Diverges

  function Max(x: nat, y: nat): nat { if x >= y then x else y }

  /** Does either side edit position i? */
  predicate Changed(o: EditMap, t: EditMap, i: nat) { At(o, i) != (0, []) || At(t, i) != (0, []) }

  /** The length of the base region that is replaced at i. */
  function Del(o: EditMap, t: EditMap, i: nat): nat { Max(At(o, i).0, At(t, i).0) }

  /** Where the cursor goes from position i. */
  function Next(o: EditMap, t: EditMap, i: nat): nat {
    if Changed(o, t, i) then i + Del(o, t, i) else i + 1
  }

  /** Both sides edit i, and differently. */
  predicate Clash(o: EditMap, t: EditMap, i: nat) { i in o && i in t && o[i] != t[i] }

  /** The state of the loop: cursor, chunks, pending unchanged lines, and the clean flag. */
  datatype Cursor = Cursor(i: nat, chunks: seq<MergeChunk>, buf: seq<Line>, clean: bool)

  function Flush(chunks: seq<MergeChunk>, buf: seq<Line>): seq<MergeChunk> {
    if buf == [] then chunks else chunks + [Unchanged(buf)]
  }

  ghost predicate Inputs(base: seq<Line>, o: EditMap, t: EditMap) {
    WellFormed(o, |base|) && WellFormed(t, |base|)
  }

  /** The region at the cursor, resolved: one side's lines, or a conflict. */
  function Region(base: seq<Line>, o: EditMap, t: EditMap, i: nat): (c: MergeChunk)
    requires Inputs(base, o, t) && i < |base| && Changed(o, t, i)
  {
    var (od, oi) := At(o, i);
    var (td, ti) := At(t, i);
    if (td, ti) == (0, []) then Unchanged(oi)
    else if (od, oi) == (0, []) then Unchanged(ti)
    else if oi == ti && od == td then Unchanged(oi)
    else Conflict(oi, base[i..i + Max(od, td)], ti)
  }

  /** One iteration of the loop. */
  function Step(base: seq<Line>, o: EditMap, t: EditMap, s: Cursor): (r: Cursor)
    requires Inputs(base, o, t) && s.i < |base|
    ensures r.i == Next(o, t, s.i)
  {
    if !Changed(o, t, s.i) then Cursor(s.i + 1, s.chunks, s.buf + [base[s.i]], s.clean)
    else
      var c := Region(base, o, t, s.i);
      Cursor(s.i + Del(o, t, s.i), Flush(s.chunks, s.buf) + [c], [], s.clean && c.Unchanged?)
  }

  /** The trailing inserts, past the end of the base. */
  function Tail(base: seq<Line>, o: EditMap, t: EditMap): seq<MergeChunk> {
    var (oi, ti) := (At(o, |base|).1, At(t, |base|).1);
    if oi == [] && ti == [] then []
    else if ti == [] then [Unchanged(oi)]
    else if oi == [] then [Unchanged(ti)]
    else if oi == ti then [Unchanged(oi)]
    else [Conflict(oi, [], ti)]
  }

  datatype Side = Ours | Base | Theirs

  function ChunkLines(c: MergeChunk, side: Side): seq<Line> {
    match c
    case Unchanged(lines) => lines
    case Conflict(oi, bi, ti) => match side case Ours => oi case Base => bi case Theirs => ti
  }

  /** The text of the chunks when every conflict is resolved in favour of one side. */
  function Rendered(chunks: seq<MergeChunk>, side: Side): seq<Line> {
    if chunks == [] then [] else ChunkLines(chunks[0], side) + Rendered(chunks[1..], side)
  }

  /** Both edit maps at once; a clash replaces the larger region by the favoured side's lines. */
  ghost function Reconcile(base: seq<Line>, o: EditMap, t: EditMap, side: Side): EditMap
    requires Inputs(base, o, t)
  {
    map k | k in o.Keys + t.Keys :: Resolved(base, o, t, side, k)
  }

  ghost function Resolved(base: seq<Line>, o: EditMap, t: EditMap, side: Side, k: nat): (nat, seq<Line>)
    requires Inputs(base, o, t) && (k in o || k in t)
  {
    if Clash(o, t, k) then
      (Del(o, t, k), match side case Ours => o[k].1 case Base => base[k..k + Del(o, t, k)] case Theirs => t[k].1)
    else if k in o then o[k] else t[k]
  }

  lemma {:induction false} RenderedAppend(c: seq<MergeChunk>, d: seq<MergeChunk>, side: Side)
    ensures Rendered(c + d, side) == Rendered(c, side) + Rendered(d, side)
  {
    if c == [] {
      assert c + d == d;
    } else {
      Uncons(c, d);
      RenderedAppend(c[1..], d, side);
      Assoc(ChunkLines(c[0], side), Rendered(c[1..], side), Rendered(d, side));
    }
  }

  lemma {:induction false} RenderedOne(c: MergeChunk, side: Side)
    ensures Rendered([c], side) == ChunkLines(c, side)
  {
    assert [c][1..] == [];
  }

  lemma {:induction false} FlushRenders(chunks: seq<MergeChunk>, buf: seq<Line>, side: Side)
    ensures Rendered(Flush(chunks, buf), side) == Rendered(chunks, side) + buf
  {
    if buf != [] {
      RenderedAppend(chunks, [Unchanged(buf)], side);
      RenderedOne(Unchanged(buf), side);
    }
  }

  /** The text so far, followed by the rest of the base with both edit maps applied. */
  ghost function Projected(base: seq<Line>, o: EditMap, t: EditMap, s: Cursor, side: Side): seq<Line>
    requires Inputs(base, o, t)
  {
    Rendered(s.chunks, side) + s.buf + Apply(base, Reconcile(base, o, t, side), s.i)
  }

  /** A resolved region renders as the reconciled edit at that position. */
  lemma {:induction false} RegionMeaning(base: seq<Line>, o: EditMap, t: EditMap, i: nat, side: Side)
    requires Inputs(base, o, t) && i < |base| && Changed(o, t, i)
    ensures At(Reconcile(base, o, t, side), i) == (Del(o, t, i), ChunkLines(Region(base, o, t, i), side))
    ensures Region(base, o, t, i).Conflict? <==> Clash(o, t, i)
  {
  }

  lemma {:induction false} KeepLineText(base: seq<Line>, o: EditMap, t: EditMap, s: Cursor, side: Side)
    requires Inputs(base, o, t) && s.i < |base| && !Changed(o, t, s.i)
    ensures Projected(base, o, t, Step(base, o, t, s), side) == Projected(base, o, t, s, side)
  {
    var m := Reconcile(base, o, t, side);
    var pre, rest := Rendered(s.chunks, side), Apply(base, m, s.i + 1);
    assert s.i !in m;
    assert pre + s.buf + ([] + [base[s.i]] + rest) == pre + (s.buf + [base[s.i]]) + rest;
  }

  lemma {:induction false} RegionText(base: seq<Line>, o: EditMap, t: EditMap, s: Cursor, side: Side)
    requires Inputs(base, o, t) && s.i < |base| && Changed(o, t, s.i) && Del(o, t, s.i) > 0
    ensures Projected(base, o, t, Step(base, o, t, s), side) == Projected(base, o, t, s, side)
  {
    var m := Reconcile(base, o, t, side);
    var pre, rest := Rendered(s.chunks, side), Apply(base, m, s.i + Del(o, t, s.i));
    var c := Region(base, o, t, s.i);
    var l := ChunkLines(c, side);
    RegionMeaning(base, o, t, s.i, side);
    RegionRenders(s.chunks, s.buf, c, side);
    Assoc(pre + s.buf, l, rest);
    assert pre + s.buf + l + [] == pre + s.buf + l;
  }

  lemma {:induction false} RegionRenders(chunks: seq<MergeChunk>, buf: seq<Line>, c: MergeChunk, side: Side)
    ensures Rendered(Flush(chunks, buf) + [c], side) == Rendered(chunks, side) + buf + ChunkLines(c, side)
  {
    FlushRenders(chunks, buf, side);
    RenderedAppend(Flush(chunks, buf), [c], side);
    RenderedOne(c, side);
  }

  /** The end of the run: the flushed buffer and the tail complete the projected text. */
  lemma {:induction false} FinishText(base: seq<Line>, o: EditMap, t: EditMap, s: Cursor, side: Side)
    requires Inputs(base, o, t) && s.i == |base|
    ensures Rendered(Flush(s.chunks, s.buf) + Tail(base, o, t), side) == Projected(base, o, t, s, side)
  {
    var c := Flush(s.chunks, s.buf);
    RenderedAppend(c, Tail(base, o, t), side);
    FlushRenders(s.chunks, s.buf, side);
    TailMeaning(base, o, t, side);
  }

  lemma {:induction false} TailMeaning(base: seq<Line>, o: EditMap, t: EditMap, side: Side)
    requires Inputs(base, o, t)
    ensures Rendered(Tail(base, o, t), side) == Apply(base, Reconcile(base, o, t, side), |base|)
    ensures (exists c :: c in Tail(base, o, t) && c.Conflict?) <==> Clash(o, t, |base|)
  {
    var tail := Tail(base, o, t);
    if tail != [] {
      RenderedOne(tail[0], side);
      assert tail == [tail[0]];
      assert tail[0].Conflict? <==> Clash(o, t, |base|);
    }
  }

  /** The cursor, started at i, stops at a position before the end and never leaves it. */
  ghost predicate Hangs(o: EditMap, t: EditMap, n: nat, i: nat)
    decreases n - i
  {
    i < n && (Next(o, t, i) == i || Hangs(o, t, n, Next(o, t, i)))
  }

  /** The cursor, started at i, visits position k. */
  ghost predicate Visits(o: EditMap, t: EditMap, n: nat, i: nat, k: nat)
    decreases n - i
  {
    i == k || (i < n && Next(o, t, i) > i && Visits(o, t, n, Next(o, t, i), k))
  }

  /** The cursor, started at i, visits a clash. */
  ghost predicate MeetsClash(o: EditMap, t: EditMap, n: nat, i: nat) {
    exists k :: Visits(o, t, n, i, k) && Clash(o, t, k)
  }

  lemma {:induction false} MeetsClashStep(o: EditMap, t: EditMap, n: nat, i: nat)
    requires i < n && Next(o, t, i) > i
    ensures MeetsClash(o, t, n, i) <==> Clash(o, t, i) || MeetsClash(o, t, n, Next(o, t, i))
  {
    if MeetsClash(o, t, n, i) {
      var k :| Visits(o, t, n, i, k) && Clash(o, t, k);
      if k != i {
        assert Visits(o, t, n, Next(o, t, i), k);
      }
    }
    if Clash(o, t, i) {
      assert Visits(o, t, n, i, i);
    }
    if MeetsClash(o, t, n, Next(o, t, i)) {
      var k :| Visits(o, t, n, Next(o, t, i), k) && Clash(o, t, k);
      assert Visits(o, t, n, i, k);
    }
  }

  ghost predicate HasConflict(chunks: seq<MergeChunk>) { exists c :: c in chunks && c.Conflict? }

  // What is merged and what is in conflict, line by line.

  /** A line of the result, or a conflict that stands for the lines it covers. */
  datatype Cell = Plain(line: Line) | Fight(ours: seq<Line>, baseLines: seq<Line>, theirs: seq<Line>)

  function Plains(lines: seq<Line>): (cells: seq<Cell>)
    ensures |cells| == |lines|
  {
    seq(|lines|, i requires 0 <= i < |lines| => Plain(lines[i]))
  }

  function ChunkCells(c: MergeChunk): seq<Cell> {
    match c
    case Unchanged(lines) => Plains(lines)
    case Conflict(oi, bi, ti) => [Fight(oi, bi, ti)]
  }

  function Cells(chunks: seq<MergeChunk>): seq<Cell> {
    if chunks == [] then [] else ChunkCells(chunks[0]) + Cells(chunks[1..])
  }

  /**
    * What the result should be from base position i on: where both sides edit differently, a
    * conflict over the longer of the two regions; where one side edits, or both alike, its lines;
    * and elsewhere the base's own line.
    */
  ghost function Pieces(base: seq<Line>, o: EditMap, t: EditMap, i: nat): seq<Cell>
    requires Inputs(base, o, t)
    decreases |base| - i
  {
    if i in o && i in t && o[i] != t[i] then
      var n := if o[i].0 >= t[i].0 then o[i].0 else t[i].0;
      [Fight(o[i].1, base[i..i + n], t[i].1)] + (if n > 0 && i < |base| then Pieces(base, o, t, i + n) else [])
    else if i in o then
      Plains(o[i].1) + (if o[i].0 > 0 && i < |base| then Pieces(base, o, t, i + o[i].0) else [])
    else if i in t then
      Plains(t[i].1) + (if t[i].0 > 0 && i < |base| then Pieces(base, o, t, i + t[i].0) else [])
    else if i < |base| then [Plain(base[i])] + Pieces(base, o, t, i + 1)
    else []
  }

  lemma {:induction false} CellsAppend(c: seq<MergeChunk>, d: seq<MergeChunk>)
    ensures Cells(c + d) == Cells(c) + Cells(d)
  {
    if c == [] {
      assert c + d == d;
    } else {
      Uncons(c, d);
      CellsAppend(c[1..], d);
      Assoc(ChunkCells(c[0]), Cells(c[1..]), Cells(d));
    }
  }

  lemma {:induction false} CellsOne(c: MergeChunk)
    ensures Cells([c]) == ChunkCells(c)
  {
    assert [c][1..] == [];
  }

  lemma {:induction false} FlushCells(chunks: seq<MergeChunk>, buf: seq<Line>)
    ensures Cells(Flush(chunks, buf)) == Cells(chunks) + Plains(buf)
  {
    if buf != [] {
      CellsAppend(chunks, [Unchanged(buf)]);
      CellsOne(Unchanged(buf));
    }
  }

  /** The cells so far, followed by what the rest should be. */
  ghost function Outlook(base: seq<Line>, o: EditMap, t: EditMap, s: Cursor): seq<Cell>
    requires Inputs(base, o, t)
  {
    Cells(s.chunks) + Plains(s.buf) + Pieces(base, o, t, s.i)
  }

  lemma {:induction false} KeepLineCells(base: seq<Line>, o: EditMap, t: EditMap, s: Cursor)
    requires Inputs(base, o, t) && s.i < |base| && !Changed(o, t, s.i)
    ensures Outlook(base, o, t, Step(base, o, t, s)) == Outlook(base, o, t, s)
  {
    var line, rest := base[s.i], Pieces(base, o, t, s.i + 1);
    assert s.i !in o && s.i !in t;
    assert Plains(s.buf + [line]) == Plains(s.buf) + [Plain(line)];
    Assoc(Cells(s.chunks), Plains(s.buf), [Plain(line)]);
    Assoc(Cells(s.chunks) + Plains(s.buf), [Plain(line)], rest);
  }

  /** A region is the piece at its position. */
  lemma {:induction false} RegionPiece(base: seq<Line>, o: EditMap, t: EditMap, i: nat)
    requires Inputs(base, o, t) && i < |base| && Changed(o, t, i) && Del(o, t, i) > 0
    ensures Pieces(base, o, t, i) == ChunkCells(Region(base, o, t, i)) + Pieces(base, o, t, i + Del(o, t, i))
  {
    var c, rest := Region(base, o, t, i), Pieces(base, o, t, i + Del(o, t, i));
    if i in o && i in t && o[i] != t[i] {
      assert c == Conflict(o[i].1, base[i..i + Del(o, t, i)], t[i].1);
    } else if i in o {
      assert c == Unchanged(o[i].1);
    } else {
      assert c == Unchanged(t[i].1);
    }
  }

  lemma {:induction false} RegionCells(base: seq<Line>, o: EditMap, t: EditMap, s: Cursor)
    requires Inputs(base, o, t) && s.i < |base| && Changed(o, t, s.i) && Del(o, t, s.i) > 0
    ensures Outlook(base, o, t, Step(base, o, t, s)) == Outlook(base, o, t, s)
  {
    var c, rest := Region(base, o, t, s.i), Pieces(base, o, t, s.i + Del(o, t, s.i));
    RegionPiece(base, o, t, s.i);
    FlushedCells(s.chunks, s.buf, c);
    Assoc(Cells(s.chunks) + Plains(s.buf), ChunkCells(c), rest);
  }

  lemma {:induction false} FlushedCells(chunks: seq<MergeChunk>, buf: seq<Line>, c: MergeChunk)
    ensures Cells(Flush(chunks, buf) + [c]) + Plains([]) == Cells(chunks) + Plains(buf) + ChunkCells(c)
  {
    FlushCells(chunks, buf);
    CellsAppend(Flush(chunks, buf), [c]);
    CellsOne(c);
  }

  lemma {:induction false} TailCells(base: seq<Line>, o: EditMap, t: EditMap)
    requires Inputs(base, o, t)
    ensures Cells(Tail(base, o, t)) == Pieces(base, o, t, |base|)
  {
    var tail := Tail(base, o, t);
    TailPiece(base, o, t);
    if tail != [] {
      CellsOne(tail[0]);
      assert tail == [tail[0]];
    }
  }

  lemma {:induction false} TailPiece(base: seq<Line>, o: EditMap, t: EditMap)
    requires Inputs(base, o, t)
    ensures var n, tail := |base|, Tail(base, o, t);
      && |tail| <= 1
      && Pieces(base, o, t, n) == if tail == [] then [] else ChunkCells(tail[0])
  {
    var n := |base|;
    assert base[n..n] == [];
    assert Plains([]) == [];
  }

  lemma {:induction false} FinishCells(base: seq<Line>, o: EditMap, t: EditMap, s: Cursor)
    requires Inputs(base, o, t) && s.i == |base|
    ensures Cells(Flush(s.chunks, s.buf) + Tail(base, o, t)) == Outlook(base, o, t, s)
  {
    CellsAppend(Flush(s.chunks, s.buf), Tail(base, o, t));
    FlushCells(s.chunks, s.buf);
    TailCells(base, o, t);
  }

  // The conflicts alone.

  function Conflicts(chunks: seq<MergeChunk>): seq<MergeChunk> {
    if chunks == [] then []
    else (if chunks[0].Conflict? then [chunks[0]] else []) + Conflicts(chunks[1..])
  }

  function Fights(cells: seq<Cell>): seq<MergeChunk> {
    if cells == [] then []
    else
      (match cells[0] case Plain(_) => [] case Fight(oi, bi, ti) => [Conflict(oi, bi, ti)]) + Fights(cells[1..])
  }

  lemma {:induction false} FightsAppend(c: seq<Cell>, d: seq<Cell>)
    ensures Fights(c + d) == Fights(c) + Fights(d)
  {
    if c == [] {
      assert c + d == d;
    } else {
      Uncons(c, d);
      FightsAppend(c[1..], d);
    }
  }

  lemma {:induction false} PlainsFight(lines: seq<Line>)
    ensures Fights(Plains(lines)) == []
  {
    if lines != [] {
      PlainsFight(lines[1..]);
      assert Plains(lines)[1..] == Plains(lines[1..]);
    }
  }

  lemma {:induction false} FightsOfCells(chunks: seq<MergeChunk>)
    ensures Fights(Cells(chunks)) == Conflicts(chunks)
  {
    if chunks != [] {
      FightsAppend(ChunkCells(chunks[0]), Cells(chunks[1..]));
      FightsOfCells(chunks[1..]);
      FightsOfChunk(chunks[0]);
    }
  }

  lemma {:induction false} FightsOfChunk(c: MergeChunk)
    ensures Fights(ChunkCells(c)) == if c.Conflict? then [c] else []
  {
    match c
    case Unchanged(lines) => PlainsFight(lines);
    case Conflict(oi, bi, ti) => assert [Fight(oi, bi, ti)][1..] == [];
  }

  /** The conflict over the longer of the two regions at k. */
  ghost function ConflictAt(base: seq<Line>, o: EditMap, t: EditMap, k: nat): MergeChunk
    requires Inputs(base, o, t) && k in o && k in t
  {
    Conflict(o[k].1, base[k..k + if o[k].0 >= t[k].0 then o[k].0 else t[k].0], t[k].1)
  }

  /** The cursor, started at i, visits k, where both sides edit, and differently. */
  ghost predicate VisitedClash(o: EditMap, t: EditMap, n: nat, i: nat, k: nat) {
    Visits(o, t, n, i, k) && k in o && k in t && o[k] != t[k]
  }

  ghost predicate IsConflictAt(base: seq<Line>, o: EditMap, t: EditMap, c: MergeChunk, k: nat)
    requires Inputs(base, o, t)
  {
    k in o && k in t && c == ConflictAt(base, o, t, k)
  }

  predicate Rising(at: seq<nat>) { forall j, k :: 0 <= j < k < |at| ==> at[j] < at[k] }

  /** cs are the conflicts at the positions `at`, which are, in order, the clashes the cursor
      visits from i on. */
  ghost predicate ConflictsAt(base: seq<Line>, o: EditMap, t: EditMap, i: nat, cs: seq<MergeChunk>, at: seq<nat>)
    requires Inputs(base, o, t)
  {
    && Rising(at) && (forall k: nat :: k in at <==> VisitedClash(o, t, |base|, i, k))
    && |cs| == |at| && (forall j :: 0 <= j < |at| ==> IsConflictAt(base, o, t, cs[j], at[j]))
  }

  lemma {:induction false} VisitedClashStep(o: EditMap, t: EditMap, n: nat, i: nat, k: nat)
    requires i < n && Next(o, t, i) > i
    ensures VisitedClash(o, t, n, i, k) <==> (k == i && Clash(o, t, i)) || VisitedClash(o, t, n, Next(o, t, i), k)
    ensures VisitedClash(o, t, n, Next(o, t, i), k) ==> i < k
  {
    if Visits(o, t, n, Next(o, t, i), k) { VisitsForward(o, t, n, Next(o, t, i), k); }
  }

  /** From a position to the next. */
  lemma {:induction false} ConflictsStep(base: seq<Line>, o: EditMap, t: EditMap, i: nat,
                                         cs: seq<MergeChunk>, at: seq<nat>)
    requires Inputs(base, o, t) && i < |base| && Next(o, t, i) > i
    requires ConflictsAt(base, o, t, Next(o, t, i), cs, at)
    ensures Clash(o, t, i) ==> ConflictsAt(base, o, t, i, [ConflictAt(base, o, t, i)] + cs, [i] + at)
    ensures !Clash(o, t, i) ==> ConflictsAt(base, o, t, i, cs, at)
  {
    forall k: nat
      ensures VisitedClash(o, t, |base|, i, k) <==> (k == i && Clash(o, t, i)) || k in at
      ensures k in at ==> i < k
    {
      VisitedClashStep(o, t, |base|, i, k);
    }
    if Clash(o, t, i) {
      RisingFrom(i, at);
      var ds := [ConflictAt(base, o, t, i)] + cs;
      forall j | 0 <= j < |ds| ensures IsConflictAt(base, o, t, ds[j], ([i] + at)[j]) {
        if j > 0 { assert IsConflictAt(base, o, t, cs[j - 1], at[j - 1]); }
      }
    }
  }

  lemma {:induction false} RisingFrom(i: nat, at: seq<nat>)
    requires Rising(at) && forall k :: k in at ==> i < k
    ensures Rising([i] + at) && forall k :: k in [i] + at <==> k == i || k in at
  {
    var more := [i] + at;
    forall j, k | 0 <= j < k < |more| ensures more[j] < more[k] {
      assert more[k] == at[k - 1] && at[k - 1] in at && (j > 0 ==> more[j] == at[j - 1]);
    }
  }

  lemma {:induction false} PiecesFight(base: seq<Line>, o: EditMap, t: EditMap, i: nat) returns (at: seq<nat>)
    requires Inputs(base, o, t) && i <= |base| && !Hangs(o, t, |base|, i)
    ensures ConflictsAt(base, o, t, i, Fights(Pieces(base, o, t, i)), at)
    decreases |base| - i
  {
    if i == |base| {
      at := if Clash(o, t, i) then [i] else [];
      TailPiece(base, o, t);
      TailFights(base, o, t);
    } else {
      at := PiecesFight(base, o, t, Next(o, t, i));
      PieceFights(base, o, t, i);
      ConflictsStep(base, o, t, i, Fights(Pieces(base, o, t, Next(o, t, i))), at);
      at := if Clash(o, t, i) then [i] + at else at;
    }
  }

  /** Past the end of the base. */
  lemma {:induction false} TailFights(base: seq<Line>, o: EditMap, t: EditMap)
    requires Inputs(base, o, t)
    ensures var n := |base|;
      Fights(Pieces(base, o, t, n)) == if Clash(o, t, n) then [ConflictAt(base, o, t, n)] else []
  {
    var n := |base|;
    TailPiece(base, o, t);
    var tail := Tail(base, o, t);
    if tail != [] {
      FightsOfChunk(tail[0]);
      assert base[n..n] == [];
    }
  }

  lemma {:induction false} PieceFights(base: seq<Line>, o: EditMap, t: EditMap, i: nat)
    requires Inputs(base, o, t) && i < |base| && Next(o, t, i) > i
    ensures var rest := Fights(Pieces(base, o, t, Next(o, t, i)));
      Fights(Pieces(base, o, t, i)) == if Clash(o, t, i) then [ConflictAt(base, o, t, i)] + rest else rest
  {
    if Changed(o, t, i) {
      RegionPiece(base, o, t, i);
      FightsAppend(ChunkCells(Region(base, o, t, i)), Pieces(base, o, t, Next(o, t, i)));
      FightsOfChunk(Region(base, o, t, i));
      RegionMeaning(base, o, t, i, Ours);
    } else {
      assert i !in o && i !in t;
      assert ([Plain(base[i])] + Pieces(base, o, t, i + 1))[1..] == Pieces(base, o, t, i + 1);
    }
  }

  /**
    * The conflicts of a merge that ends are, in order, one for each clash the cursor visits: our
    * lines, the base's over the longer of the two regions, and their lines.
    */
  lemma {:induction false} ConflictsAre(base: seq<Line>, o: EditMap, t: EditMap, m: Outcome) returns (at: seq<nat>)
    requires Inputs(base, o, t) && Reconciles(base, o, t, m) && m.Merged?
    ensures ConflictsAt(base, o, t, 0, Conflicts(m.chunks), at)
  {
    at := PiecesFight(base, o, t, 0);
    FightsOfCells(m.chunks);
  }

  /** What the loop delivers: it hangs or ends, it is clean unless the cursor met a clash, its
      lines and conflicts are the pieces of the two edit maps, and its text, read with either side
      favoured, is the base with the reconciled edits applied. */
  ghost predicate Reconciles(base: seq<Line>, o: EditMap, t: EditMap, m: Outcome)
    requires Inputs(base, o, t)
  {
    && (m.Diverges? <==> Hangs(o, t, |base|, 0))
    && (m.Merged? ==> (m.clean <==> !MeetsClash(o, t, |base|, 0)) && (m.clean <==> !HasConflict(m.chunks)))
    && (m.Merged? ==> Cells(m.chunks) == Pieces(base, o, t, 0))
    && (m.Merged? ==> forall side :: Rendered(m.chunks, side) == Apply(base, Reconcile(base, o, t, side), 0))
  }

  /** What one iteration keeps. */
  lemma {:induction false} StepKeeps(base: seq<Line>, o: EditMap, t: EditMap, s: Cursor)
    requires Inputs(base, o, t) && s.i < |base| && Next(o, t, s.i) > s.i
    ensures var r := Step(base, o, t, s);
      && Outlook(base, o, t, r) == Outlook(base, o, t, s)
      && forall side :: Projected(base, o, t, r, side) == Projected(base, o, t, s, side)
  {
    if Changed(o, t, s.i) { RegionCells(base, o, t, s); } else { KeepLineCells(base, o, t, s); }
    forall side ensures Projected(base, o, t, Step(base, o, t, s), side) == Projected(base, o, t, s, side) {
      if Changed(o, t, s.i) { RegionText(base, o, t, s, side); } else { KeepLineText(base, o, t, s, side); }
    }
  }

  /** The reconciliation loop. */
  method MergeLoop(base: seq<Line>, o: EditMap, t: EditMap) returns (m: Outcome)
    requires Inputs(base, o, t)
    ensures Reconciles(base, o, t, m)
  {
    var s := Cursor(0, [], [], true);
    while s.i < |base|
      invariant s.i <= |base|
      invariant Hangs(o, t, |base|, s.i) <==> Hangs(o, t, |base|, 0)
      invariant s.clean <==> !HasConflict(s.chunks)
      invariant !s.clean || MeetsClash(o, t, |base|, s.i) <==> MeetsClash(o, t, |base|, 0)
      invariant Outlook(base, o, t, s) == Pieces(base, o, t, 0)
      invariant forall side :: Projected(base, o, t, s, side) == Apply(base, Reconcile(base, o, t, side), 0)
      decreases |base| - s.i
    {
      var next := Step(base, o, t, s);
      if next.i == s.i {
        return Diverges;
      }
      MeetsClashStep(o, t, |base|, s.i);
      StepKeeps(base, o, t, s);
      StepConflicts(base, o, t, s);
      s := next;
    }
    m := Finish(base, o, t, s);
  }

  /** Past the end of the base: the pending lines and the trailing inserts. */
  method Finish(base: seq<Line>, o: EditMap, t: EditMap, s: Cursor) returns (m: Outcome)
    requires Inputs(base, o, t) && s.i == |base| && (s.clean <==> !HasConflict(s.chunks))
    ensures m.Merged? && Cells(m.chunks) == Outlook(base, o, t, s)
    ensures m.clean <==> s.clean && !Clash(o, t, |base|)
    ensures m.clean <==> !HasConflict(m.chunks)
    ensures forall side :: Rendered(m.chunks, side) == Projected(base, o, t, s, side)
  {
    var tail := Tail(base, o, t);
    m := Merged(Flush(s.chunks, s.buf) + tail, s.clean && (tail == [] || tail[0].Unchanged?));
    forall side ensures Rendered(m.chunks, side) == Projected(base, o, t, s, side) {
      FinishText(base, o, t, s, side);
    }
    TailMeaning(base, o, t, Ours);
    FinishCells(base, o, t, s);
  }

  lemma {:induction false} StepConflicts(base: seq<Line>, o: EditMap, t: EditMap, s: Cursor)
    requires Inputs(base, o, t) && s.i < |base|
    ensures HasConflict(Step(base, o, t, s).chunks) <==> HasConflict(s.chunks) || Clash(o, t, s.i)
  {
    if Changed(o, t, s.i) {
      RegionMeaning(base, o, t, s.i, Ours);
      assert forall c :: c in Step(base, o, t, s).chunks <==>
        c in s.chunks || (s.buf != [] && c == Unchanged(s.buf)) || c == Region(base, o, t, s.i);
      assert Region(base, o, t, s.i) in Step(base, o, t, s).chunks;
    }
  }

  /** No edit of one side starts strictly inside a region the other side deletes. */
  ghost predicate NoSkip(o: EditMap, t: EditMap) {
    && (forall k, s :: k in o && s in t ==> !(s < k < s + t[s].0))
    && (forall k, s :: k in t && s in o ==> !(s < k < s + o[s].0))
  }

  ghost predicate Edited(o: EditMap, t: EditMap, k: nat) { k in o || k in t }

  /** Every edit of either side is visited, so none is silently dropped. */
  ghost predicate NothingLost(o: EditMap, t: EditMap, n: nat) {
    forall k :: Edited(o, t, k) ==> Visits(o, t, n, 0, k)
  }

  /** Two visited positions are a full region apart. */
  lemma {:induction false} VisitsApart(o: EditMap, t: EditMap, n: nat, i: nat, s: nat, k: nat)
    requires Visits(o, t, n, i, s) && Visits(o, t, n, i, k) && s < k
    ensures Next(o, t, s) <= k
    decreases n - i
  {
    VisitsForward(o, t, n, i, s);
    if i == s {
      VisitsForward(o, t, n, Next(o, t, i), k);
    } else {
      VisitsApart(o, t, n, Next(o, t, i), s, k);
    }
  }

  lemma {:induction false} VisitsForward(o: EditMap, t: EditMap, n: nat, i: nat, k: nat)
    requires Visits(o, t, n, i, k)
    ensures i <= k
    decreases n - i
  {
    if i != k { VisitsForward(o, t, n, Next(o, t, i), k); }
  }

  /** Without skips, the cursor steps from edit to edit. */
  lemma {:induction false} NextEdit(base: seq<Line>, o: EditMap, t: EditMap, i: nat, k: nat)
    requires Inputs(base, o, t) && NoSkip(o, t) && i < |base| && i < k && Edited(o, t, k)
    ensures Next(o, t, i) <= k
  {
  }

  lemma {:induction false} VisitsEdits(base: seq<Line>, o: EditMap, t: EditMap, i: nat, k: nat)
    requires Inputs(base, o, t) && NoSkip(o, t) && !Hangs(o, t, |base|, i)
    requires i <= k && Edited(o, t, k)
    ensures Visits(o, t, |base|, i, k)
    decreases |base| - i
  {
    if i < k {
      NextEdit(base, o, t, i, k);
      VisitsEdits(base, o, t, Next(o, t, i), k);
    }
  }

  /** The exact condition under which a merge that ends loses no edit. */
  lemma {:induction false} LosesNothingIff(base: seq<Line>, o: EditMap, t: EditMap)
    requires Inputs(base, o, t) && !Hangs(o, t, |base|, 0)
    ensures NothingLost(o, t, |base|) <==> NoSkip(o, t)
  {
    if NoSkip(o, t) {
      forall k | Edited(o, t, k)
        ensures Visits(o, t, |base|, 0, k)
      {
        VisitsEdits(base, o, t, 0, k);
      }
    }
    if NothingLost(o, t, |base|) {
      NothingLostNoSkip(base, o, t);
    }
  }

  lemma {:induction false} NothingLostNoSkip(base: seq<Line>, o: EditMap, t: EditMap)
    requires NothingLost(o, t, |base|)
    ensures NoSkip(o, t)
  {
    forall k, s | k in o && s in t
      ensures !(s < k < s + t[s].0)
    {
      BothVisited(base, o, t, s, k);
    }
    forall k, s | k in t && s in o
      ensures !(s < k < s + o[s].0)
    {
      BothVisited(base, o, t, s, k);
    }
  }

  lemma {:induction false} BothVisited(base: seq<Line>, o: EditMap, t: EditMap, s: nat, k: nat)
    requires NothingLost(o, t, |base|) && Edited(o, t, k) && Edited(o, t, s)
    ensures !(s < k < s + At(o, s).0) && !(s < k < s + At(t, s).0)
  {
    if s < k {
      VisitsApart(o, t, |base|, 0, s, k);
    }
  }

  /** A position before the end where lines are only inserted. */
  ghost predicate PureInsert(o: EditMap, t: EditMap, n: nat, k: nat) {
    k < n && Edited(o, t, k) && Del(o, t, k) == 0
  }

  lemma {:induction false} HangsAtVisit(o: EditMap, t: EditMap, n: nat, i: nat, k: nat)
    requires Visits(o, t, n, i, k) && k < n && Next(o, t, k) == k
    ensures Hangs(o, t, n, i)
    decreases n - i
  {
    if i != k { HangsAtVisit(o, t, n, Next(o, t, i), k); }
  }

  lemma {:induction false} HangWitness(o: EditMap, t: EditMap, n: nat, i: nat) returns (k: nat)
    requires Hangs(o, t, n, i)
    ensures Visits(o, t, n, i, k) && k < n && Next(o, t, k) == k
    decreases n - i
  {
    if Next(o, t, i) == i {
      k := i;
    } else {
      k := HangWitness(o, t, n, Next(o, t, i));
    }
  }

  /** The loop hangs exactly when its cursor visits a pure insert before the end of the base. */
  lemma {:induction false} HangsIff(base: seq<Line>, o: EditMap, t: EditMap)
    requires Inputs(base, o, t)
    ensures Hangs(o, t, |base|, 0) <==> exists k :: PureInsert(o, t, |base|, k) && Visits(o, t, |base|, 0, k)
  {
    if Hangs(o, t, |base|, 0) {
      var k := HangWitness(o, t, |base|, 0);
      assert PureInsert(o, t, |base|, k);
    }
    if exists k :: PureInsert(o, t, |base|, k) && Visits(o, t, |base|, 0, k) {
      var k :| PureInsert(o, t, |base|, k) && Visits(o, t, |base|, 0, k);
      assert Next(o, t, k) == k;
      HangsAtVisit(o, t, |base|, 0, k);
    }
  }

  /** Whatever the edits: without a pure insert before the end, the loop ends. */
  lemma {:induction false} EndsWithoutPureInserts(base: seq<Line>, o: EditMap, t: EditMap)
    requires Inputs(base, o, t) && !exists k :: PureInsert(o, t, |base|, k)
    ensures !Hangs(o, t, |base|, 0)
  {
    HangsIff(base, o, t);
  }

  /** Without skips: the loop ends exactly when no side only inserts before the end. */
  lemma {:induction false} EndsIff(base: seq<Line>, o: EditMap, t: EditMap)
    requires Inputs(base, o, t) && NoSkip(o, t)
    ensures Hangs(o, t, |base|, 0) <==> exists k :: PureInsert(o, t, |base|, k)
  {
    HangsIff(base, o, t);
    if !Hangs(o, t, |base|, 0) {
      LosesNothingIff(base, o, t);
    }
  }

  /** Without skips: a merge that ends is clean exactly when the sides agree wherever both edit. */
  lemma {:induction false} CleanIff(base: seq<Line>, o: EditMap, t: EditMap)
    requires Inputs(base, o, t) && NoSkip(o, t) && !Hangs(o, t, |base|, 0)
    ensures MeetsClash(o, t, |base|, 0) <==> exists k :: Clash(o, t, k)
  {
    LosesNothingIff(base, o, t);
    if exists k :: Clash(o, t, k) {
      var k :| Clash(o, t, k);
      assert Edited(o, t, k);
    }
  }

  /** A clean merge that skips nothing is the base with both edit maps applied at once. */
  lemma {:induction false} CleanText(base: seq<Line>, o: EditMap, t: EditMap, side: Side)
    requires Inputs(base, o, t) && NoSkip(o, t) && !Hangs(o, t, |base|, 0)
    requires !MeetsClash(o, t, |base|, 0)
    ensures Reconcile(base, o, t, side) == o + t
  {
    CleanIff(base, o, t);
  }

  /** Wherever both sides edit, they edit alike. */
  ghost predicate Agree(o: EditMap, t: EditMap) { forall k :: k in o && k in t ==> o[k] == t[k] }

  lemma {:induction false} AgreeIff(o: EditMap, t: EditMap)
    ensures Agree(o, t) <==> !exists k :: Clash(o, t, k)
  {
    if k :| k in o && k in t && o[k] != t[k] {
      assert Clash(o, t, k);
    }
  }

  /** A merge without skips, clashes or early pure inserts ends, is clean, and is the base with
      both sides' edits applied at once. */
  lemma {:induction false} GoodMerge(base: seq<Line>, o: EditMap, t: EditMap, m: Outcome)
    requires Inputs(base, o, t) && Reconciles(base, o, t, m) && NoSkip(o, t)
    ensures m.Merged? <==> !exists k :: PureInsert(o, t, |base|, k)
    ensures m.Merged? ==> (m.clean <==> Agree(o, t))
    ensures m.Merged? && m.clean ==> forall side :: Rendered(m.chunks, side) == Apply(base, o + t, 0)
  {
    EndsIff(base, o, t);
    if m.Merged? {
      CleanIff(base, o, t);
      AgreeIff(o, t);
      if m.clean {
        CleanText(base, o, t, Ours);
        CleanText(base, o, t, Base);
        CleanText(base, o, t, Theirs);
      }
    }
  }

  /** The loop body run k times, for as long as the cursor is before the end. */
  ghost function Iterate(base: seq<Line>, o: EditMap, t: EditMap, s: Cursor, k: nat): Cursor
    requires Inputs(base, o, t)
    decreases k
  {
    if k == 0 || s.i >= |base| then s else Iterate(base, o, t, Step(base, o, t, s), k - 1)
  }

  /** `Diverges` is justified: a cursor that does not move in one iteration never moves. */
  lemma {:induction false} StuckForever(base: seq<Line>, o: EditMap, t: EditMap, s: Cursor, k: nat)
    requires Inputs(base, o, t) && s.i < |base| && Next(o, t, s.i) == s.i
    ensures Iterate(base, o, t, s, k).i == s.i
    decreases k
  {
    if k > 0 { StuckForever(base, o, t, Step(base, o, t, s), k - 1); }
  }

  /** One side of a merge: its lines, and the script that leads to them from the base. */
  datatype Version = Version(lines: seq<Line>, script: Script)

  /** v is what the diff makes of a file, and e are the edits of its script. */
  ghost predicate Diffed(base: seq<Line>, file: seq<Byte>, v: Version, e: EditMap) {
    && NoNewlines(v.lines) && Unlines(v.lines) == Ended(file)
    && Transforms(v.script, base, v.lines) && e == EditsOf(v.script, 0, 0)
    && (Shortest(v.script, base, v.lines) <==>
        |base| + |v.lines| <= 50_000 || NoCommonLine(base, v.lines))
  }

  /** The edits of a diff are well formed, and replaying them gives the file. */
  lemma {:induction false} DiffedApplies(base: seq<Line>, file: seq<Byte>, v: Version, e: EditMap)
    requires Diffed(base, file, v, e)
    ensures WellFormed(e, |base|) && Apply(base, e, 0) == v.lines
  {
    assert v.script[0..] == v.script && base[0..] == base;
    ApplyEditsOf(base, v.script, 0, 0);
    EditsWellFormed(v.script, 0, 0, |base|);
  }

  /** One side is unchanged, or both are changed alike. */
  predicate OneChange(base: seq<Byte>, ours: seq<Byte>, theirs: seq<Byte>) {
    ours == theirs || base == ours || base == theirs
  }

  /** m is what the loop makes of the base's lines b and of what the diff makes of the two sides. */
  ghost predicate MergedFrom(base: seq<Byte>, ours: seq<Byte>, theirs: seq<Byte>, m: Outcome,
                             b: seq<Line>, o: EditMap, t: EditMap, ov: Version, tv: Version) {
    && NoNewlines(b) && Unlines(b) == Ended(base)
    && Diffed(b, ours, ov, o) && Diffed(b, theirs, tv, t)
    && Apply(b, o, 0) == ov.lines && Apply(b, t, 0) == tv.lines
    && Inputs(b, o, t) && Reconciles(b, o, t, m)
  }

  /** What the merge of three files may come to. */
  ghost predicate Merges(base: seq<Byte>, ours: seq<Byte>, theirs: seq<Byte>, m: Outcome) {
    if OneChange(base, ours, theirs) then
      && m.Merged? && m.clean && !HasConflict(m.chunks)
      && forall side :: Unlines(Rendered(m.chunks, side)) == Ended(if base == ours then theirs else ours)
    else exists b, o, t, ov, tv :: MergedFrom(base, ours, theirs, m, b, o, t, ov, tv)
  }

  /** The merge of files. */
  method MergeLines(base: seq<Byte>, ours: seq<Byte>, theirs: seq<Byte>) returns (m: Outcome)
    ensures Merges(base, ours, theirs, m)
  {
    if ours == theirs || base == ours || base == theirs {
      m := TakeChanged(if base == ours then theirs else ours);
      return;
    }
    var b := SplitLines(base);
    ghost var ov, tv;
    var o, t;
    o, ov := SideEdits(b, ours);
    t, tv := SideEdits(b, theirs);
    m := MergeLoop(b, o, t);
    assert MergedFrom(base, ours, theirs, m, b, o, t, ov, tv);
  }

  /** Only one side changed, or both changed alike: that file is the merge. */
  method TakeChanged(file: seq<Byte>) returns (m: Outcome)
    ensures m.Merged? && m.clean && !HasConflict(m.chunks)
    ensures forall side :: Unlines(Rendered(m.chunks, side)) == Ended(file)
  {
    var lines := SplitLines(file);
    m := Merged([Unchanged(lines)], true);
    forall side ensures Rendered(m.chunks, side) == lines {
      RenderedOne(Unchanged(lines), side);
    }
  }

  /** One side's edit map: split, diff against the base, walk the script. */
  method SideEdits(base: seq<Line>, side: seq<Byte>) returns (e: EditMap, ghost v: Version)
    ensures Diffed(base, side, v, e) && WellFormed(e, |base|) && Apply(base, e, 0) == v.lines
  {
    var lines := SplitLines(side);
    var ops := Myers.Diff(base, lines);
    e := WalkEdits(ops);
    v := Version(lines, ops);
    DiffedApplies(base, side, v, e);
  }

  /** Swapping the sides swaps the merge: same end, same cleanliness, same text mirrored. */
  lemma {:induction false} HangsSymmetric(o: EditMap, t: EditMap, n: nat, i: nat)
    ensures Hangs(o, t, n, i) <==> Hangs(t, o, n, i)
    decreases n - i
  {
    if i < n && Next(o, t, i) > i { HangsSymmetric(o, t, n, Next(o, t, i)); }
  }

  lemma {:induction false} ReconcileSymmetric(base: seq<Line>, o: EditMap, t: EditMap)
    requires Inputs(base, o, t)
    ensures Reconcile(base, o, t, Ours) == Reconcile(base, t, o, Theirs)
    ensures Reconcile(base, o, t, Base) == Reconcile(base, t, o, Base)
  {
    ReconcileSwapped(base, o, t, Ours, Theirs);
    ReconcileSwapped(base, o, t, Base, Base);
  }

  lemma {:induction false} ReconcileSwapped(base: seq<Line>, o: EditMap, t: EditMap, side: Side, other: Side)
    requires Inputs(base, o, t) && ((side.Ours? && other.Theirs?) || (side.Base? && other.Base?))
    ensures Reconcile(base, o, t, side) == Reconcile(base, t, o, other)
  {
    var m, n := Reconcile(base, o, t, side), Reconcile(base, t, o, other);
    assert m.Keys == o.Keys + t.Keys && n.Keys == m.Keys;
    forall k | k in m ensures m[k] == n[k] {
      ResolvedSymmetric(base, o, t, k);
    }
  }

  lemma {:induction false} ResolvedSymmetric(base: seq<Line>, o: EditMap, t: EditMap, k: nat)
    requires Inputs(base, o, t) && (k in o || k in t)
    ensures Resolved(base, o, t, Ours, k) == Resolved(base, t, o, Theirs, k)
    ensures Resolved(base, o, t, Base, k) == Resolved(base, t, o, Base, k)
  {
  }
}
