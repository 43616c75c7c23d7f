/** Grouping an edit script into hunks, and patching with them. */
module Hunks {
  import opened Bytes
  import opened EditDistance

  /** One contiguous hunk; `aStart` and `bStart` are 1-based line numbers. */
  datatype Hunk = Hunk(aStart: nat, aLen: nat, bStart: nat, bLen: nat, ops: Script)

  /** Line positions on the two sides before op i. */
  function PosA(ops: Script, i: nat): nat
    requires i <= |ops|
  {
    |Olds(ops[..i])|
  }

  function PosB(ops: Script, i: nat): nat
    requires i <= |ops|
  {
    |News(ops[..i])|
  }

  ghost predicate EqualRun(ops: Script, from: int, to: int) {
    0 <= from <= to <= |ops| && forall i :: from <= i < to ==> ops[i].Equal?
  }

  /** The hunk is the slice [s, e) of the script, and its header gives the true positions. */
  ghost predicate HunkOf(ops: Script, h: Hunk, s: int, e: int) {
    && 0 <= s < e <= |ops| && h.ops == ops[s..e]
    && h.aStart == PosA(ops, s) + 1 && h.aLen == |Olds(h.ops)|
    && h.bStart == PosB(ops, s) + 1 && h.bLen == |News(h.ops)|
  }

  /** From op p on, the hunks are the slices `spans`: in order, disjoint, and every op
      outside them is an Equal. */
  ghost predicate Grouped(ops: Script, hunks: seq<Hunk>, spans: seq<(int, int)>, p: int)
    decreases |hunks|
  {
    && |spans| == |hunks|
    && if hunks == [] then EqualRun(ops, p, |ops|)
       else
         && HunkOf(ops, hunks[0], spans[0].0, spans[0].1)
         && EqualRun(ops, p, spans[0].0)
         && Grouped(ops, hunks[1..], spans[1..], spans[0].1)
  }

  /** Apply hunks as a patch tool does: copy the lines between hunks, check every header
      number and every old line, and emit the new lines. `pos` and `out` are the lines of `a`
      read and the lines written so far. */
  function Patch(a: seq<Line>, hunks: seq<Hunk>, pos: nat, out: nat): (r: Option<seq<Line>>)
    requires pos <= |a|
    decreases |hunks|
  {
    if hunks == [] then Some(a[pos..])
    else
      var h := hunks[0];
      var from := h.aStart - 1;
      var to := from + h.aLen;
      if from < pos || to > |a| || a[from..to] != Olds(h.ops) then None
      else if h.bStart - 1 != out + (from - pos) || h.bLen != |News(h.ops)| then None
      else
        match Patch(a, hunks[1..], to, h.bStart - 1 + h.bLen)
        case None => None
        case Some(rest) => Some(a[pos..from] + News(h.ops) + rest)
  }

  lemma {:induction false} EqualRunCopies(ops: Script)
    requires forall i :: 0 <= i < |ops| ==> ops[i].Equal?
    ensures Olds(ops) == News(ops)
  {
    if ops != [] { EqualRunCopies(ops[1..]); }
  }

  /** Cutting a script at i and j cuts the old side at the corresponding lines. */
  lemma {:induction false} SliceOlds(ops: Script, i: int, j: int)
    requires 0 <= i <= j <= |ops|
    ensures PosA(ops, i) <= PosA(ops, j) <= |Olds(ops)|
    ensures Olds(ops[i..j]) == Olds(ops)[PosA(ops, i)..PosA(ops, j)]
  {
    assert ops[..j] == ops[..i] + ops[i..j];
    assert ops == ops[..j] + ops[j..];
    OldsAppend(ops[..i], ops[i..j]);
    OldsAppend(ops[..j], ops[j..]);
  }

  lemma {:induction false} SliceNews(ops: Script, i: int, j: int)
    requires 0 <= i <= j <= |ops|
    ensures PosB(ops, j) == PosB(ops, i) + |News(ops[i..j])|
  {
    assert ops[..j] == ops[..i] + ops[i..j];
    NewsAppend(ops[..i], ops[i..j]);
  }

  lemma {:induction false} CutNews(ops: Script, p: int, s: int, e: int)
    requires 0 <= p <= s <= e <= |ops|
    ensures News(ops[p..]) == News(ops[p..s]) + News(ops[s..e]) + News(ops[e..])
  {
    assert ops[p..] == ops[p..s] + ops[s..];
    assert ops[s..] == ops[s..e] + ops[e..];
    NewsAppend(ops[p..s], ops[s..]);
    NewsAppend(ops[s..e], ops[e..]);
    Assoc(News(ops[p..s]), News(ops[s..e]), News(ops[e..]));
  }

  /** The gap between hunks is copied verbatim. */
  lemma {:induction false} GapIsCopied(ops: Script, p: int, s: int)
    requires EqualRun(ops, p, s)
    ensures PosA(ops, p) <= PosA(ops, s) <= |Olds(ops)|
    ensures Olds(ops)[PosA(ops, p)..PosA(ops, s)] == News(ops[p..s])
    ensures PosB(ops, s) - PosB(ops, p) == PosA(ops, s) - PosA(ops, p)
  {
    SliceOlds(ops, p, s);
    SliceNews(ops, p, s);
    EqualRunCopies(ops[p..s]);
  }

  /** Patching the old file with grouped hunks yields the new file. */
  lemma {:induction false} PatchGrouped(ops: Script, hunks: seq<Hunk>, spans: seq<(int, int)>, p: int)
    requires 0 <= p <= |ops| && Grouped(ops, hunks, spans, p)
    ensures PosA(ops, p) <= |Olds(ops)|
    ensures Patch(Olds(ops), hunks, PosA(ops, p), PosB(ops, p)) == Some(News(ops[p..]))
    decreases |hunks|
  {
    if hunks == [] {
      PatchNone(ops, p);
    } else {
      var (s, e) := spans[0];
      PatchGrouped(ops, hunks[1..], spans[1..], e);
      PatchFirst(ops, hunks, p, s, e);
    }
  }

  lemma {:induction false} PatchNone(ops: Script, p: int)
    requires EqualRun(ops, p, |ops|)
    ensures PosA(ops, p) <= |Olds(ops)|
    ensures Patch(Olds(ops), [], PosA(ops, p), PosB(ops, p)) == Some(News(ops[p..]))
  {
    GapIsCopied(ops, p, |ops|);
    assert ops[..|ops|] == ops && ops[p..|ops|] == ops[p..];
    assert Olds(ops)[PosA(ops, p)..] == Olds(ops)[PosA(ops, p)..PosA(ops, |ops|)];
  }

  lemma {:induction false} PatchFirst(ops: Script, hunks: seq<Hunk>, p: int, s: int, e: int)
    requires hunks != [] && HunkOf(ops, hunks[0], s, e) && EqualRun(ops, p, s)
    requires PosA(ops, e) <= |Olds(ops)|
    requires Patch(Olds(ops), hunks[1..], PosA(ops, e), PosB(ops, e)) == Some(News(ops[e..]))
    ensures PosA(ops, p) <= |Olds(ops)|
    ensures Patch(Olds(ops), hunks, PosA(ops, p), PosB(ops, p)) == Some(News(ops[p..]))
  {
    HunkPlace(ops, hunks[0], p, s, e);
    PatchUnfold(Olds(ops), hunks, PosA(ops, p), PosB(ops, p), PosA(ops, s), PosA(ops, e), PosB(ops, e), News(ops[e..]));
  }

  /** Where a hunk stands on both sides, and the new lines from the gap before it on. */
  lemma {:induction false} HunkPlace(ops: Script, h: Hunk, p: int, s: int, e: int)
    requires HunkOf(ops, h, s, e) && EqualRun(ops, p, s)
    ensures PosA(ops, p) <= PosA(ops, s) <= PosA(ops, e) <= |Olds(ops)|
    ensures h.aStart - 1 == PosA(ops, s) && h.aStart - 1 + h.aLen == PosA(ops, e)
    ensures h.bStart - 1 == PosB(ops, s) == PosB(ops, p) + (PosA(ops, s) - PosA(ops, p))
    ensures h.bStart - 1 + h.bLen == PosB(ops, e)
    ensures Olds(ops)[PosA(ops, s)..PosA(ops, e)] == Olds(h.ops)
    ensures News(ops[p..]) == Olds(ops)[PosA(ops, p)..PosA(ops, s)] + News(h.ops) + News(ops[e..])
  {
    GapIsCopied(ops, p, s);
    SliceOlds(ops, s, e);
    SliceNews(ops, s, e);
    CutNews(ops, p, s, e);
  }

  lemma {:induction false} PatchUnfold(a: seq<Line>, hunks: seq<Hunk>, pos: nat, out: nat,
                                       from: nat, to: nat, next: nat, rest: seq<Line>)
    requires hunks != [] && from == hunks[0].aStart - 1 && to == from + hunks[0].aLen
    requires pos <= from && to <= |a| && a[from..to] == Olds(hunks[0].ops)
    requires hunks[0].bStart - 1 == out + (from - pos) && hunks[0].bLen == |News(hunks[0].ops)|
    requires next == hunks[0].bStart - 1 + hunks[0].bLen && Patch(a, hunks[1..], to, next) == Some(rest)
    ensures Patch(a, hunks, pos, out) == Some(a[pos..from] + News(hunks[0].ops) + rest)
  {
  }

  /** The round trip: a script's hunks, applied to what it consumes, give what it produces. */
  lemma {:induction false} PatchRoundTrip(ops: Script, hunks: seq<Hunk>, spans: seq<(int, int)>, a: seq<Line>,
                                          b: seq<Line>)
    requires Transforms(ops, a, b) && Grouped(ops, hunks, spans, 0)
    ensures Patch(a, hunks, 0, 0) == Some(b)
  {
    PatchGrouped(ops, hunks, spans, 0);
    assert ops[0..] == ops && ops[..0] == [];
  }

  /** Every change lies in some hunk, and no two hunks overlap. */
  lemma {:induction false} ChangesCovered(ops: Script, hunks: seq<Hunk>, spans: seq<(int, int)>, p: int, i: int)
    requires 0 <= p <= i < |ops| && Grouped(ops, hunks, spans, p) && !ops[i].Equal?
    ensures exists h :: 0 <= h < |spans| && spans[h].0 <= i < spans[h].1
    decreases |hunks|
  {
    if hunks != [] && i >= spans[0].1 {
      ChangesCovered(ops, hunks[1..], spans[1..], spans[0].1, i);
      var h :| 0 <= h < |spans[1..]| && spans[1..][h].0 <= i < spans[1..][h].1;
      assert spans[h + 1] == spans[1..][h];
    } else if hunks != [] {
      assert spans[0].0 <= i;
    }
  }

  lemma {:induction false} SpansOrdered(ops: Script, hunks: seq<Hunk>, spans: seq<(int, int)>, p: int, h: int)
    requires 0 <= p <= |ops| && Grouped(ops, hunks, spans, p) && 0 <= h < |spans|
    ensures p <= spans[h].0 < spans[h].1 <= |ops|
    ensures HunkOf(ops, hunks[h], spans[h].0, spans[h].1)
    ensures forall g :: 0 <= g < h ==> spans[g].1 <= spans[h].0
    decreases |hunks|
  {
    if h > 0 {
      SpansOrdered(ops, hunks[1..], spans[1..], spans[0].1, h - 1);
      forall g | 0 <= g < h
        ensures spans[g].1 <= spans[h].0
      {
        if g > 0 { assert spans[1..][g - 1] == spans[g]; }
      }
    }
  }

  /** As `Grouped`, for the hunks emitted so far: they end exactly at op q. */
  ghost predicate GroupedTo(ops: Script, hunks: seq<Hunk>, spans: seq<(int, int)>, p: int, q: int)
    decreases |hunks|
  {
    && |spans| == |hunks|
    && if hunks == [] then p == q
       else
         && HunkOf(ops, hunks[0], spans[0].0, spans[0].1)
         && EqualRun(ops, p, spans[0].0)
         && GroupedTo(ops, hunks[1..], spans[1..], spans[0].1, q)
  }

  lemma {:induction false} AddHunk(ops: Script, hunks: seq<Hunk>, spans: seq<(int, int)>, p: int, q: int,
                                   h: Hunk, s: int, e: int)
    requires GroupedTo(ops, hunks, spans, p, q) && EqualRun(ops, q, s) && HunkOf(ops, h, s, e)
    ensures GroupedTo(ops, hunks + [h], spans + [(s, e)], p, e)
    decreases |hunks|
  {
    if hunks == [] {
      assert [h][1..] == [] && [(s, e)][1..] == [];
    } else {
      AddHunk(ops, hunks[1..], spans[1..], spans[0].1, q, h, s, e);
      Uncons(hunks, [h]);
      Uncons(spans, [(s, e)]);
    }
  }

  lemma {:induction false} CloseHunks(ops: Script, hunks: seq<Hunk>, spans: seq<(int, int)>, p: int, q: int)
    requires GroupedTo(ops, hunks, spans, p, q) && EqualRun(ops, q, |ops|)
    ensures Grouped(ops, hunks, spans, p)
    decreases |hunks|
  {
    if hunks != [] { CloseHunks(ops, hunks[1..], spans[1..], spans[0].1, q); }
  }

  /** Between two hunks the gap is wide enough that leading context cannot reach back. */
  ghost predicate WideGap(ops: Script, p: int, context: nat) {
    p == 0 || EqualRun(ops, p, |ops|) || EqualRun(ops, p, p + context + 1)
  }

  lemma {:induction false} NextPos(ops: Script, i: nat)
    requires i < |ops|
    ensures PosA(ops, i + 1) == PosA(ops, i) + |HeadOld(ops[i])|
    ensures PosB(ops, i + 1) == PosB(ops, i) + |HeadNew(ops[i])|
  {
    var t := ops[..i + 1];
    assert t[..|t| - 1] == ops[..i] && t[|t| - 1] == ops[i];
    SplitLast(t, ops[..i], ops[i]);
  }

  /** Count the old and the new lines of a slice, the way the header loops do. */
  method CountLines(ops: Script, s: nat, e: nat) returns (aLen: nat, bLen: nat)
    requires s <= e <= |ops|
    ensures aLen == |Olds(ops[s..e])| && PosA(ops, e) == PosA(ops, s) + aLen
    ensures bLen == |News(ops[s..e])| && PosB(ops, e) == PosB(ops, s) + bLen
  {
    aLen, bLen := 0, 0;
    for i := s to e
      invariant aLen == PosA(ops, i) - PosA(ops, s)
      invariant bLen == PosB(ops, i) - PosB(ops, s)
    {
      NextPos(ops, i);
      match ops[i]
      case Equal(_) => aLen, bLen := aLen + 1, bLen + 1;
      case Delete(_) => aLen := aLen + 1;
      case Insert(_) => bLen := bLen + 1;
    }
    SliceOlds(ops, s, e);
    SliceNews(ops, s, e);
  }

  method EndOfRun(ops: Script, j: nat) returns (end: nat)
    requires j <= |ops|
    ensures EqualRun(ops, j, end) && (end < |ops| ==> !ops[end].Equal?)
  {
    end := j;
    while end < |ops| && ops[end].Equal?
      invariant EqualRun(ops, j, end)
    {
      end := end + 1;
    }
  }

  /** No run of more than 2 * context Equal ops lies between the changes at f and l. */
  ghost predicate NoLongRun(ops: Script, f: int, l: int, context: nat) {
    forall t, u :: f <= t && u <= l && u - t > 2 * context ==> !EqualRun(ops, t, u)
  }

  lemma {:induction false} AbsorbRun(ops: Script, f: int, l: int, j: int, context: nat)
    requires NoLongRun(ops, f, l, context) && 0 <= f <= l <= j < |ops| && !ops[l].Equal?
    requires j - l - 1 <= 2 * context
    ensures NoLongRun(ops, f, j, context)
  {
    forall t, u | f <= t && u <= j && u - t > 2 * context
      ensures !EqualRun(ops, t, u)
    {
      if u > l {
        assert t <= l < u && !ops[l].Equal?;
      }
    }
  }

  /** [s, e) is the changes from f to l with exactly `context` Equal ops around them, less
      only at the ends of the script. */
  ghost predicate FramedBy(ops: Script, s: int, e: int, f: int, l: int, context: nat) {
    && 0 <= s <= f <= l < e <= |ops| && !ops[f].Equal? && !ops[l].Equal?
    && EqualRun(ops, s, f) && (f - s == context || (s == 0 && f - s < context))
    && EqualRun(ops, l + 1, e) && (e - l - 1 == context || (e == |ops| && e - l - 1 < context))
    && NoLongRun(ops, f, l, context)
  }

  ghost predicate Framed(ops: Script, span: (int, int), context: nat) {
    exists f, l :: FramedBy(ops, span.0, span.1, f, l, context)
  }

  /** Leading context: up to `context` Equal ops right before the change at i. */
  method LeadContext(ops: Script, i: nat, context: nat) returns (lead: nat)
    requires i < |ops|
    ensures lead <= i && lead <= context && EqualRun(ops, i - lead, i)
    ensures lead == context || lead == i || !ops[i - lead - 1].Equal?
  {
    lead := 0;
    while lead < context && i > lead
      invariant lead <= i && lead <= context && EqualRun(ops, i - lead, i)
    {
      if !ops[i - lead - 1].Equal? {
        break;
      }
      lead := lead + 1;
    }
  }

  /** The last change of the hunk that opens at i: Equal runs of at most 2 * context ops
      between changes are absorbed. */
  method LastChange(ops: Script, i: nat, context: nat) returns (last: nat)
    requires i < |ops| && !ops[i].Equal?
    ensures i <= last < |ops| && !ops[last].Equal?
    ensures EqualRun(ops, last + 1, |ops|) || EqualRun(ops, last + 1, last + 2 * context + 2)
    ensures NoLongRun(ops, i, last, context)
  {
    var j := i;
    last := i;
    while j < |ops|
      invariant i <= last <= j <= |ops| && last < |ops| && !ops[last].Equal?
      invariant j == last + 1 || (j < |ops| && !ops[j].Equal? && j <= last + 1 + 2 * context)
      invariant NoLongRun(ops, i, last, context)
      decreases |ops| - j
    {
      if ops[j].Equal? {
        var runEnd := EndOfRun(ops, j);
        if runEnd < |ops| && runEnd - j <= 2 * context {
          j := runEnd;
          continue;
        }
        break;
      } else {
        AbsorbRun(ops, i, last, j, context);
        last := j;
        j := j + 1;
      }
    }
  }

  /** Trailing context: up to `context` Equal ops past the last change. */
  method TrailEnd(ops: Script, last: nat, context: nat) returns (end: nat)
    requires last < |ops|
    ensures last < end <= last + 1 + context && EqualRun(ops, last + 1, end)
    ensures end == last + 1 + context || end == |ops| || !ops[end].Equal?
  {
    end := last + 1;
    var trail := 0;
    while trail < context && end < |ops| && ops[end].Equal?
      invariant end == last + 1 + trail && trail <= context && EqualRun(ops, last + 1, end)
    {
      end := end + 1;
      trail := trail + 1;
    }
  }

  lemma {:induction false} GapAfter(ops: Script, last: nat, end: nat, context: nat)
    requires last < end <= |ops|
    requires EqualRun(ops, last + 1, |ops|) || EqualRun(ops, last + 1, last + 2 * context + 2)
    requires end <= last + 1 + context && (end == last + 1 + context || end == |ops| || !ops[end].Equal?)
    ensures WideGap(ops, end, context)
    ensures end == last + 1 + context || end == |ops|
  {
  }

  lemma {:induction false} EqualRunPos(ops: Script, s: int, i: int)
    requires EqualRun(ops, s, i)
    ensures PosA(ops, i) == PosA(ops, s) + (i - s) && PosB(ops, i) == PosB(ops, s) + (i - s)
    decreases i - s
  {
    if s < i {
      EqualRunPos(ops, s, i - 1);
      NextPos(ops, i - 1);
    }
  }

  /** Leading context stops before the previous hunk's end. */
  lemma {:induction false} LeadStaysInGap(ops: Script, p: int, i: int, lead: int, context: nat)
    requires EqualRun(ops, p, i) && i < |ops| && !ops[i].Equal? && WideGap(ops, p, context)
    requires 0 <= lead <= i && lead <= context
    requires lead == context || lead == i || !ops[i - lead - 1].Equal?
    ensures p <= i - lead && (lead == context || lead == i)
  {
  }

  /** Build the hunk around the change at i. */
  method OpenHunk(ops: Script, i: nat, aPos: nat, bPos: nat, context: nat, ghost p: int)
    returns (h: Hunk, end: nat, ghost start: int)
    requires EqualRun(ops, p, i) && i < |ops| && !ops[i].Equal? && WideGap(ops, p, context)
    requires aPos == PosA(ops, i) && bPos == PosB(ops, i)
    ensures p <= start <= i < end && HunkOf(ops, h, start, end) && WideGap(ops, end, context)
    ensures EqualRun(ops, p, start) && Framed(ops, (start, end as int), context)
  {
    var lead := LeadContext(ops, i, context);
    LeadStaysInGap(ops, p, i, lead, context);
    EqualRunPos(ops, i - lead, i);
    var last := LastChange(ops, i, context);
    end := TrailEnd(ops, last, context);
    GapAfter(ops, last, end, context);
    start := i - lead;
    h := CutHunk(ops, i - lead, end, aPos - lead, bPos - lead);
    assert FramedBy(ops, start, end, i, last, context);
  }

  method CutHunk(ops: Script, start: nat, end: nat, aPos: nat, bPos: nat) returns (h: Hunk)
    requires start < end <= |ops| && aPos == PosA(ops, start) && bPos == PosB(ops, start)
    ensures HunkOf(ops, h, start, end)
  {
    var aLen, bLen := CountLines(ops, start, end);
    h := Hunk(aPos + 1, aLen, bPos + 1, bLen, ops[start..end]);
  }

  /** Skip Equal ops that are not part of a hunk. */
  method SkipEquals(ops: Script, p: nat, aPos0: nat, bPos0: nat) returns (i: nat, aPos: nat, bPos: nat)
    requires p <= |ops| && aPos0 == PosA(ops, p) && bPos0 == PosB(ops, p)
    ensures EqualRun(ops, p, i) && aPos == PosA(ops, i) && bPos == PosB(ops, i)
    ensures i < |ops| ==> !ops[i].Equal?
  {
    i, aPos, bPos := p, aPos0, bPos0;
    while i < |ops| && ops[i].Equal?
      invariant EqualRun(ops, p, i) && aPos == PosA(ops, i) && bPos == PosB(ops, i)
    {
      NextPos(ops, i);
      aPos, bPos, i := aPos + 1, bPos + 1, i + 1;
    }
  }

  /** The grouping loop. */
  method GroupHunks(ops: Script, context: nat) returns (hunks: seq<Hunk>, ghost spans: seq<(int, int)>)
    ensures Grouped(ops, hunks, spans, 0)
    ensures forall h :: 0 <= h < |spans| ==> Framed(ops, spans[h], context)
  {
    hunks, spans := [], [];
    var i, aPos, bPos := 0, 0, 0;
    while i < |ops|
      invariant i <= |ops| && aPos == PosA(ops, i) && bPos == PosB(ops, i)
      invariant GroupedTo(ops, hunks, spans, 0, i) && WideGap(ops, i, context)
      invariant forall h :: 0 <= h < |spans| ==> Framed(ops, spans[h], context)
    {
      ghost var p := i;
      i, aPos, bPos := SkipEquals(ops, i, aPos, bPos);
      if i >= |ops| {
        CloseHunks(ops, hunks, spans, 0, p);
        return;
      }
      var h, end, start := OpenHunk(ops, i, aPos, bPos, context, p);
      AddHunk(ops, hunks, spans, 0, p, h, start, end);
      hunks, spans := hunks + [h], spans + [(start, end as int)];
      var da, db := CountLines(ops, i, end);
      aPos, bPos, i := aPos + da, bPos + db, end;
    }
    CloseHunks(ops, hunks, spans, 0, i);
  }

  /** Grouping and then patching gives the new file back, for any script and any context. */
  method GroupAndPatch(ops: Script, context: nat) returns (hunks: seq<Hunk>)
    ensures Patch(Olds(ops), hunks, 0, 0) == Some(News(ops))
  {
    ghost var spans;
    hunks, spans := GroupHunks(ops, context);
    PatchRoundTrip(ops, hunks, spans, Olds(ops), News(ops));
  }
}
