/** Edit maps: an edit script summed up by base position, for the merge. */
module EditMaps {
  import opened Bytes
  import opened EditDistance

  /** At a base position: how many lines are deleted there, and what is put in their place. */
  type EditMap = map<nat, (nat, seq<Line>)>

  function At(e: EditMap, i: nat): (nat, seq<Line>) {
    if i in e then e[i] else (0, [])
  }

  /** What a file becomes when every edit of the map is carried out, from position i on. */
  function Apply(base: seq<Line>, e: EditMap, i: nat): (out: seq<Line>)
    decreases |base| - i
  {
    var (del, ins) := At(e, i);
    if i >= |base| then ins
    else if del > 0 then ins + Apply(base, e, i + del)
    else ins + [base[i]] + Apply(base, e, i + 1)
  }

  /** Edits lie inside the base, say something, and are separated by a kept line. */
  ghost predicate WellFormed(e: EditMap, n: nat) {
    && (forall k :: k in e ==> Sound(e, n, k))
    && (forall k, l :: k in e && l in e && k < l ==> Apart(e, k, l))
  }

  predicate Sound(e: EditMap, n: nat, k: nat)
    requires k in e
  {
    k + e[k].0 <= n && (e[k].0 > 0 || e[k].1 != [])
  }

  predicate Apart(e: EditMap, k: nat, l: nat)
    requires k in e
  {
    k + e[k].0 < l
  }

  /** The end of the run of changes that starts at op i. */
  function RunEnd(ops: Script, i: nat): (e: nat)
    requires i <= |ops|
    ensures i <= e <= |ops| && (e == |ops| || ops[e].Equal?)
    decreases |ops| - i
  {
    if i < |ops| && !ops[i].Equal? then RunEnd(ops, i + 1) else i
  }

  /** How many lines that run deletes. */
  function RunDel(ops: Script, i: nat): nat
    requires i <= |ops|
    decreases |ops| - i
  {
    if i < |ops| && !ops[i].Equal? then (if ops[i].Delete? then 1 else 0) + RunDel(ops, i + 1) else 0
  }

  /** The lines that run inserts. */
  function RunIns(ops: Script, i: nat): seq<Line>
    requires i <= |ops|
    decreases |ops| - i
  {
    if i < |ops| && !ops[i].Equal? then (if ops[i].Insert? then [ops[i].line] else []) + RunIns(ops, i + 1) else []
  }

  /** The edits of ops[i..], whose first op stands at base position pos. */
  function EditsOf(ops: Script, i: nat, pos: nat): EditMap
    requires i <= |ops|
    decreases |ops| - i
  {
    if i == |ops| then map[]
    else if ops[i].Equal? then EditsOf(ops, i + 1, pos + 1)
    else EditsOf(ops, RunEnd(ops, i), pos + RunDel(ops, i))[pos := (RunDel(ops, i), RunIns(ops, i))]
  }

  /** Only edits at or after i matter from i on. */
  lemma {:induction false} ApplyLocal(base: seq<Line>, e: EditMap, f: EditMap, i: nat)
    requires forall k :: k >= i ==> At(e, k) == At(f, k)
    ensures Apply(base, e, i) == Apply(base, f, i)
    decreases |base| - i
  {
    if i < |base| {
      if At(e, i).0 > 0 {
        ApplyLocal(base, e, f, i + At(e, i).0);
      } else {
        ApplyLocal(base, e, f, i + 1);
      }
    }
  }

  lemma {:induction false} CutOp(ops: Script, i: nat)
    requires i < |ops|
    ensures Olds(ops[i..]) == HeadOld(ops[i]) + Olds(ops[i + 1..])
    ensures News(ops[i..]) == HeadNew(ops[i]) + News(ops[i + 1..])
  {
    assert ops[i..][1..] == ops[i + 1..];
  }

  /** A run takes `RunDel` lines out of the old file and puts `RunIns` into the new one. */
  lemma {:induction false} RunLines(ops: Script, i: nat) returns (h: seq<Line>)
    requires i <= |ops|
    ensures |h| == RunDel(ops, i) && Olds(ops[i..]) == h + Olds(ops[RunEnd(ops, i)..])
    ensures News(ops[i..]) == RunIns(ops, i) + News(ops[RunEnd(ops, i)..])
    decreases |ops| - i
  {
    h := [];
    if i < |ops| && !ops[i].Equal? {
      var t := RunLines(ops, i + 1);
      var e := RunEnd(ops, i + 1);
      CutOp(ops, i);
      h := HeadOld(ops[i]) + t;
      Assoc(HeadOld(ops[i]), t, Olds(ops[e..]));
      Assoc(HeadNew(ops[i]), RunIns(ops, i + 1), News(ops[e..]));
    }
  }

  lemma {:induction false} KeepLength(ops: Script, i: nat)
    requires i < |ops| && ops[i].Equal?
    ensures |Olds(ops[i..])| == 1 + |Olds(ops[i + 1..])|
  {
    CutOp(ops, i);
  }

  lemma {:induction false} RunLength(ops: Script, i: nat)
    requires i <= |ops|
    ensures |Olds(ops[i..])| == RunDel(ops, i) + |Olds(ops[RunEnd(ops, i)..])|
  {
    var h := RunLines(ops, i);
  }

  lemma {:induction false} SuffixTail(base: seq<Line>, pos: nat, h: seq<Line>, t: seq<Line>)
    requires pos <= |base| && base[pos..] == h + t
    ensures pos + |h| <= |base| && base[pos + |h|..] == t
    ensures h != [] ==> base[pos] == h[0]
  {
    assert base[pos..][|h|..] == t;
    if h != [] {
      assert base[pos..][0] == h[0];
    }
  }

  /** A run that stands at pos stands inside the base, and so does what follows it. */
  lemma {:induction false} RunPlace(base: seq<Line>, ops: Script, i: nat, pos: nat)
    requires i <= |ops| && pos <= |base| && Olds(ops[i..]) == base[pos..]
    ensures pos + RunDel(ops, i) <= |base| && Olds(ops[RunEnd(ops, i)..]) == base[pos + RunDel(ops, i)..]
    ensures News(ops[i..]) == RunIns(ops, i) + News(ops[RunEnd(ops, i)..])
  {
    var h := RunLines(ops, i);
    SuffixTail(base, pos, h, Olds(ops[RunEnd(ops, i)..]));
  }

  /** No edit of a script lies before its start, nor on a line it starts by keeping. */
  lemma {:induction false} EditsFrom(ops: Script, i: nat, pos: nat, k: nat)
    requires i <= |ops| && k in EditsOf(ops, i, pos)
    ensures k >= pos && (i < |ops| && ops[i].Equal? ==> k > pos)
    decreases |ops| - i
  {
    if ops[i].Equal? {
      EditsFrom(ops, i + 1, pos + 1, k);
    } else if k != pos {
      EditsFrom(ops, RunEnd(ops, i), pos + RunDel(ops, i), k);
    }
  }

  /** The edits after a run lie behind it. */
  lemma {:induction false} EditsAfter(ops: Script, e: nat, pos: nat, k: nat)
    requires e <= |ops| && (e == |ops| || ops[e].Equal?) && k in EditsOf(ops, e, pos)
    ensures k > pos
  {
    EditsFrom(ops, e, pos, k);
  }

  /** Replaying a script's edit map over the old file gives the new file. */
  lemma {:induction false} ApplyEditsOf(base: seq<Line>, ops: Script, i: nat, pos: nat)
    requires i <= |ops| && pos <= |base| && Olds(ops[i..]) == base[pos..]
    ensures Apply(base, EditsOf(ops, i, pos), pos) == News(ops[i..])
    decreases |ops| - i
  {
    if i == |ops| {
    } else if ops[i].Equal? {
      CutOp(ops, i);
      SuffixTail(base, pos, [ops[i].line], Olds(ops[i + 1..]));
      ApplyEditsOf(base, ops, i + 1, pos + 1);
      ApplyKept(base, ops, i, pos);
    } else {
      RunPlace(base, ops, i, pos);
      ApplyEditsOf(base, ops, RunEnd(ops, i), pos + RunDel(ops, i));
      ApplyRun(base, ops, i, pos);
    }
  }

  lemma {:induction false} ApplyKept(base: seq<Line>, ops: Script, i: nat, pos: nat)
    requires i < |ops| && ops[i].Equal? && pos < |base|
    ensures Apply(base, EditsOf(ops, i, pos), pos) == [base[pos]] + Apply(base, EditsOf(ops, i + 1, pos + 1), pos + 1)
  {
    if pos in EditsOf(ops, i, pos) {
      EditsFrom(ops, i, pos, pos);
    }
    ApplyKeep(base, EditsOf(ops, i, pos), pos);
  }

  lemma {:induction false} ApplyKeep(base: seq<Line>, m: EditMap, pos: nat)
    requires pos < |base| && pos !in m
    ensures Apply(base, m, pos) == [base[pos]] + Apply(base, m, pos + 1)
  {
    assert [] + [base[pos]] == [base[pos]];
  }

  /** Adding a region in front of the edits after it prepends its lines. */
  lemma {:induction false} ApplyRun(base: seq<Line>, ops: Script, i: nat, pos: nat)
    requires i < |ops| && !ops[i].Equal? && pos + RunDel(ops, i) <= |base|
    ensures var p := pos + RunDel(ops, i);
      Apply(base, EditsOf(ops, i, pos), pos) == RunIns(ops, i) + Apply(base, EditsOf(ops, RunEnd(ops, i), p), p)
  {
    var e, del, ins := RunEnd(ops, i), RunDel(ops, i), RunIns(ops, i);
    var rest := EditsOf(ops, e, pos + del);
    if pos in rest {
      EditsAfter(ops, e, pos + del, pos);
    }
    if pos + del in rest {
      EditsAfter(ops, e, pos + del, pos + del);
    }
    AddRegion(base, rest, pos, del, ins);
  }

  lemma {:induction false} AddRegion(base: seq<Line>, rest: EditMap, pos: nat, del: nat, ins: seq<Line>)
    requires pos + del <= |base| && pos !in rest && pos + del !in rest
    ensures Apply(base, rest[pos := (del, ins)], pos) == ins + Apply(base, rest, pos + del)
  {
    var m := rest[pos := (del, ins)];
    if pos == |base| {
      assert ins + [] == ins;
    } else if del > 0 {
      ApplyLocal(base, m, rest, pos + del);
    } else {
      ApplyLocal(base, m, rest, pos + 1);
      ApplyKeep(base, rest, pos);
      Assoc(ins, [base[pos]], Apply(base, rest, pos + 1));
    }
  }

  /** A script's edit map is well formed. */
  lemma {:induction false} EditsWellFormed(ops: Script, i: nat, pos: nat, n: nat)
    requires i <= |ops| && pos + |Olds(ops[i..])| <= n
    ensures WellFormed(EditsOf(ops, i, pos), n)
  {
    var m := EditsOf(ops, i, pos);
    forall k | k in m ensures Sound(m, n, k) {
      EditsSound(ops, i, pos, n, k);
    }
    forall k, l | k in m && l in m && k < l ensures Apart(m, k, l) {
      EditsApart(ops, i, pos, k, l);
    }
  }

  lemma {:induction false} EditsSound(ops: Script, i: nat, pos: nat, n: nat, k: nat)
    requires i <= |ops| && pos + |Olds(ops[i..])| <= n && k in EditsOf(ops, i, pos)
    ensures Sound(EditsOf(ops, i, pos), n, k)
    decreases |ops| - i
  {
    if ops[i].Equal? {
      KeepLength(ops, i);
      EditsSound(ops, i + 1, pos + 1, n, k);
    } else {
      RunLength(ops, i);
      if k != pos {
        EditsSound(ops, RunEnd(ops, i), pos + RunDel(ops, i), n, k);
      }
    }
  }

  lemma {:induction false} EditsApart(ops: Script, i: nat, pos: nat, k: nat, l: nat)
    requires i <= |ops| && k in EditsOf(ops, i, pos) && l in EditsOf(ops, i, pos) && k < l
    ensures Apart(EditsOf(ops, i, pos), k, l)
    decreases |ops| - i
  {
    EditsFrom(ops, i, pos, k);
    if ops[i].Equal? {
      EditsApart(ops, i + 1, pos + 1, k, l);
    } else if k == pos {
      EditsAfter(ops, RunEnd(ops, i), pos + RunDel(ops, i), l);
    } else {
      EditsApart(ops, RunEnd(ops, i), pos + RunDel(ops, i), k, l);
    }
  }

  lemma {:induction false} MapMove(out: EditMap, rest: EditMap, k: nat, v: (nat, seq<Line>))
    requires k !in rest
    ensures out[k := v] + rest == out + rest[k := v]
  {
  }

  /** The first run of a script's edits, moved to the edits already collected. */
  lemma {:induction false} MoveRun(ops: Script, i: nat, pos: nat, out: EditMap)
    requires i < |ops| && !ops[i].Equal?
    ensures out[pos := (RunDel(ops, i), RunIns(ops, i))] + EditsOf(ops, RunEnd(ops, i), pos + RunDel(ops, i))
      == out + EditsOf(ops, i, pos)
  {
    var rest := EditsOf(ops, RunEnd(ops, i), pos + RunDel(ops, i));
    if pos in rest {
      EditsAfter(ops, RunEnd(ops, i), pos + RunDel(ops, i), pos);
    }
    MapMove(out, rest, pos, (RunDel(ops, i), RunIns(ops, i)));
  }

  /** The walk over a script that builds its edit map, run by run. */
  method WalkEdits(ops: Script) returns (out: EditMap)
    ensures out == EditsOf(ops, 0, 0)
  {
    out := map[];
    var basePos, i := 0, 0;
    while i < |ops|
      invariant i <= |ops|
      invariant out + EditsOf(ops, i, basePos) == EditsOf(ops, 0, 0)
    {
      if ops[i].Equal? {
        basePos, i := basePos + 1, i + 1;
      } else {
        MoveRun(ops, i, basePos, out);
        var start := basePos;
        var del, ins;
        i, del, ins := WalkRun(ops, i);
        basePos := start + del;
        out := out[start := (del, ins)];
      }
    }
    assert out + map[] == out;
  }

  method WalkRun(ops: Script, from: nat) returns (i: nat, del: nat, ins: seq<Line>)
    requires from < |ops| && !ops[from].Equal?
    ensures i == RunEnd(ops, from) && i > from && del == RunDel(ops, from) && ins == RunIns(ops, from)
  {
    i, del, ins := from, 0, [];
    while i < |ops|
      invariant from <= i <= |ops| && (i == from ==> i < |ops| && !ops[i].Equal?)
      invariant RunEnd(ops, i) == RunEnd(ops, from) && del + RunDel(ops, i) == RunDel(ops, from)
      invariant ins + RunIns(ops, i) == RunIns(ops, from)
    {
      if ops[i].Equal? {
        break;
      }
      if ops[i].Delete? {
        assert [] + RunIns(ops, i + 1) == RunIns(ops, i + 1);
        del := del + 1;
      } else {
        Assoc(ins, [ops[i].line], RunIns(ops, i + 1));
        ins := ins + [ops[i].line];
      }
      i := i + 1;
    }
    assert ins + [] == ins;
  }

  // The edits of a script are its runs of changes.

  /** Ops i to e are a run of changes that cannot be made longer. */
  predicate RunAt(ops: Script, i: nat, e: nat) {
    && i < e <= |ops| && (forall j :: i <= j < e ==> !ops[j].Equal?)
    && (i == 0 || ops[i - 1].Equal?) && (e == |ops| || ops[e].Equal?)
  }

  /** How many lines of the old file come before op i. */
  function Before(ops: Script, i: nat): nat
    requires i <= |ops|
  {
    |Olds(ops[..i])|
  }

  /** No run is cut at p. */
  predicate Uncut(ops: Script, p: nat) {
    p <= |ops| && (p == 0 || p == |ops| || ops[p - 1].Equal? || ops[p].Equal?)
  }

  lemma {:induction false} RunOpen(ops: Script, i: nat)
    requires i < |ops| && !ops[i].Equal?
    ensures i < RunEnd(ops, i) && forall j :: i <= j < RunEnd(ops, i) ==> !ops[j].Equal?
    decreases |ops| - i
  {
    if i + 1 < |ops| && !ops[i + 1].Equal? {
      RunOpen(ops, i + 1);
    }
  }

  lemma {:induction false} BeforeSplit(ops: Script, i: nat, e: nat)
    requires i <= e <= |ops|
    ensures Before(ops, e) == Before(ops, i) + |Olds(ops[i..e])|
  {
    assert ops[..e] == ops[..i] + ops[i..e];
    OldsAppend(ops[..i], ops[i..e]);
  }

  lemma {:induction false} BeforeKept(ops: Script, i: nat)
    requires i < |ops| && ops[i].Equal?
    ensures Before(ops, i + 1) == Before(ops, i) + 1
  {
    BeforeSplit(ops, i, i + 1);
    assert ops[i..i + 1] == [ops[i]] && [ops[i]][1..] == [];
  }

  lemma {:induction false} SameFront(a: seq<Line>, b: seq<Line>, c: seq<Line>)
    requires a + c == b + c
    ensures a == b
  {
    assert |a + c| == |a| + |c| && |b + c| == |b| + |c|;
    assert (a + c)[..|a|] == a && (b + c)[..|b|] == b;
  }

  /** A run deletes the old lines of its ops and inserts their new ones. */
  lemma {:induction false} RunSlices(ops: Script, i: nat)
    requires i <= |ops|
    ensures RunDel(ops, i) == |Olds(ops[i..RunEnd(ops, i)])| && RunIns(ops, i) == News(ops[i..RunEnd(ops, i)])
  {
    var e := RunEnd(ops, i);
    var h := RunLines(ops, i);
    assert ops[i..] == ops[i..e] + ops[e..];
    OldsAppend(ops[i..e], ops[e..]);
    NewsAppend(ops[i..e], ops[e..]);
    SameFront(h, Olds(ops[i..e]), Olds(ops[e..]));
    SameFront(RunIns(ops, i), News(ops[i..e]), News(ops[e..]));
  }

  /** The value of the edits behind a run is not hidden by the run's own. */
  lemma {:induction false} PastRun(ops: Script, p: nat, k: nat)
    requires p < |ops| && !ops[p].Equal?
    requires var pos := Before(ops, p); k in EditsOf(ops, RunEnd(ops, p), pos + RunDel(ops, p))
    ensures var pos := Before(ops, p);
      && k in EditsOf(ops, p, pos)
      && EditsOf(ops, p, pos)[k] == EditsOf(ops, RunEnd(ops, p), pos + RunDel(ops, p))[k]
  {
    EditsAfter(ops, RunEnd(ops, p), Before(ops, p) + RunDel(ops, p), k);
  }

  lemma {:induction false} NextRun(ops: Script, p: nat, i: nat, e: nat)
    requires p < |ops| && !ops[p].Equal? && Uncut(ops, p) && RunAt(ops, i, e) && p <= i
    ensures if i == p then e == RunEnd(ops, p) else RunEnd(ops, p) <= i
  {
    RunOpen(ops, p);
  }

  /** Each run is an edit, at its place in the old file: what it deletes there, and what it inserts. */
  lemma {:induction false} RunIsEdit(ops: Script, p: nat, i: nat, e: nat)
    requires Uncut(ops, p) && RunAt(ops, i, e) && p <= i
    ensures var m, k := EditsOf(ops, p, Before(ops, p)), Before(ops, i);
      k in m && m[k] == (|Olds(ops[i..e])|, News(ops[i..e]))
    decreases |ops| - p
  {
    if ops[p].Equal? {
      BeforeKept(ops, p);
      RunIsEdit(ops, p + 1, i, e);
    } else {
      NextRun(ops, p, i, e);
      RunSlices(ops, p);
      if i != p {
        var next := RunEnd(ops, p);
        RunOpen(ops, p);
        BeforeSplit(ops, p, next);
        RunIsEdit(ops, next, i, e);
        PastRun(ops, p, Before(ops, i));
      }
    }
  }

  /** And each edit is a run. */
  lemma {:induction false} EditIsRun(ops: Script, p: nat, k: nat) returns (i: nat, e: nat)
    requires Uncut(ops, p) && k in EditsOf(ops, p, Before(ops, p))
    ensures RunAt(ops, i, e) && p <= i && k == Before(ops, i)
    decreases |ops| - p
  {
    if ops[p].Equal? {
      BeforeKept(ops, p);
      i, e := EditIsRun(ops, p + 1, k);
    } else if k == Before(ops, p) {
      RunOpen(ops, p);
      i, e := p, RunEnd(ops, p);
    } else {
      var next := RunEnd(ops, p);
      RunOpen(ops, p);
      RunSlices(ops, p);
      BeforeSplit(ops, p, next);
      i, e := EditIsRun(ops, next, k);
    }
  }

  ghost predicate RunPlaced(ops: Script, i: nat, e: nat, k: nat) { RunAt(ops, i, e) && Before(ops, i) == k }

  /** The edits of a script are exactly its longest runs of changes, each at its place in the old
      file, with the number of old lines it takes out and the new lines it puts in. */
  lemma {:induction false} EditsAreRuns(ops: Script, k: nat)
    ensures k in EditsOf(ops, 0, 0) <==> exists i: nat, e: nat :: RunPlaced(ops, i, e, k)
    ensures forall i: nat, e: nat :: RunPlaced(ops, i, e, k) ==>
      k in EditsOf(ops, 0, 0) && EditsOf(ops, 0, 0)[k] == (|Olds(ops[i..e])|, News(ops[i..e]))
  {
    assert ops[..0] == [];
    if k in EditsOf(ops, 0, 0) {
      var i, e := EditIsRun(ops, 0, k);
      assert RunPlaced(ops, i, e, k);
    }
    forall i: nat, e: nat | RunPlaced(ops, i, e, k)
      ensures k in EditsOf(ops, 0, 0) && EditsOf(ops, 0, 0)[k] == (|Olds(ops[i..e])|, News(ops[i..e]))
    {
      RunIsEdit(ops, 0, i, e);
    }
  }
}
