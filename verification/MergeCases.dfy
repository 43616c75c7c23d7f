/** Merges read off the files: which of them never end, and which of them lose an edit. */
module MergeCases {
  // The diff delivers some shortest script; where files force that script, they force the merge.

  import opened Bytes
  import opened Lines
  import opened EditDistance
  import opened EditMaps
  import opened Merge3
  import Myers

  /** The first op of a script, and the script after it. */
  lemma {:induction false} FirstOp(ops: Script, a: seq<Line>, b: seq<Line>)
    requires Transforms(ops, a, b) && ops != []
    ensures ops[0].Equal? ==>
      && a != [] && b != [] && ops[0].line == a[0] == b[0]
      && Transforms(ops[1..], a[1..], b[1..]) && Kept(ops) == 1 + Kept(ops[1..])
    ensures ops[0].Delete? ==>
      && a != [] && ops[0].line == a[0]
      && Transforms(ops[1..], a[1..], b) && Kept(ops) == Kept(ops[1..])
    ensures ops[0].Insert? ==>
      && b != [] && ops[0].line == b[0]
      && Transforms(ops[1..], a, b[1..]) && Kept(ops) == Kept(ops[1..])
  {
    Rest(HeadOld(ops[0]), Olds(ops[1..]));
    Rest(HeadNew(ops[0]), News(ops[1..]));
  }

  lemma {:induction false} Rest(h: seq<Line>, t: seq<Line>)
    ensures (h + t)[|h|..] == t
    ensures |h| == 1 ==> (h + t)[0] == h[0]
  {
  }

  /** A script keeps no more lines than either file has, and fewer where a line has no partner. */
  lemma {:induction false} KeptBound(ops: Script, a: seq<Line>, b: seq<Line>)
    requires Transforms(ops, a, b)
    ensures Kept(ops) <= |a| && Kept(ops) <= |b|
    decreases |ops|
  {
    if ops != [] {
      FirstOp(ops, a, b);
      KeptBound(ops[1..], if ops[0].Insert? then a else a[1..], if ops[0].Delete? then b else b[1..]);
    }
  }

  lemma {:induction false} OldWithoutPartner(ops: Script, a: seq<Line>, b: seq<Line>, i: nat)
    requires Transforms(ops, a, b) && i < |a| && a[i] !in b
    ensures Kept(ops) < |a|
    decreases |ops|
  {
    FirstOp(ops, a, b);
    KeptBound(ops, a, b);
    if ops[0].Insert? {
      OldWithoutPartner(ops[1..], a, b[1..], i);
    } else if ops[0].Equal? {
      OldWithoutPartner(ops[1..], a[1..], b[1..], i - 1);
    } else {
      KeptBound(ops[1..], a[1..], b);
    }
  }

  lemma {:induction false} NewWithoutPartner(ops: Script, a: seq<Line>, b: seq<Line>, j: nat)
    requires Transforms(ops, a, b) && j < |b| && b[j] !in a
    ensures Kept(ops) < |b|
    decreases |ops|
  {
    FirstOp(ops, a, b);
    KeptBound(ops, a, b);
    if ops[0].Delete? {
      NewWithoutPartner(ops[1..], a[1..], b, j);
    } else if ops[0].Equal? {
      NewWithoutPartner(ops[1..], a[1..], b[1..], j - 1);
    } else {
      KeptBound(ops[1..], a, b[1..]);
    }
  }

  /** A shortest script keeps as many lines as any. */
  lemma {:induction false} ShortestKeepsMost(ops: Script, other: Script, a: seq<Line>, b: seq<Line>)
    requires Shortest(ops, a, b) && Transforms(other, a, b)
    ensures Kept(ops) >= Kept(other)
  {
    CostBalance(ops);
    CostBalance(other);
  }

  ghost predicate NoDeletes(ops: Script) { forall i :: 0 <= i < |ops| ==> !ops[i].Delete? }

  /** A script that keeps every old line deletes nothing. */
  lemma {:induction false} KeepsAllOld(ops: Script, a: seq<Line>, b: seq<Line>)
    requires Transforms(ops, a, b) && Kept(ops) == |a|
    ensures NoDeletes(ops)
    decreases |ops|
  {
    if ops != [] {
      FirstOp(ops, a, b);
      if ops[0].Delete? {
        KeptBound(ops[1..], a[1..], b);
      } else {
        KeepsAllOld(ops[1..], if ops[0].Insert? then a else a[1..], b[1..]);
        assert ops == [ops[0]] + ops[1..];
      }
    }
  }

  /** b has all lines of a, in order, and possibly more. */
  ghost predicate Grows(a: seq<Line>, b: seq<Line>) {
    a == [] || (b != [] && ((a[0] == b[0] && Grows(a[1..], b[1..])) || Grows(a, b[1..])))
  }

  lemma {:induction false} GrowScript(a: seq<Line>, b: seq<Line>) returns (ops: Script)
    requires Grows(a, b)
    ensures Transforms(ops, a, b) && Kept(ops) == |a|
    decreases |b|
  {
    if a == [] {
      InsertsScript(b);
      ops := Inserts(b);
      KeptBound(ops, a, b);
    } else if a[0] == b[0] && Grows(a[1..], b[1..]) {
      var rest := GrowScript(a[1..], b[1..]);
      ops := Put(Equal(a[0]), rest, a[1..], b[1..]);
      assert [a[0]] + a[1..] == a && [b[0]] + b[1..] == b;
    } else {
      var rest := GrowScript(a, b[1..]);
      ops := Put(Insert(b[0]), rest, a, b[1..]);
      assert [] + a == a && [b[0]] + b[1..] == b;
    }
  }

  lemma {:induction false} Put(op: DiffOp, rest: Script, a: seq<Line>, b: seq<Line>) returns (ops: Script)
    requires Transforms(rest, a, b)
    ensures ops == [op] + rest && Transforms(ops, HeadOld(op) + a, HeadNew(op) + b)
    ensures Kept(ops) == Kept(rest) + (if op.Equal? then 1 else 0)
  {
    ops := [op] + rest;
    assert ops[0] == op && ops[1..] == rest;
  }

  /** Between a file and one that only adds lines to it, a shortest script deletes nothing. */
  lemma {:induction false} GrowthDeletesNothing(ops: Script, a: seq<Line>, b: seq<Line>)
    requires Shortest(ops, a, b) && Grows(a, b)
    ensures NoDeletes(ops)
  {
    var other := GrowScript(a, b);
    ShortestKeepsMost(ops, other, a, b);
    KeptBound(ops, a, b);
    KeepsAllOld(ops, a, b);
  }

  lemma {:induction false} RunOfInserts(ops: Script, i: nat)
    requires i <= |ops| && NoDeletes(ops)
    ensures RunDel(ops, i) == 0
    decreases |ops| - i
  {
    if i < |ops| && !ops[i].Equal? { RunOfInserts(ops, i + 1); }
  }

  /** The edits of a script without deletes delete nothing. */
  lemma {:induction false} EditsDeleteNothing(ops: Script, i: nat, pos: nat, k: nat)
    requires i <= |ops| && NoDeletes(ops) && k in EditsOf(ops, i, pos)
    ensures EditsOf(ops, i, pos)[k].0 == 0
    decreases |ops| - i
  {
    if ops[i].Equal? {
      EditsDeleteNothing(ops, i + 1, pos + 1, k);
    } else {
      RunOfInserts(ops, i);
      if k != pos {
        EditsDeleteNothing(ops, RunEnd(ops, i), pos + RunDel(ops, i), k);
      }
    }
  }

  /** Edits that all stand at the end of the base append to it. */
  lemma {:induction false} ApplyAppends(base: seq<Line>, e: EditMap, i: nat)
    requires i <= |base| && forall k :: k in e ==> k >= |base|
    ensures Apply(base, e, i) == base[i..] + At(e, |base|).1
    decreases |base| - i
  {
    if i < |base| {
      ApplyAppends(base, e, i + 1);
      ApplyKeep(base, e, i);
      assert base[i..] == [base[i]] + base[i + 1..];
      Assoc([base[i]], base[i + 1..], At(e, |base|).1);
    }
  }

  /** A side that adds lines not only at the end has an edit before it. */
  lemma {:induction false} EarlyAddition(base: seq<Line>, lines: seq<Line>, e: EditMap) returns (k: nat)
    requires Apply(base, e, 0) == lines && !(base <= lines)
    ensures k in e && k < |base|
  {
    if forall k :: k in e ==> k >= |base| {
      AppendsOnly(base, lines, e);
    }
    k :| k in e && k < |base|;
  }

  lemma {:induction false} AppendsOnly(base: seq<Line>, lines: seq<Line>, e: EditMap)
    requires Apply(base, e, 0) == lines && forall k :: k in e ==> k >= |base|
    ensures base <= lines
  {
    ApplyAppends(base, e, 0);
    assert base[0..] == base;
  }

  ghost predicate DeletesNothing(e: EditMap) { forall k :: k in e ==> e[k].0 == 0 }

  lemma {:induction false} AdditionsOnly(base: seq<Line>, lines: seq<Line>, ops: Script)
    requires Shortest(ops, base, lines) && Grows(base, lines)
    ensures DeletesNothing(EditsOf(ops, 0, 0))
  {
    GrowthDeletesNothing(ops, base, lines);
    forall k | k in EditsOf(ops, 0, 0) ensures EditsOf(ops, 0, 0)[k].0 == 0 {
      EditsDeleteNothing(ops, 0, 0, k);
    }
  }

  /** The lines of a file. */
  ghost predicate LinesOf(file: seq<Byte>, lines: seq<Line>) { NoNewlines(lines) && Unlines(lines) == Ended(file) }

  /** The scripts and edits behind a merge of files whose lines are known. */
  lemma {:induction false} Behind(base: seq<Byte>, ours: seq<Byte>, theirs: seq<Byte>, m: Outcome,
                                  bl: seq<Line>, ol: seq<Line>, tl: seq<Line>)
    returns (o: EditMap, t: EditMap, os: Script, ts: Script)
    requires Merges(base, ours, theirs, m) && !OneChange(base, ours, theirs)
    requires LinesOf(base, bl) && LinesOf(ours, ol) && LinesOf(theirs, tl)
    requires |bl| + |ol| <= 50_000 && |bl| + |tl| <= 50_000
    ensures Shortest(os, bl, ol) && o == EditsOf(os, 0, 0) && Apply(bl, o, 0) == ol
    ensures Shortest(ts, bl, tl) && t == EditsOf(ts, 0, 0) && Apply(bl, t, 0) == tl
    ensures Inputs(bl, o, t) && Reconciles(bl, o, t, m)
  {
    var b, ov, tv;
    b, o, t, ov, tv :| MergedFrom(base, ours, theirs, m, b, o, t, ov, tv);
    UnlinesInjective(b, bl);
    UnlinesInjective(ov.lines, ol);
    UnlinesInjective(tv.lines, tl);
    os, ts := ov.script, tv.script;
  }

  /** When both sides only add lines, the merge never ends if one of them adds a line that is not
      at the end. */
  lemma {:induction false} AddersHang(base: seq<Byte>, ours: seq<Byte>, theirs: seq<Byte>, m: Outcome,
                                      bl: seq<Line>, ol: seq<Line>, tl: seq<Line>)
    requires Merges(base, ours, theirs, m) && !OneChange(base, ours, theirs)
    requires LinesOf(base, bl) && LinesOf(ours, ol) && LinesOf(theirs, tl)
    requires |bl| + |ol| <= 50_000 && |bl| + |tl| <= 50_000
    requires Grows(bl, ol) && Grows(bl, tl) && (!(bl <= ol) || !(bl <= tl))
    ensures m.Diverges?
  {
    var o, t, os, ts := Behind(base, ours, theirs, m, bl, ol, tl);
    AdditionsOnly(bl, ol, os);
    AdditionsOnly(bl, tl, ts);
    AdditionsHang(bl, ol, tl, o, t);
  }

  lemma {:induction false} AdditionsHang(base: seq<Line>, ours: seq<Line>, theirs: seq<Line>, o: EditMap, t: EditMap)
    requires Inputs(base, o, t) && DeletesNothing(o) && DeletesNothing(t)
    requires Apply(base, o, 0) == ours && Apply(base, t, 0) == theirs
    requires !(base <= ours) || !(base <= theirs)
    ensures Hangs(o, t, |base|, 0)
  {
    var k;
    if !(base <= ours) {
      k := EarlyAddition(base, ours, o);
    } else {
      k := EarlyAddition(base, theirs, t);
    }
    assert PureInsert(o, t, |base|, k);
    EndsIff(base, o, t);
  }

  lemma {:induction false} FileLines(lines: seq<Line>)
    requires NoNewlines(lines)
    ensures LinesOf(Unlines(lines), lines)
  {
    UnlinesEnded(lines);
  }

  lemma {:induction false} OtherLines(ls: seq<Line>, ms: seq<Line>)
    requires NoNewlines(ls) && NoNewlines(ms) && ls != ms
    ensures Unlines(ls) != Unlines(ms)
  {
    if Unlines(ls) == Unlines(ms) { UnlinesInjective(ls, ms); }
  }

  /** Four different lines, none holding a newline. */
  ghost predicate FourLines(w: Line, x: Line, y: Line, z: Line) {
    && NL !in w && NL !in x && NL !in y && NL !in z
    && w != x && w != y && w != z && x != y && x != z && y != z
  }

  /** A script that adds a line in front, and no delete: its edits at 0 only insert. */
  lemma {:induction false} InsertsInFront(ops: Script, w: Line, x: Line, y: Line)
    requires Shortest(ops, [x, y], [w, x, y]) && w != x
    ensures 0 in EditsOf(ops, 0, 0) && EditsOf(ops, 0, 0)[0].0 == 0 && EditsOf(ops, 0, 0)[0].1 != []
  {
    var a, b := [x, y], [w, x, y];
    assert b[1..] == a;
    GrowsItself(a);
    GrowthDeletesNothing(ops, a, b);
    FirstOp(ops, a, b);
    RunOfInserts(ops, 0);
    assert RunIns(ops, 0) == [w] + RunIns(ops, 1);
  }

  lemma {:induction false} GrowsItself(a: seq<Line>)
    ensures Grows(a, a)
  {
    if a != [] { GrowsItself(a[1..]); }
  }

  /** A script that changes the second of two lines starts by keeping the first. */
  lemma {:induction false} KeepsFirst(ops: Script, x: Line, y: Line, z: Line)
    requires Shortest(ops, [x, y], [x, z]) && x != y && x != z && y != z
    ensures 0 !in EditsOf(ops, 0, 0)
  {
    var a, b := [x, y], [x, z];
    KeepsOne(ops, x, y, z);
    FirstOp(ops, a, b);
    if ops[0].Delete? {
      OldWithoutPartner(ops[1..], a[1..], b, 0);
    } else if ops[0].Insert? {
      NewWithoutPartner(ops[1..], a, b[1..], 0);
    } else if 0 in EditsOf(ops, 0, 0) {
      EditsFrom(ops, 0, 0, 0);
    }
  }

  lemma {:induction false} KeepsOne(ops: Script, x: Line, y: Line, z: Line)
    requires Shortest(ops, [x, y], [x, z])
    ensures Kept(ops) >= 1
  {
    var p := Put(Insert(z), [], [], []);
    var q := Put(Delete(y), p, [], [z]);
    var other := Put(Equal(x), q, [y], [z]);
    assert [x] + [y] == [x, y] && [x] + [z] == [x, z];
    ShortestKeepsMost(ops, other, [x, y], [x, z]);
  }

  /** Three files made of different lists of lines. */
  lemma {:induction false} ThreeFiles(bl: seq<Line>, ol: seq<Line>, tl: seq<Line>)
    requires NoNewlines(bl) && NoNewlines(ol) && NoNewlines(tl) && bl != ol && bl != tl && ol != tl
    ensures LinesOf(Unlines(bl), bl) && LinesOf(Unlines(ol), ol) && LinesOf(Unlines(tl), tl)
    ensures !OneChange(Unlines(bl), Unlines(ol), Unlines(tl))
  {
    FileLines(bl);
    FileLines(ol);
    FileLines(tl);
    OtherLines(bl, ol);
    OtherLines(bl, tl);
    OtherLines(ol, tl);
  }

  /** An ordinary merge that never ends, whatever the lines: one side puts a line in front, the
      other changes a later line. */
  lemma {:induction false} FrontInsertHangs(base: seq<Byte>, ours: seq<Byte>, theirs: seq<Byte>,
                                            w: Line, x: Line, y: Line, z: Line, m: Outcome)
    requires FourLines(w, x, y, z) && Merges(base, ours, theirs, m)
    requires base == Unlines([x, y]) && ours == Unlines([w, x, y]) && theirs == Unlines([x, z])
    ensures m.Diverges?
  {
    var bl, ol, tl := [x, y], [w, x, y], [x, z];
    FrontFiles(w, x, y, z);
    var o, t, os, ts := Behind(base, ours, theirs, m, bl, ol, tl);
    HangsAtFront(w, x, y, z, os, ts);
  }

  lemma {:induction false} FrontFiles(w: Line, x: Line, y: Line, z: Line)
    requires FourLines(w, x, y, z)
    ensures LinesOf(Unlines([x, y]), [x, y]) && LinesOf(Unlines([w, x, y]), [w, x, y]) && LinesOf(Unlines([x, z]), [x, z])
    ensures !OneChange(Unlines([x, y]), Unlines([w, x, y]), Unlines([x, z]))
  {
    var bl, ol, tl := [x, y], [w, x, y], [x, z];
    assert |bl| == 2 && |ol| == 3 && |tl| == 2 && bl[1] != tl[1];
    ThreeFiles(bl, ol, tl);
  }

  lemma {:induction false} HangsAtFront(w: Line, x: Line, y: Line, z: Line, ours: Script, theirs: Script)
    requires FourLines(w, x, y, z)
    requires Shortest(ours, [x, y], [w, x, y]) && Shortest(theirs, [x, y], [x, z])
    ensures Hangs(EditsOf(ours, 0, 0), EditsOf(theirs, 0, 0), 2, 0)
  {
    InsertsInFront(ours, w, x, y);
    KeepsFirst(theirs, x, y, z);
  }

  lemma {:induction false} Nothing(ops: Script)
    requires Transforms(ops, [], [])
    ensures ops == []
  {
    if ops != [] { FirstOp(ops, [], []); }
  }

  lemma {:induction false} KeepsLast(ops: Script, x: Line)
    requires Transforms(ops, [x], [x]) && Kept(ops) >= 1
    ensures ops == [Equal(x)]
  {
    FirstOp(ops, [x], [x]);
    if ops[0].Equal? {
      Nothing(ops[1..]);
      assert ops == [ops[0]] + ops[1..];
    } else {
      KeptBound(ops[1..], if ops[0].Insert? then [x] else [], if ops[0].Delete? then [x] else []);
    }
  }

  /** Taking the first lines off, and keeping the last. */
  lemma {:induction false} DropsFirst(ops: Script, x: Line, a: seq<Line>, y: Line)
    requires Transforms(ops, [x] + a, [y]) && x != y && Kept(ops) >= 1
    ensures ops != [] && ops[0] == Delete(x) && Transforms(ops[1..], a, [y]) && Kept(ops[1..]) >= 1
  {
    FirstOp(ops, [x] + a, [y]);
    assert ([x] + a)[1..] == a;
    if ops[0].Insert? {
      KeptBound(ops[1..], [x] + a, []);
    }
  }

  lemma {:induction false} DropsOne(ops: Script, x: Line, y: Line)
    requires Transforms(ops, [x, y], [y]) && x != y && Kept(ops) >= 1
    ensures ops == [Delete(x), Equal(y)]
  {
    assert [x, y] == [x] + [y];
    DropsFirst(ops, x, [y], y);
    KeepsLast(ops[1..], y);
    assert ops == [ops[0]] + ops[1..];
  }

  lemma {:induction false} DropsTwo(ops: Script, x: Line, y: Line, z: Line)
    requires Transforms(ops, [x, y, z], [z]) && x != z && y != z && Kept(ops) >= 1
    ensures ops == [Delete(x), Delete(y), Equal(z)]
  {
    assert [x, y, z] == [x] + [y, z];
    DropsFirst(ops, x, [y, z], z);
    DropsOne(ops[1..], y, z);
    assert ops == [ops[0]] + ops[1..];
  }

  lemma {:induction false} AddsOne(ops: Script, w: Line, z: Line)
    requires Transforms(ops, [z], [w, z]) && w != z && Kept(ops) >= 1
    ensures ops == [Insert(w), Equal(z)]
  {
    FirstOp(ops, [z], [w, z]);
    if ops[0].Delete? {
      KeptBound(ops[1..], [], [w, z]);
    } else {
      KeepsLast(ops[1..], z);
      assert ops == [ops[0]] + ops[1..];
    }
  }

  lemma {:induction false} ChangesFirst(ops: Script, w: Line, y: Line, z: Line)
    requires Transforms(ops, [y, z], [w, z]) && w != y && w != z && y != z && Kept(ops) >= 1
    ensures ops == [Delete(y), Insert(w), Equal(z)] || ops == [Insert(w), Delete(y), Equal(z)]
  {
    FirstOp(ops, [y, z], [w, z]);
    assert [y, z][1..] == [z] && [w, z][1..] == [z];
    if ops[0].Delete? {
      AddsOne(ops[1..], w, z);
    } else {
      DropsOne(ops[1..], y, z);
    }
    assert ops == [ops[0]] + ops[1..];
  }

  /** A shortest script that changes the middle one of three lines keeps the other two. */
  lemma {:induction false} KeepsTwo(ops: Script, w: Line, x: Line, y: Line, z: Line)
    requires Shortest(ops, [x, y, z], [x, w, z])
    ensures Kept(ops) >= 2
  {
    var r := Put(Equal(z), [], [], []);
    var p := Put(Insert(w), r, [z], [z]);
    var q := Put(Delete(y), p, [z], [w, z]);
    var other := Put(Equal(x), q, [y, z], [w, z]);
    assert [x] + [y, z] == [x, y, z] && [x] + [w, z] == [x, w, z];
    ShortestKeepsMost(ops, other, [x, y, z], [x, w, z]);
  }

  lemma {:induction false} ChangesMiddle(ops: Script, w: Line, x: Line, y: Line, z: Line)
    requires Shortest(ops, [x, y, z], [x, w, z]) && FourLines(w, x, y, z)
    ensures ops == [Equal(x), Delete(y), Insert(w), Equal(z)] || ops == [Equal(x), Insert(w), Delete(y), Equal(z)]
  {
    var a, b := [x, y, z], [x, w, z];
    KeepsTwo(ops, w, x, y, z);
    FirstOp(ops, a, b);
    assert a[1..] == [y, z] && b[1..] == [w, z];
    if ops[0].Delete? {
      OldWithoutPartner(ops[1..], a[1..], b, 0);
    } else if ops[0].Insert? {
      NewWithoutPartner(ops[1..], a, b[1..], 0);
    } else {
      ChangesFirst(ops[1..], w, y, z);
      assert ops == [ops[0]] + ops[1..];
    }
  }

  lemma {:induction false} EditsOfChange(ops: Script, w: Line, x: Line, y: Line, z: Line)
    requires ops == [Equal(x), Delete(y), Insert(w), Equal(z)] || ops == [Equal(x), Insert(w), Delete(y), Equal(z)]
    ensures EditsOf(ops, 0, 0) == map[1 := (1, [w])]
  {
    assert RunEnd(ops, 3) == 3 && RunDel(ops, 3) == 0 && RunIns(ops, 3) == [];
    assert RunEnd(ops, 1) == 3 && RunDel(ops, 1) == 1 && RunIns(ops, 1) == [w];
    assert EditsOf(ops, 4, 3) == map[];
    assert EditsOf(ops, 3, 2) == map[];
    assert EditsOf(ops, 0, 0) == EditsOf(ops, 1, 1);
  }

  lemma {:induction false} EditsOfDrop(ops: Script, x: Line, y: Line, z: Line)
    requires ops == [Delete(x), Delete(y), Equal(z)]
    ensures EditsOf(ops, 0, 0) == map[0 := (2, [])]
  {
    assert RunEnd(ops, 2) == 2 && RunDel(ops, 2) == 0 && RunIns(ops, 2) == [];
    assert RunEnd(ops, 0) == 2 && RunDel(ops, 0) == 2 && RunIns(ops, 0) == [];
    assert EditsOf(ops, 3, 3) == map[];
  }

  lemma {:induction false} KeepsEnd(ops: Script, x: Line, y: Line, z: Line)
    requires Shortest(ops, [x, y, z], [z])
    ensures Kept(ops) >= 1
  {
    var p := Put(Equal(z), [], [], []);
    var q := Put(Delete(y), p, [z], [z]);
    var other := Put(Delete(x), q, [y, z], [z]);
    assert [x] + [y, z] == [x, y, z];
    ShortestKeepsMost(ops, other, [x, y, z], [z]);
  }

  /** The two sides' edits: a region of two lines taken out, and a change inside that region. */
  lemma {:induction false} OverlappingEdits(w: Line, x: Line, y: Line, z: Line, ours: Script, theirs: Script)
    requires FourLines(w, x, y, z)
    requires Shortest(ours, [x, y, z], [z]) && Shortest(theirs, [x, y, z], [x, w, z])
    ensures EditsOf(ours, 0, 0) == map[0 := (2, [])] && EditsOf(theirs, 0, 0) == map[1 := (1, [w])]
  {
    KeepsEnd(ours, x, y, z);
    DropsTwo(ours, x, y, z);
    EditsOfDrop(ours, x, y, z);
    ChangesMiddle(theirs, w, x, y, z);
    EditsOfChange(theirs, w, x, y, z);
  }

  lemma {:induction false} LostEditRun(base: seq<Line>, o: EditMap, t: EditMap, w: Line)
    requires |base| == 3 && o == map[0 := (2, [])] && t == map[1 := (1, [w])] && Inputs(base, o, t)
    ensures !Hangs(o, t, 3, 0) && !MeetsClash(o, t, 3, 0) && !NothingLost(o, t, 3)
  {
    assert !Hangs(o, t, 3, 3) && !Hangs(o, t, 3, 2);
    assert forall k: nat :: !Clash(o, t, k);
    assert 1 in t && 0 in o && 0 < 1 < 0 + o[0].0;
    LosesNothingIff(base, o, t);
  }

  lemma {:induction false} LostEditText(base: seq<Line>, m: EditMap, w: Line)
    requires |base| == 3 && m == map[0 := (2, []), 1 := (1, [w])]
    ensures Apply(base, m, 0) == [base[2]]
  {
    assert Apply(base, m, 3) == [];
    assert Apply(base, m, 2) == [base[2]];
  }

  lemma {:induction false} LostEditMerge(base: seq<Line>, o: EditMap, t: EditMap, w: Line, m: Outcome)
    requires |base| == 3 && o == map[0 := (2, [])] && t == map[1 := (1, [w])]
    requires Inputs(base, o, t) && Reconciles(base, o, t, m)
    ensures m.Merged? && m.clean && forall side :: Rendered(m.chunks, side) == [base[2]]
  {
    LostEditRun(base, o, t, w);
    forall side ensures Apply(base, Reconcile(base, o, t, side), 0) == [base[2]] {
      assert Reconcile(base, o, t, side) == map[0 := (2, []), 1 := (1, [w])];
      LostEditText(base, Reconcile(base, o, t, side), w);
    }
  }

  /** A merge that reports a clean result and drops an edit, whatever the lines: one side deletes
      two lines, the other changes the second of them. The new line w is nowhere in the result. */
  lemma {:induction false} OverlapLosesEdit(base: seq<Byte>, ours: seq<Byte>, theirs: seq<Byte>,
                                            w: Line, x: Line, y: Line, z: Line, m: Outcome)
    requires FourLines(w, x, y, z) && Merges(base, ours, theirs, m)
    requires base == Unlines([x, y, z]) && ours == Unlines([z]) && theirs == Unlines([x, w, z])
    ensures m.Merged? && m.clean && forall side :: Rendered(m.chunks, side) == [z]
  {
    var bl, ol, tl := [x, y, z], [z], [x, w, z];
    OverlapFiles(w, x, y, z);
    var o, t, os, ts := Behind(base, ours, theirs, m, bl, ol, tl);
    OverlapMerge(w, x, y, z, os, ts, bl, o, t, m);
  }

  lemma {:induction false} OverlapFiles(w: Line, x: Line, y: Line, z: Line)
    requires FourLines(w, x, y, z)
    ensures LinesOf(Unlines([x, y, z]), [x, y, z]) && LinesOf(Unlines([z]), [z]) && LinesOf(Unlines([x, w, z]), [x, w, z])
    ensures !OneChange(Unlines([x, y, z]), Unlines([z]), Unlines([x, w, z]))
  {
    var bl, ol, tl := [x, y, z], [z], [x, w, z];
    assert |bl| == 3 && |ol| == 1 && |tl| == 3 && bl[1] != tl[1];
    ThreeFiles(bl, ol, tl);
  }

  lemma {:induction false} OverlapMerge(w: Line, x: Line, y: Line, z: Line, ours: Script, theirs: Script,
                                        bl: seq<Line>, o: EditMap, t: EditMap, m: Outcome)
    requires FourLines(w, x, y, z) && bl == [x, y, z] && o == EditsOf(ours, 0, 0) && t == EditsOf(theirs, 0, 0)
    requires Shortest(ours, bl, [z]) && Shortest(theirs, bl, [x, w, z])
    requires Inputs(bl, o, t) && Reconciles(bl, o, t, m)
    ensures m.Merged? && m.clean && forall side :: Rendered(m.chunks, side) == [z]
  {
    OverlappingEdits(w, x, y, z, ours, theirs);
    LostEditMerge(bl, o, t, w, m);
  }

  // The same two merges on files of one-digit lines.

  function Digit(d: nat): Line
    requires d < 10
  {
    [48 + d]
  }

  lemma {:induction false} OneLine(a: Line)
    ensures Unlines([a]) == a + [NL]
  {
    assert [a][1..] == [];
  }

  lemma {:induction false} MoreLines(a: Line, ls: seq<Line>)
    ensures Unlines([a] + ls) == a + [NL] + Unlines(ls)
  {
    assert ([a] + ls)[1..] == ls;
  }

  lemma {:induction false} TwoLines(a: Line, b: Line)
    ensures Unlines([a, b]) == a + [NL] + (b + [NL])
  {
    assert [a, b] == [a] + [b];
    MoreLines(a, [b]);
    OneLine(b);
  }

  lemma {:induction false} ThreeLines(a: Line, b: Line, c: Line)
    ensures Unlines([a, b, c]) == a + [NL] + (b + [NL] + (c + [NL]))
  {
    assert [a, b, c] == [a] + [b, c];
    MoreLines(a, [b, c]);
    TwoLines(b, c);
  }

  lemma {:induction false} FourDigits()
    ensures FourLines(Digit(9), Digit(1), Digit(2), Digit(3))
  {
    assert Digit(9)[0] == 57 && Digit(1)[0] == 49 && Digit(2)[0] == 50 && Digit(3)[0] == 51;
  }

  lemma {:induction false} OneDigit(a: nat)
    requires a < 10
    ensures Unlines([Digit(a)]) == [48 + a, NL]
  {
    OneLine(Digit(a));
  }

  lemma {:induction false} TwoDigits(a: nat, b: nat)
    requires a < 10 && b < 10
    ensures Unlines([Digit(a), Digit(b)]) == [48 + a, NL, 48 + b, NL]
  {
    TwoLines(Digit(a), Digit(b));
  }

  lemma {:induction false} ThreeDigits(a: nat, b: nat, c: nat)
    requires a < 10 && b < 10 && c < 10
    ensures Unlines([Digit(a), Digit(b), Digit(c)]) == [48 + a, NL, 48 + b, NL, 48 + c, NL]
  {
    ThreeLines(Digit(a), Digit(b), Digit(c));
  }

  /** The files 1 2, 9 1 2 and 1 3, a line each: the merge never ends. */
  lemma {:induction false} ExampleHang(m: Outcome)
    requires Merges([49, NL, 50, NL], [57, NL, 49, NL, 50, NL], [49, NL, 51, NL], m)
    ensures m.Diverges?
  {
    FourDigits();
    TwoDigits(1, 2);
    ThreeDigits(9, 1, 2);
    TwoDigits(1, 3);
    FrontInsertHangs([49, NL, 50, NL], [57, NL, 49, NL, 50, NL], [49, NL, 51, NL],
                     Digit(9), Digit(1), Digit(2), Digit(3), m);
  }

  /** The files 1 2 3, 3 and 1 9 3: the merge is clean, is the file 3, and has lost the 9. */
  lemma {:induction false} ExampleLostEdit(m: Outcome)
    requires Merges([49, NL, 50, NL, 51, NL], [51, NL], [49, NL, 57, NL, 51, NL], m)
    ensures m.Merged? && m.clean && forall side :: Unlines(Rendered(m.chunks, side)) == [51, NL]
  {
    FourDigits();
    ThreeDigits(1, 2, 3);
    ThreeDigits(1, 9, 3);
    OneDigit(3);
    OverlapLosesEdit([49, NL, 50, NL, 51, NL], [51, NL], [49, NL, 57, NL, 51, NL],
                     Digit(9), Digit(1), Digit(2), Digit(3), m);
  }
}
