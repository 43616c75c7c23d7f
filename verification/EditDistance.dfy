/** Edit scripts and their shortest length. */
module EditDistance {
  // `Dist` is the length of a shortest insert/delete path to the point (x, y) of the edit graph
  // of `a` and `b`. The plane is extended past the two ends, where no diagonal exists, because
  // Myers' search may step there.

  import opened Bytes

  datatype DiffOp = Equal(line: Line) | Delete(line: Line) | Insert(line: Line)

  type Script = seq<DiffOp>

  /** What one op consumes and what it produces. */
  function HeadOld(op: DiffOp): seq<Line> { if op.Insert? then [] else [op.line] }

  function HeadNew(op: DiffOp): seq<Line> { if op.Delete? then [] else [op.line] }

  /** The lines a script consumes: the script without its inserts. */
  function Olds(ops: Script): seq<Line> {
    if ops == [] then []
    else HeadOld(ops[0]) + Olds(ops[1..])
  }

  /** The lines a script produces: the script without its deletes. */
  function News(ops: Script): seq<Line> {
    if ops == [] then []
    else HeadNew(ops[0]) + News(ops[1..])
  }

  /** The number of inserts and deletes in a script. */
  function Cost(ops: Script): nat {
    if ops == [] then 0
    else (if ops[0].Equal? then 0 else 1) + Cost(ops[1..])
  }

  ghost predicate Transforms(ops: Script, a: seq<Line>, b: seq<Line>) {
    Olds(ops) == a && News(ops) == b
  }

  lemma {:induction false} OldsAppend(s: Script, t: Script)
    ensures Olds(s + t) == Olds(s) + Olds(t)
  {
    if s == [] {
      assert s + t == t;
    } else {
      Uncons(s, t);
      OldsAppend(s[1..], t);
      Assoc(HeadOld(s[0]), Olds(s[1..]), Olds(t));
    }
  }

  lemma {:induction false} NewsAppend(s: Script, t: Script)
    ensures News(s + t) == News(s) + News(t)
  {
    if s == [] {
      assert s + t == t;
    } else {
      Uncons(s, t);
      NewsAppend(s[1..], t);
      Assoc(HeadNew(s[0]), News(s[1..]), News(t));
    }
  }

  lemma {:induction false} CostAppend(s: Script, t: Script)
    ensures Cost(s + t) == Cost(s) + Cost(t)
  {
    if s == [] {
      assert s + t == t;
    } else {
      Uncons(s, t);
      CostAppend(s[1..], t);
    }
  }

  lemma {:induction false} ScriptAppend(s: Script, t: Script)
    ensures Olds(s + t) == Olds(s) + Olds(t)
    ensures News(s + t) == News(s) + News(t)
    ensures Cost(s + t) == Cost(s) + Cost(t)
  {
    OldsAppend(s, t);
    NewsAppend(s, t);
    CostAppend(s, t);
  }

  lemma {:induction false} JoinScripts(s: Script, a: seq<Line>, b: seq<Line>, t: Script, a': seq<Line>, b': seq<Line>)
    requires Transforms(s, a, b) && Transforms(t, a', b')
    ensures Transforms(s + t, a + a', b + b') && Cost(s + t) == Cost(s) + Cost(t)
  {
    ScriptAppend(s, t);
  }

  lemma {:induction false} OneOp(op: DiffOp)
    ensures Olds([op]) == HeadOld(op) && News([op]) == HeadNew(op)
    ensures Cost([op]) == if op.Equal? then 0 else 1
  {
    assert [op][1..] == [];
  }

  predicate Matches(a: seq<Line>, b: seq<Line>, x: nat, y: nat) {
    x < |a| && y < |b| && a[x] == b[y]
  }

  ghost function Min(x: int, y: int): int { if x <= y then x else y }

  ghost function Dist(a: seq<Line>, b: seq<Line>, x: nat, y: nat): (d: nat)
    decreases x + y
  {
    if x == 0 then y
    else if y == 0 then x
    else if Matches(a, b, x - 1, y - 1) then Dist(a, b, x - 1, y - 1)
    else 1 + Min(Dist(a, b, x - 1, y), Dist(a, b, x, y - 1))
  }

  /** Neighbouring points differ by at most one edit. */
  lemma {:induction false} Lipschitz(a: seq<Line>, b: seq<Line>, x: nat, y: nat)
    ensures Dist(a, b, x + 1, y) <= Dist(a, b, x, y) + 1
    ensures Dist(a, b, x, y) <= Dist(a, b, x + 1, y) + 1
    ensures Dist(a, b, x, y + 1) <= Dist(a, b, x, y) + 1
    ensures Dist(a, b, x, y) <= Dist(a, b, x, y + 1) + 1
    decreases x + y
  {
    if y > 0 { Lipschitz(a, b, x, y - 1); }
    if x > 0 { Lipschitz(a, b, x - 1, y); }
  }

  /** Distances never shrink along a diagonal. */
  lemma {:induction false} DiagonalStep(a: seq<Line>, b: seq<Line>, x: nat, y: nat)
    ensures Dist(a, b, x, y) <= Dist(a, b, x + 1, y + 1)
  {
    Lipschitz(a, b, x, y);
  }

  lemma {:induction false} DiagonalMonotone(a: seq<Line>, b: seq<Line>, x: nat, y: nat, j: nat)
    ensures Dist(a, b, x, y) <= Dist(a, b, x + j, y + j)
    decreases j
  {
    if j > 0 {
      DiagonalMonotone(a, b, x, y, j - 1);
      DiagonalStep(a, b, x + j - 1, y + j - 1);
    }
  }

  /** Every path to (x, y) needs at least |x - y| edits. */
  lemma {:induction false} DistBounds(a: seq<Line>, b: seq<Line>, x: nat, y: nat)
    ensures x - y <= Dist(a, b, x, y) && y - x <= Dist(a, b, x, y) <= x + y
    decreases x + y
  {
    if x > 0 && y > 0 {
      DistBounds(a, b, x - 1, y);
      DistBounds(a, b, x, y - 1);
      DistBounds(a, b, x - 1, y - 1);
    }
  }

  /** The number of edits has the parity of the diagonal; `h` is half the difference. */
  lemma {:induction false} DistParity(a: seq<Line>, b: seq<Line>, x: nat, y: nat) returns (h: int)
    ensures Dist(a, b, x, y) == x - y + 2 * h
    decreases x + y
  {
    if x == 0 {
      h := y;
    } else if y == 0 {
      h := 0;
    } else if Matches(a, b, x - 1, y - 1) {
      h := DistParity(a, b, x - 1, y - 1);
    } else if Dist(a, b, x - 1, y) <= Dist(a, b, x, y - 1) {
      h := DistParity(a, b, x - 1, y);
    } else {
      h := DistParity(a, b, x, y - 1);
      h := h + 1;
    }
  }

  /** Past the right edge each further column costs one more edit. */
  lemma {:induction false} PastRight(a: seq<Line>, b: seq<Line>, x: nat, y: nat)
    requires x >= |a|
    ensures Dist(a, b, x + 1, y) == Dist(a, b, x, y) + 1
    decreases y
  {
    if y > 0 { PastRight(a, b, x, y - 1); }
    Lipschitz(a, b, x, y);
    if y > 0 { Lipschitz(a, b, x, y - 1); }
  }

  lemma {:induction false} PastBottom(a: seq<Line>, b: seq<Line>, x: nat, y: nat)
    requires y >= |b|
    ensures Dist(a, b, x, y + 1) == Dist(a, b, x, y) + 1
    decreases x
  {
    if x > 0 { PastBottom(a, b, x - 1, y); }
    Lipschitz(a, b, x, y);
    if x > 0 { Lipschitz(a, b, x - 1, y); }
  }

  /** A column past the right edge needs at least that many edits. */
  lemma {:induction false} ColumnCost(a: seq<Line>, b: seq<Line>, x: nat, y: nat)
    ensures x - |a| <= Dist(a, b, x, y)
    decreases x
  {
    if x > |a| {
      ColumnCost(a, b, x - 1, y);
      PastRight(a, b, x - 1, y);
    }
  }

  /** In the quadrant beyond (n, m) the distance is that of (n, m) plus the overshoot. */
  lemma {:induction false} Overshoot(a: seq<Line>, b: seq<Line>, x: nat, y: nat)
    requires x >= |a| && y >= |b|
    ensures Dist(a, b, x, y) == Dist(a, b, |a|, |b|) + (x - |a|) + (y - |b|)
    decreases x + y
  {
    if x > |a| {
      var w := x - 1;
      Overshoot(a, b, w, y);
      PastRight(a, b, w, y);
    } else if y > |b| {
      var z := y - 1;
      Overshoot(a, b, x, z);
      PastBottom(a, b, x, z);
    }
  }

  /** One op moves by at most its own cost. */
  lemma {:induction false} OpCost(a: seq<Line>, b: seq<Line>, x: nat, y: nat, op: DiffOp)
    requires op.Equal? ==> Matches(a, b, x, y)
    ensures Dist(a, b, x + |HeadOld(op)|, y + |HeadNew(op)|) <= Dist(a, b, x, y) + Cost([op])
  {
    OneOp(op);
    Lipschitz(a, b, x, y);
  }

  lemma {:induction false} PrefixAt(s: seq<Line>, t: seq<Line>, a: seq<Line>)
    requires s + t <= a
    ensures s <= a
    ensures t != [] ==> |s| < |a| && a[|s|] == t[0]
  {
    if t != [] {
      assert (s + t)[|s|] == t[0];
    }
  }

  /** No script between two prefixes is shorter than `Dist`. */
  lemma {:induction false} ScriptLowerBound(ops: Script, a: seq<Line>, b: seq<Line>)
    requires Olds(ops) <= a && News(ops) <= b
    ensures Dist(a, b, |Olds(ops)|, |News(ops)|) <= Cost(ops)
    decreases |ops|
  {
    if ops != [] {
      var init, op := ops[..|ops| - 1], ops[|ops| - 1];
      SplitLast(ops, init, op);
      OneMoreOp(Olds(init), News(init), op, a, b);
      ScriptLowerBound(init, a, b);
    }
  }

  /** One op more, from the end of the prefixes u and v on. */
  lemma {:induction false} OneMoreOp(u: seq<Line>, v: seq<Line>, op: DiffOp, a: seq<Line>, b: seq<Line>)
    requires u + HeadOld(op) <= a && v + HeadNew(op) <= b
    ensures u <= a && v <= b
    ensures Dist(a, b, |u + HeadOld(op)|, |v + HeadNew(op)|) <= Dist(a, b, |u|, |v|) + Cost([op])
  {
    PrefixAt(u, HeadOld(op), a);
    PrefixAt(v, HeadNew(op), b);
    OpCost(a, b, |u|, |v|, op);
  }

  lemma {:induction false} SplitLast(ops: Script, init: Script, op: DiffOp)
    requires ops != [] && init == ops[..|ops| - 1] && op == ops[|ops| - 1]
    ensures Olds(ops) == Olds(init) + HeadOld(op) && News(ops) == News(init) + HeadNew(op)
    ensures Cost(ops) == Cost(init) + Cost([op])
  {
    assert ops == init + [op];
    ScriptAppend(init, [op]);
    OneOp(op);
  }

  /** A script that no script between the same two files beats. */
  ghost predicate Shortest(ops: Script, a: seq<Line>, b: seq<Line>) {
    Transforms(ops, a, b) && forall other :: Transforms(other, a, b) ==> Cost(ops) <= Cost(other)
  }

  /** A script of length `Dist` is a shortest one. */
  lemma {:induction false} DistIsShortest(ops: Script, a: seq<Line>, b: seq<Line>)
    requires Transforms(ops, a, b) && Cost(ops) == Dist(a, b, |a|, |b|)
    ensures Shortest(ops, a, b)
  {
    forall other | Transforms(other, a, b)
      ensures Cost(ops) <= Cost(other)
    {
      ScriptLowerBound(other, a, b);
    }
  }

  function Deletes(a: seq<Line>): (ops: Script)
    ensures |ops| == |a|
  {
    seq(|a|, i requires 0 <= i < |a| => Delete(a[i]))
  }

  function Inserts(b: seq<Line>): (ops: Script)
    ensures |ops| == |b|
  {
    seq(|b|, i requires 0 <= i < |b| => Insert(b[i]))
  }

  lemma {:induction false} DeletesScript(a: seq<Line>)
    ensures Transforms(Deletes(a), a, []) && Cost(Deletes(a)) == |a|
  {
    if a != [] {
      DeletesScript(a[1..]);
      assert Deletes(a)[1..] == Deletes(a[1..]);
    }
  }

  lemma {:induction false} InsertsScript(b: seq<Line>)
    ensures Transforms(Inserts(b), [], b) && Cost(Inserts(b)) == |b|
  {
    if b != [] {
      InsertsScript(b[1..]);
      assert Inserts(b)[1..] == Inserts(b[1..]);
    }
  }

  /** Delete everything, then insert everything. */
  lemma {:induction false} CoarseScript(a: seq<Line>, b: seq<Line>)
    ensures Transforms(Deletes(a) + Inserts(b), a, b)
    ensures Cost(Deletes(a) + Inserts(b)) == |a| + |b|
  {
    DeletesScript(a);
    InsertsScript(b);
    ScriptAppend(Deletes(a), Inserts(b));
  }

  ghost predicate NoCommonLine(a: seq<Line>, b: seq<Line>) {
    forall i, j :: 0 <= i < |a| && 0 <= j < |b| ==> a[i] != b[j]
  }

  function Kept(ops: Script): nat {
    if ops == [] then 0 else (if ops[0].Equal? then 1 else 0) + Kept(ops[1..])
  }

  /** Every line is either kept, on both sides, or paid for. */
  lemma {:induction false} CostBalance(ops: Script)
    ensures Cost(ops) + 2 * Kept(ops) == |Olds(ops)| + |News(ops)|
  {
    if ops != [] { CostBalance(ops[1..]); }
  }

  lemma {:induction false} KeptIsCommon(ops: Script) returns (i: int, j: int)
    requires Kept(ops) > 0
    ensures 0 <= i < |Olds(ops)| && 0 <= j < |News(ops)| && Olds(ops)[i] == News(ops)[j]
  {
    if ops[0].Equal? {
      i, j := 0, 0;
    } else {
      i, j := KeptIsCommon(ops[1..]);
      i, j := i + |HeadOld(ops[0])|, j + |HeadNew(ops[0])|;
    }
  }

  /** Without a common line, every script costs as much as the coarse one. */
  lemma {:induction false} NothingToKeep(ops: Script, a: seq<Line>, b: seq<Line>)
    requires Transforms(ops, a, b) && NoCommonLine(a, b)
    ensures Cost(ops) == |a| + |b|
  {
    CostBalance(ops);
    if Kept(ops) > 0 {
      var i, j := KeptIsCommon(ops);
    }
  }

  lemma {:induction false} SplitAt(a: seq<Line>, i: nat)
    requires i < |a|
    ensures a == a[..i] + [a[i]] + a[i + 1..]
  {
  }

  /** With a common line, a script that keeps it costs two edits less. */
  lemma {:induction false} KeepOne(a: seq<Line>, b: seq<Line>, i: int, j: int) returns (ops: Script)
    requires 0 <= i < |a| && 0 <= j < |b| && a[i] == b[j]
    ensures Transforms(ops, a, b) && Cost(ops) == |a| + |b| - 2
  {
    var s, e, t := Deletes(a[..i]) + Inserts(b[..j]), [Equal(a[i])], Deletes(a[i + 1..]) + Inserts(b[j + 1..]);
    CoarseScript(a[..i], b[..j]);
    CoarseScript(a[i + 1..], b[j + 1..]);
    OneOp(e[0]);
    JoinScripts(s, a[..i], b[..j], e, [a[i]], [b[j]]);
    JoinScripts(s + e, a[..i] + [a[i]], b[..j] + [b[j]], t, a[i + 1..], b[j + 1..]);
    ops := s + e + t;
    SplitAt(a, i);
    SplitAt(b, j);
  }

  /** The coarse script is shortest exactly when the files share no line. */
  lemma {:induction false} CoarseIsShortest(a: seq<Line>, b: seq<Line>)
    ensures Shortest(Deletes(a) + Inserts(b), a, b) <==> NoCommonLine(a, b)
  {
    CoarseScript(a, b);
    if NoCommonLine(a, b) {
      forall other | Transforms(other, a, b)
        ensures Cost(other) == |a| + |b|
      {
        NothingToKeep(other, a, b);
      }
    } else {
      var i, j :| 0 <= i < |a| && 0 <= j < |b| && a[i] == b[j];
      var ops := KeepOne(a, b, i, j);
    }
  }
}
