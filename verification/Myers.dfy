/** Myers' greedy line diff: the forward search and the replay of its trace. */
module Myers {
  // The search works on the array `v`; the replay reads the edit script off the saved copies of it.

  import opened Bytes
  import opened EditDistance

  type I32 = x: int | -0x8000_0000 <= x < 0x8000_0000

  /** Above this many lines the search is not attempted. */
  const MAX_DIFF_LINES: nat := 50_000

  /** The diagonals of step d are -d, -d+2, ..., d; the j-th of them is 2j - d. */
  ghost predicate OnStep(d: int, j: int) { 0 <= j <= d }

  /** (x, x - k) is the furthest point of diagonal k that d edits reach. */
  ghost predicate Furthest(a: seq<Line>, b: seq<Line>, d: int, k: int, x: int) {
    x >= 0 && x >= k && Dist(a, b, x, x - k) <= d && Dist(a, b, x + 1, x - k + 1) > d
  }

  /** `v` is a legal array for the search: one cell per diagonal in [-off, off]. */
  ghost predicate Shape(v: seq<int>, off: int, d: int) {
    |v| == 2 * off + 1 && 1 <= off && d <= off
  }

  /** Does step d reach its j-th diagonal from the diagonal above (an insert)? */
  ghost predicate Down(v: seq<int>, off: int, d: int, j: int)
    requires Shape(v, off, d) && OnStep(d, j)
  {
    j == 0 || (j != d && v[off + 2 * j - d - 1] < v[off + 2 * j - d + 1])
  }

  /** Where step d enters its j-th diagonal, before following matches. */
  ghost function StartX(v: seq<int>, off: int, d: int, j: int): int
    requires Shape(v, off, d) && OnStep(d, j)
  {
    if Down(v, off, d, j) then v[off + 2 * j - d + 1] else v[off + 2 * j - d - 1] + 1
  }

  ghost predicate MatchOn(a: seq<Line>, b: seq<Line>, k: int, i: int) {
    0 <= i && k <= i && Matches(a, b, i, i - k)
  }

  /** A run of matching lines on diagonal k from column x0 to column x. */
  ghost predicate Snake(a: seq<Line>, b: seq<Line>, k: int, x0: int, x: int) {
    0 <= x0 <= x && k <= x0 && forall i :: x0 <= i < x ==> MatchOn(a, b, k, i)
  }

  /** The cell of the j-th diagonal was computed by step d from its neighbours in v. */
  ghost predicate Stepped(a: seq<Line>, b: seq<Line>, v: seq<int>, off: int, d: int, j: int)
    requires Shape(v, off, d) && OnStep(d, j)
  {
    Snake(a, b, 2 * j - d, StartX(v, off, d, j), v[off + 2 * j - d])
  }

  /** The cell of the j-th diagonal holds the furthest point of step d. */
  ghost predicate FarAt(a: seq<Line>, b: seq<Line>, v: seq<int>, off: int, d: int, j: int)
    requires Shape(v, off, d) && OnStep(d, j)
  {
    Furthest(a, b, d, 2 * j - d, v[off + 2 * j - d])
  }

  lemma {:induction false} SnakeKeepsDist(a: seq<Line>, b: seq<Line>, k: int, x0: int, x: int)
    requires Snake(a, b, k, x0, x)
    ensures Dist(a, b, x, x - k) == Dist(a, b, x0, x0 - k)
    decreases x - x0
  {
    if x0 < x {
      SnakeKeepsDist(a, b, k, x0, x - 1);
      assert MatchOn(a, b, k, x - 1);
    }
  }

  /** Points of diagonal k beyond the furthest one need more than d edits. */
  lemma {:induction false} BeyondCosts(a: seq<Line>, b: seq<Line>, d: int, k: int, far: int, x: int)
    requires Furthest(a, b, d, k, far) && x > far
    ensures Dist(a, b, x, x - k) > d
  {
    DiagonalMonotone(a, b, far + 1, far + 1 - k, x - far - 1);
  }

  /** What the search knows of `v` when step d begins. */
  ghost predicate Ready(a: seq<Line>, b: seq<Line>, v: seq<int>, off: int, d: int)
    requires Shape(v, off, d)
  {
    (d == 0 ==> v[off + 1] == 0) && AllFar(a, b, v, off, d - 1)
  }

  ghost predicate AllFar(a: seq<Line>, b: seq<Line>, v: seq<int>, off: int, d: int)
    requires Shape(v, off, d)
  {
    forall j :: OnStep(d, j) ==> FarAt(a, b, v, off, d, j)
  }

  lemma {:induction false} EnterDown(a: seq<Line>, b: seq<Line>, d: int, k: int, x: int)
    requires Furthest(a, b, d - 1, k + 1, x)
    ensures x >= 0 && x >= k && Dist(a, b, x, x - k) <= d
  {
    Lipschitz(a, b, x, x - k - 1);
  }

  lemma {:induction false} EnterRight(a: seq<Line>, b: seq<Line>, d: int, k: int, x: int)
    requires Furthest(a, b, d - 1, k - 1, x - 1)
    ensures x >= 0 && x >= k && Dist(a, b, x, x - k) <= d
  {
    Lipschitz(a, b, x - 1, x - k);
  }

  /** The neighbours of step d's j-th diagonal, as step d - 1 left them. */
  lemma {:induction false} Neighbours(a: seq<Line>, b: seq<Line>, v: seq<int>, off: int, d: int, j: int)
    requires Shape(v, off, d) && OnStep(d, j) && AllFar(a, b, v, off, d - 1)
    ensures j != 0 ==> Furthest(a, b, d - 1, 2 * j - d - 1, v[off + 2 * j - d - 1])
    ensures j != d ==> Furthest(a, b, d - 1, 2 * j - d + 1, v[off + 2 * j - d + 1])
  {
    assert j != 0 ==> FarAt(a, b, v, off, d - 1, j - 1);
    assert j != d ==> FarAt(a, b, v, off, d - 1, j);
  }

  /** Entering a diagonal costs at most d edits and passes both neighbours. */
  lemma {:induction false} StartReaches(a: seq<Line>, b: seq<Line>, v: seq<int>, off: int, d: int, j: int)
    requires Shape(v, off, d) && OnStep(d, j) && Ready(a, b, v, off, d)
    ensures var x, k := StartX(v, off, d, j), 2 * j - d;
      && x >= 0 && x >= k && Dist(a, b, x, x - k) <= d
      && (j != 0 ==> x > v[off + k - 1])
      && (j != d ==> x >= v[off + k + 1])
  {
    var x, k := StartX(v, off, d, j), 2 * j - d;
    if d > 0 {
      Neighbours(a, b, v, off, d, j);
      if Down(v, off, d, j) {
        EnterDown(a, b, d, k, x);
      } else {
        EnterRight(a, b, d, k, x);
      }
    }
  }

  /** The diagonal below holds nothing of d - 1 edits at or past column x. */
  lemma {:induction false} LeftExhausted(a: seq<Line>, b: seq<Line>, v: seq<int>, off: int, d: int, j: int, x: int)
    requires Shape(v, off, d) && OnStep(d, j) && AllFar(a, b, v, off, d - 1)
    requires x >= 0 && x >= 2 * j - d && (j != 0 ==> x > v[off + 2 * j - d - 1])
    ensures Dist(a, b, x, x - (2 * j - d) + 1) >= d
  {
    var k := 2 * j - d;
    if j != 0 {
      Neighbours(a, b, v, off, d, j);
      BeyondCosts(a, b, d - 1, k - 1, v[off + k - 1], x);
    } else {
      DistBounds(a, b, x, x - k + 1);
    }
  }

  /** The diagonal above holds nothing of d - 1 edits past column x. */
  lemma {:induction false} RightExhausted(a: seq<Line>, b: seq<Line>, v: seq<int>, off: int, d: int, j: int, x: int)
    requires Shape(v, off, d) && OnStep(d, j) && AllFar(a, b, v, off, d - 1)
    requires x >= 0 && x >= 2 * j - d && (j != d ==> x >= v[off + 2 * j - d + 1])
    ensures Dist(a, b, x + 1, x - (2 * j - d)) >= d
  {
    var k := 2 * j - d;
    if j != d {
      Neighbours(a, b, v, off, d, j);
      BeyondCosts(a, b, d - 1, k + 1, v[off + k + 1], x + 1);
    } else {
      DistBounds(a, b, x + 1, x - k);
    }
  }

  /** The greedy step is exact: when no match continues it, x is furthest for d edits. */
  lemma {:induction false} StepIsFurthest(a: seq<Line>, b: seq<Line>, v: seq<int>, off: int, d: int, j: int, x: int)
    requires Shape(v, off, d) && OnStep(d, j) && Ready(a, b, v, off, d)
    requires Snake(a, b, 2 * j - d, StartX(v, off, d, j), x)
    requires !Matches(a, b, x, x - (2 * j - d))
    ensures Furthest(a, b, d, 2 * j - d, x)
  {
    var k := 2 * j - d;
    StartReaches(a, b, v, off, d, j);
    SnakeKeepsDist(a, b, k, StartX(v, off, d, j), x);
    LeftExhausted(a, b, v, off, d, j, x);
    RightExhausted(a, b, v, off, d, j, x);
  }

  /** The innermost loop: follow matching lines down diagonal k. */
  method FollowSnake(a: seq<Line>, b: seq<Line>, k: int, x0: I32) returns (x: I32)
    requires |a| + |b| <= MAX_DIFF_LINES
    requires 0 <= x0 && k <= x0
    ensures Snake(a, b, k, x0, x) && !Matches(a, b, x, x - k)
    ensures x == x0 || x <= |a|
  {
    x := x0;
    var y := x - k;
    while x < |a| && y < |b| && a[x] == b[y]
      invariant y == x - k
      invariant Snake(a, b, k, x0, x)
      invariant x == x0 || x <= |a|
    {
      x, y := x + 1, y + 1;
    }
  }

  /** w agrees with v on the diagonals of step d. */
  ghost predicate SameOn(v: seq<int>, w: seq<int>, off: int, d: int)
    requires Shape(v, off, d) && |w| == |v|
  {
    forall j :: OnStep(d, j) ==> SameAt(v, w, off + 2 * j - d)
  }

  ghost predicate SameAt(v: seq<int>, w: seq<int>, i: int) {
    0 <= i < |v| && 0 <= i < |w| && v[i] == w[i]
  }

  /** Step d has computed its j-th diagonal, and stopped short of the end there. */
  ghost predicate DoneAt(a: seq<Line>, b: seq<Line>, v: seq<int>, off: int, d: int, j: int)
    requires Shape(v, off, d) && OnStep(d, j)
  {
    && FarAt(a, b, v, off, d, j)
    && Stepped(a, b, v, off, d, j)
    && !(v[off + 2 * j - d] >= |a| && v[off + 2 * j - d] - (2 * j - d) >= |b|)
  }

  /** Step d has been done for its first `top` diagonals, without reaching the end. */
  ghost predicate DoneBelow(a: seq<Line>, b: seq<Line>, v: seq<int>, off: int, d: int, top: int)
    requires Shape(v, off, d)
  {
    forall j :: OnStep(d, j) && j < top ==> DoneAt(a, b, v, off, d, j)
  }

  /** The first point past both ends is the end point itself. */
  lemma {:induction false} HitIsExact(a: seq<Line>, b: seq<Line>, d: int, k: int, x: int)
    requires Furthest(a, b, d, k, x) && x >= |a| && x - k >= |b|
    requires d <= Dist(a, b, |a|, |b|)
    ensures x == |a| && x - k == |b| && Dist(a, b, |a|, |b|) == d
  {
    Overshoot(a, b, x, x - k);
  }

  /** The end point lies on a diagonal of the step that equals its distance. */
  lemma {:induction false} EndOnStep(a: seq<Line>, b: seq<Line>) returns (j: int)
    ensures OnStep(Dist(a, b, |a|, |b|), j) && 2 * j - Dist(a, b, |a|, |b|) == |a| - |b|
  {
    DistBounds(a, b, |a|, |b|);
    var h := DistParity(a, b, |a|, |b|);
    j := |a| - |b| + h;
  }

  /** If d edits reach the end, then the cell of the end's diagonal says so. */
  lemma {:induction false} EndNotMissed(a: seq<Line>, b: seq<Line>, v: seq<int>, off: int, d: int, j: int)
    requires Shape(v, off, d) && OnStep(d, j) && 2 * j - d == |a| - |b|
    requires FarAt(a, b, v, off, d, j) && Dist(a, b, |a|, |b|) <= d
    ensures v[off + 2 * j - d] >= |a|
  {
    if v[off + 2 * j - d] < |a| {
      BeyondCosts(a, b, d, |a| - |b|, v[off + 2 * j - d], |a|);
    }
  }

  /** A step that visits every diagonal without a hit proves that d edits do not suffice. */
  lemma {:induction false} MissNeedsMore(a: seq<Line>, b: seq<Line>, v: seq<int>, off: int, d: int)
    requires Shape(v, off, d)
    requires d <= Dist(a, b, |a|, |b|) && DoneBelow(a, b, v, off, d, d + 1)
    ensures d < Dist(a, b, |a|, |b|)
  {
    var j := EndOnStep(a, b);
    if d == Dist(a, b, |a|, |b|) {
      EndNotMissed(a, b, v, off, d, j);
    }
  }

  /** Writing a diagonal touches neither the previous step's cells nor finished diagonals. */
  lemma {:induction false} WriteKeeps(v: seq<int>, w: seq<int>, off: int, d: int, j: int, x: int, i: int)
    requires Shape(v, off, d) && OnStep(d, j) && w == v[off + 2 * j - d := x]
    ensures OnStep(d - 1, i) ==> SameAt(v, w, off + 2 * i - (d - 1))
    ensures OnStep(d, i) ==> StartX(w, off, d, i) == StartX(v, off, d, i)
  {
    if OnStep(d, i) {
      assert i != 0 ==> SameAt(v, w, off + 2 * i - d - 1);
      assert i != d ==> SameAt(v, w, off + 2 * i - d + 1);
    }
  }

  /** The state of step d after its first j diagonals; v0 is `v` as the step found it. */
  ghost predicate InStep(a: seq<Line>, b: seq<Line>, v0: seq<int>, v: seq<int>, off: int, d: int, j: int)
    requires Shape(v, off, d) && |v0| == |v|
  {
    && 0 <= j <= d + 1
    && Ready(a, b, v, off, d)
    && SameOn(v0, v, off, d - 1)
    && DoneBelow(a, b, v, off, d, j)
  }

  lemma {:induction false} DoneKept(a: seq<Line>, b: seq<Line>, v: seq<int>, w: seq<int>, off: int, d: int,
                                    j: int, x: int, i: int)
    requires Shape(v, off, d) && OnStep(d, j) && w == v[off + 2 * j - d := x]
    requires OnStep(d, i) && i != j && DoneAt(a, b, v, off, d, i)
    ensures DoneAt(a, b, w, off, d, i)
  {
    WriteKeeps(v, w, off, d, j, x, i);
  }

  /** Writing a diagonal of step d leaves step d - 1's cells as they were. */
  lemma {:induction false} ReadyKept(a: seq<Line>, b: seq<Line>, v0: seq<int>, v: seq<int>, w: seq<int>,
                                     off: int, d: int, j: int, x: int)
    requires Shape(v, off, d) && |v0| == |v| && OnStep(d, j) && w == v[off + 2 * j - d := x]
    requires Ready(a, b, v, off, d) && SameOn(v0, v, off, d - 1)
    ensures SameOn(v0, w, off, d - 1) && Ready(a, b, w, off, d)
  {
    forall i | OnStep(d - 1, i)
      ensures SameAt(v0, w, off + 2 * i - (d - 1)) && FarAt(a, b, w, off, d - 1, i)
    {
      WriteKeeps(v, w, off, d, j, x, i);
      assert SameAt(v0, v, off + 2 * i - (d - 1)) && FarAt(a, b, v, off, d - 1, i);
    }
  }

  lemma {:induction false} DoneGrows(a: seq<Line>, b: seq<Line>, v: seq<int>, w: seq<int>, off: int, d: int,
                                     j: int, x: int)
    requires Shape(v, off, d) && OnStep(d, j) && w == v[off + 2 * j - d := x]
    requires DoneBelow(a, b, v, off, d, j) && DoneAt(a, b, w, off, d, j)
    ensures DoneBelow(a, b, w, off, d, j + 1)
  {
    forall i | OnStep(d, i) && i < j
      ensures DoneAt(a, b, w, off, d, i)
    {
      DoneKept(a, b, v, w, off, d, j, x, i);
    }
  }

  lemma {:induction false} StepOnce(a: seq<Line>, b: seq<Line>, v0: seq<int>, v: seq<int>, w: seq<int>,
                                    off: int, d: int, j: int, x: int)
    requires Shape(v, off, d) && |v0| == |v| && OnStep(d, j) && InStep(a, b, v0, v, off, d, j)
    requires Snake(a, b, 2 * j - d, StartX(v, off, d, j), x)
    requires !Matches(a, b, x, x - (2 * j - d))
    requires w == v[off + 2 * j - d := x]
    ensures Furthest(a, b, d, 2 * j - d, x) && Stepped(a, b, w, off, d, j)
    ensures SameOn(v0, w, off, d - 1) && Ready(a, b, w, off, d)
    ensures !(x >= |a| && x - (2 * j - d) >= |b|) ==> InStep(a, b, v0, w, off, d, j + 1)
  {
    StepIsFurthest(a, b, v, off, d, j, x);
    WriteKeeps(v, w, off, d, j, x, j);
    ReadyKept(a, b, v0, v, w, off, d, j, x);
    if !(x >= |a| && x - (2 * j - d) >= |b|) {
      DoneGrows(a, b, v, w, off, d, j, x);
    }
  }

  ghost predicate Bounded(v: seq<int>, top: int) {
    forall i :: 0 <= i < |v| ==> v[i] <= top
  }

  /** Entering a diagonal stays in the plane, and no cell is past its bound. */
  lemma {:induction false} EntersPlane(a: seq<Line>, b: seq<Line>, v: seq<int>, off: int, d: int, j: int)
    requires Shape(v, off, d) && OnStep(d, j) && Ready(a, b, v, off, d)
    ensures StartX(v, off, d, j) >= 0 && StartX(v, off, d, j) >= 2 * j - d
  {
    StartReaches(a, b, v, off, d, j);
  }

  /** The column where step d enters diagonal k. */
  method EnterDiagonal(v: array<I32>, off: int, d: int, k: int, ghost j: int, ghost top: int)
    returns (x: I32)
    requires Shape(v[..], off, d) && OnStep(d, j) && k == 2 * j - d
    requires Bounded(v[..], top) && top < 0x7FFF_FFFF
    ensures x == StartX(v[..], off, d, j)
  {
    var down := k == -d || (k != d && v[off + k - 1] < v[off + k + 1]);
    assert !down ==> v[..][off + k - 1] <= top;
    x := if down then v[off + k + 1] else v[off + k - 1] + 1;
  }

  lemma {:induction false} BoundedWrite(v: seq<int>, top: int, i: nat, x: int)
    requires Bounded(v, top) && i < |v| && x <= top
    ensures Bounded(v[i := x], top)
  {
  }

  lemma {:induction false} BoundedMore(v: seq<int>, top: int, more: int)
    requires Bounded(v, top) && top <= more
    ensures Bounded(v, more)
  {
  }

  /** A furthest point of step d lies at most d columns past the end of `a`. */
  lemma {:induction false} FurthestBounded(a: seq<Line>, b: seq<Line>, d: int, k: int, x: int)
    requires Furthest(a, b, d, k, x)
    ensures x <= |a| + d
  {
    ColumnCost(a, b, x, x - k);
  }

  /** The body of the inner loop: compute and store the cell of diagonal k. */
  method StepDiagonal(a: seq<Line>, b: seq<Line>, v: array<I32>, d: int, k: int, ghost v0: seq<int>, ghost j: int)
    returns (x: I32, ghost w: seq<int>)
    requires 0 < |a| && 0 < |b| && |a| + |b| <= MAX_DIFF_LINES
    requires Shape(v[..], |a| + |b|, d) && |v0| == v.Length && OnStep(d, j) && k == 2 * j - d
    requires InStep(a, b, v0, v[..], |a| + |b|, d, j) && Bounded(v[..], |a| + d)
    modifies v
    ensures v[..] == w == old(v[..])[|a| + |b| + k := x] && Bounded(w, |a| + d)
    ensures Furthest(a, b, d, k, x) && Stepped(a, b, w, |a| + |b|, d, j)
    ensures SameOn(v0, w, |a| + |b|, d - 1) && Ready(a, b, w, |a| + |b|, d)
    ensures !(x >= |a| && x - k >= |b|) ==> InStep(a, b, v0, w, |a| + |b|, d, j + 1)
  {
    var off := |a| + |b|;
    ghost var u := v[..];
    EntersPlane(a, b, u, off, d, j);
    var x0 := EnterDiagonal(v, off, d, k, j, |a| + d);
    x := FollowSnake(a, b, k, x0);
    w := u[off + k := x];
    StepOnce(a, b, v0, u, w, off, d, j, x);
    FurthestBounded(a, b, d, k, x);
    BoundedWrite(u, |a| + d, off + k, x);
    v[off + k] := x;
    assert v[..] == w;
  }

  /** Step d found the end, and computed its cell from the neighbours in `v`. */
  ghost predicate HitAt(a: seq<Line>, b: seq<Line>, v: seq<int>, d: int)
    requires Shape(v, |a| + |b|, d)
  {
    && Dist(a, b, |a|, |b|) == d && v[|a| + |a|] == |a|
    && exists j :: OnStep(d, j) && 2 * j - d == |a| - |b| && Stepped(a, b, v, |a| + |b|, d, j)
  }

  lemma {:induction false} MakeHit(a: seq<Line>, b: seq<Line>, v: seq<int>, d: int, j: int)
    requires Shape(v, |a| + |b|, d) && OnStep(d, j) && Stepped(a, b, v, |a| + |b|, d, j)
    requires Dist(a, b, |a|, |b|) == d && 2 * j - d == |a| - |b| && v[|a| + |b| + 2 * j - d] == |a|
    ensures HitAt(a, b, v, d)
  {
  }

  lemma {:induction false} StepBegins(a: seq<Line>, b: seq<Line>, v: seq<int>, off: int, d: int)
    requires Shape(v, off, d) && 0 <= d && Ready(a, b, v, off, d)
    ensures InStep(a, b, v, v, off, d, 0)
  {
    forall j | OnStep(d - 1, j) ensures SameAt(v, v, off + 2 * j - (d - 1)) {
    }
  }

  lemma {:induction false} StepEnds(a: seq<Line>, b: seq<Line>, v0: seq<int>, v: seq<int>, off: int, d: int, j: int)
    requires Shape(v, off, d) && |v0| == |v| && InStep(a, b, v0, v, off, d, j)
    requires 2 * j - d > d && d <= Dist(a, b, |a|, |b|)
    ensures Ready(a, b, v, off, d) && SameOn(v0, v, off, d - 1)
    ensures DoneBelow(a, b, v, off, d, d + 1) && d < Dist(a, b, |a|, |b|)
  {
    assert j == d + 1;
    MissNeedsMore(a, b, v, off, d);
  }

  /** A cell past both ends is the hit. */
  lemma {:induction false} CellHits(a: seq<Line>, b: seq<Line>, v: seq<int>, d: int, j: int, k: int, x: int)
    requires Shape(v, |a| + |b|, d) && OnStep(d, j) && k == 2 * j - d && v[|a| + |b| + k] == x
    requires Stepped(a, b, v, |a| + |b|, d, j) && Furthest(a, b, d, k, x)
    requires x >= |a| && x - k >= |b| && d <= Dist(a, b, |a|, |b|)
    ensures HitAt(a, b, v, d)
  {
    HitIsExact(a, b, d, k, x);
    MakeHit(a, b, v, d, j);
  }

  /** One step of the forward search. It rewrites the cells of d's parity only. */
  method SearchStep(a: seq<Line>, b: seq<Line>, v: array<I32>, d: int) returns (hit: bool, ghost w: seq<int>)
    requires 0 < |a| && 0 < |b| && |a| + |b| <= MAX_DIFF_LINES && 0 <= d <= Dist(a, b, |a|, |b|)
    requires Shape(v[..], |a| + |b|, d) && Ready(a, b, v[..], |a| + |b|, d) && Bounded(v[..], |a| + d)
    modifies v
    ensures v[..] == w && Ready(a, b, w, |a| + |b|, d) && SameOn(old(v[..]), w, |a| + |b|, d - 1)
    ensures Bounded(w, |a| + d)
    ensures hit ==> HitAt(a, b, w, d)
    ensures !hit ==> DoneBelow(a, b, w, |a| + |b|, d, d + 1) && d < Dist(a, b, |a|, |b|)
  {
    ghost var v0, j := v[..], 0;
    var k := -d;
    hit, w := false, v0;
    StepBegins(a, b, w, |a| + |b|, d);
    while k <= d
      invariant k == 2 * j - d && v[..] == w && Shape(w, |a| + |b|, d) && |v0| == |w|
      invariant InStep(a, b, v0, w, |a| + |b|, d, j) && Bounded(w, |a| + d)
    {
      var x;
      x, w := StepDiagonal(a, b, v, d, k, v0, j);
      if x >= |a| && x - k >= |b| {
        CellHits(a, b, w, d, j, k, x);
        hit := true;
        return;
      }
      k := k + 2;
      j := j + 1;
    }
    StepEnds(a, b, v0, w, |a| + |b|, d, j);
  }

  /** The saved copies of `v`: entry d is `v` after step d. */
  ghost predicate Saved(a: seq<Line>, b: seq<Line>, trace: seq<seq<I32>>, d: int)
    requires 0 <= d < |trace|
  {
    var off := |a| + |b|;
    && Shape(trace[d], off, d)
    && (d == 0 ==> trace[d][off + 1] == 0)
    && (d > 0 ==> |trace[d - 1]| == |trace[d]| && SameOn(trace[d - 1], trace[d], off, d - 1))
  }

  ghost predicate Missed(a: seq<Line>, b: seq<Line>, trace: seq<seq<I32>>, d: int)
    requires 0 <= d < |trace|
  {
    Shape(trace[d], |a| + |b|, d) && DoneBelow(a, b, trace[d], |a| + |b|, d, d + 1)
  }

  ghost predicate Found(a: seq<Line>, b: seq<Line>, trace: seq<seq<I32>>, d: int)
    requires 0 <= d < |trace|
  {
    Shape(trace[d], |a| + |b|, d) && HitAt(a, b, trace[d], d)
  }

  /** A complete trace: every step but the last missed, the last one found the end. */
  ghost predicate GoodTrace(a: seq<Line>, b: seq<Line>, trace: seq<seq<I32>>) {
    && |trace| == Dist(a, b, |a|, |b|) + 1
    && (forall d :: 0 <= d < |trace| ==> Saved(a, b, trace, d))
    && (forall d :: 0 <= d < |trace| - 1 ==> Missed(a, b, trace, d))
    && Found(a, b, trace, |trace| - 1)
  }

  /** All steps before d are saved and missed. */
  ghost predicate MissedSoFar(a: seq<Line>, b: seq<Line>, trace: seq<seq<I32>>) {
    forall d :: 0 <= d < |trace| ==> Saved(a, b, trace, d) && Missed(a, b, trace, d)
  }

  lemma {:induction false} SaveStep(a: seq<Line>, b: seq<Line>, trace: seq<seq<I32>>, v: seq<I32>)
    requires MissedSoFar(a, b, trace)
    requires Saved(a, b, trace + [v], |trace|)
    ensures forall d :: 0 <= d <= |trace| ==> Saved(a, b, trace + [v], d)
    ensures forall d :: 0 <= d < |trace| ==> Missed(a, b, trace + [v], d)
  {
    forall d | 0 <= d < |trace|
      ensures Saved(a, b, trace + [v], d) && Missed(a, b, trace + [v], d)
    {
      assert Saved(a, b, trace, d) && Missed(a, b, trace, d);
    }
  }

  lemma {:induction false} SaveNow(a: seq<Line>, b: seq<Line>, trace: seq<seq<I32>>, v: seq<I32>)
    requires Shape(v, |a| + |b|, |trace|) && Ready(a, b, v, |a| + |b|, |trace|)
    requires |trace| > 0 ==> |trace[|trace| - 1]| == |v| && SameOn(trace[|trace| - 1], v, |a| + |b|, |trace| - 1)
    ensures Saved(a, b, trace + [v], |trace|)
  {
  }

  /** Saving a step that found the end completes the trace. */
  lemma {:induction false} SaveHit(a: seq<Line>, b: seq<Line>, trace: seq<seq<I32>>, v: seq<I32>)
    requires MissedSoFar(a, b, trace) && Saved(a, b, trace + [v], |trace|)
    requires Shape(v, |a| + |b|, |trace|) && HitAt(a, b, v, |trace|)
    ensures GoodTrace(a, b, trace + [v])
  {
    SaveStep(a, b, trace, v);
    assert Found(a, b, trace + [v], |trace|);
  }

  /** Saving a step that missed the end keeps the search going. */
  lemma {:induction false} SaveMiss(a: seq<Line>, b: seq<Line>, trace: seq<seq<I32>>, v: seq<I32>)
    requires MissedSoFar(a, b, trace) && Saved(a, b, trace + [v], |trace|)
    requires Shape(v, |a| + |b|, |trace|) && DoneBelow(a, b, v, |a| + |b|, |trace|, |trace| + 1)
    ensures MissedSoFar(a, b, trace + [v])
  {
    SaveStep(a, b, trace, v);
    assert Missed(a, b, trace + [v], |trace|);
  }

  /** A step without a hit leaves `v` ready for the next. */
  lemma {:induction false} NextReady(a: seq<Line>, b: seq<Line>, v: seq<int>, off: int, d: int)
    requires 0 <= d && Shape(v, off, d) && d + 1 <= off && DoneBelow(a, b, v, off, d, d + 1)
    ensures Shape(v, off, d + 1) && Ready(a, b, v, off, d + 1)
  {
  }

  lemma {:induction false} FirstReady(a: seq<Line>, b: seq<Line>, v: seq<int>, off: int)
    requires |v| == 2 * off + 1 && 1 <= off && forall i :: 0 <= i < |v| ==> v[i] == 0
    ensures Shape(v, off, 0) && Ready(a, b, v, off, 0) && Bounded(v, |a|)
  {
  }

  /** One step, saved: the trace is complete, or the search goes on. */
  method SearchOnce(a: seq<Line>, b: seq<Line>, v: array<I32>, trace0: seq<seq<I32>>)
    returns (trace: seq<seq<I32>>, hit: bool)
    requires 0 < |a| && 0 < |b| && |a| + |b| <= MAX_DIFF_LINES && |trace0| <= Dist(a, b, |a|, |b|)
    requires Shape(v[..], |a| + |b|, |trace0|) && Ready(a, b, v[..], |a| + |b|, |trace0|) && Bounded(v[..], |a| + |trace0|)
    requires MissedSoFar(a, b, trace0) && (|trace0| > 0 ==> v[..] == trace0[|trace0| - 1])
    modifies v
    ensures hit ==> GoodTrace(a, b, trace)
    ensures !hit ==> MissedSoFar(a, b, trace) && |trace| == |trace0| + 1 <= Dist(a, b, |a|, |b|)
    ensures !hit ==> |trace| <= |a| + |b| ==>
      Shape(v[..], |a| + |b|, |trace|) && Ready(a, b, v[..], |a| + |b|, |trace|)
    ensures !hit ==> Bounded(v[..], |a| + |trace|) && v[..] == trace[|trace| - 1]
  {
    ghost var u;
    hit, u := SearchStep(a, b, v, |trace0|);
    var w := v[..];
    SaveNow(a, b, trace0, w);
    trace := trace0 + [w];
    if hit {
      SaveHit(a, b, trace0, w);
    } else {
      SaveMiss(a, b, trace0, w);
      BoundedMore(w, |a| + |trace0|, |a| + |trace|);
      if |trace| <= |a| + |b| {
        NextReady(a, b, w, |a| + |b|, |trace0|);
      }
    }
  }

  /** The forward search. */
  method Search(a: seq<Line>, b: seq<Line>) returns (trace: seq<seq<I32>>)
    requires 0 < |a| && 0 < |b| && |a| + |b| <= MAX_DIFF_LINES
    ensures GoodTrace(a, b, trace)
  {
    var max := |a| + |b|;
    var v := new I32[2 * max + 1](_ => 0);
    trace := [];
    var d := 0;
    DistBounds(a, b, |a|, |b|);
    FirstReady(a, b, v[..], max);
    while d <= max
      invariant 0 <= d == |trace| <= Dist(a, b, |a|, |b|) <= max
      invariant Shape(v[..], max, d) && Ready(a, b, v[..], max, d) && Bounded(v[..], |a| + d)
      invariant d > 0 ==> v[..] == trace[d - 1]
      invariant MissedSoFar(a, b, trace)
    {
      var hit;
      trace, hit := SearchOnce(a, b, v, trace);
      if hit {
        break;
      }
      d := d + 1;
    }
  }

  /** The ops pushed so far, read backwards, lead from (x, y) to the end at cost c. */
  ghost predicate Replayed(a: seq<Line>, b: seq<Line>, rev: Script, x: int, y: int, c: int) {
    && 0 <= x <= |a| && 0 <= y <= |b|
    && Transforms(Reversed(rev), a[x..], b[y..])
    && Cost(Reversed(rev)) == c
  }

  lemma {:induction false} NothingReplayed(a: seq<Line>, b: seq<Line>)
    ensures Replayed(a, b, [], |a|, |b|, 0)
  {
  }

  lemma {:induction false} AllReplayed(a: seq<Line>, b: seq<Line>, rev: Script, c: int)
    requires Replayed(a, b, rev, 0, 0, c)
    ensures Transforms(Reversed(rev), a, b) && Cost(Reversed(rev)) == c
  {
    assert a[0..] == a && b[0..] == b;
  }

  lemma {:induction false} PushOp(a: seq<Line>, b: seq<Line>, rev: Script, x: int, y: int, c: int, op: DiffOp)
    requires Replayed(a, b, rev, x, y, c)
    requires op.Insert? || (x > 0 && op.line == a[x - 1])
    requires op.Delete? || (y > 0 && op.line == b[y - 1])
    ensures Replayed(a, b, rev + [op], x - |HeadOld(op)|, y - |HeadNew(op)|, c + Cost([op]))
  {
    ReversedSnoc(rev, op);
    SuffixBack(a, x, HeadOld(op));
    SuffixBack(b, y, HeadNew(op));
    PrependOp(op, Reversed(rev), a[x..], b[y..]);
  }

  lemma {:induction false} PrependOp(op: DiffOp, ops: Script, a: seq<Line>, b: seq<Line>)
    requires Transforms(ops, a, b)
    ensures Transforms([op] + ops, HeadOld(op) + a, HeadNew(op) + b)
    ensures Cost([op] + ops) == Cost(ops) + Cost([op])
  {
    OneOp(op);
    JoinScripts([op], HeadOld(op), HeadNew(op), ops, a, b);
  }

  lemma {:induction false} SuffixBack(a: seq<Line>, x: int, h: seq<Line>)
    requires 0 <= x <= |a| && (h == [] || (x > 0 && h == [a[x - 1]]))
    ensures h + a[x..] == a[x - |h|..]
  {
  }

  /** The replay stands on the furthest point of step d. */
  ghost predicate AtStep(a: seq<Line>, b: seq<Line>, trace: seq<seq<I32>>, d: int, j: int, x: int, y: int)
    requires 0 <= d < |trace|
  {
    var off := |a| + |b|;
    && Shape(trace[d], off, d) && OnStep(d, j) && 2 * j - d == x - y
    && trace[d][off + x - y] == x && Stepped(a, b, trace[d], off, d, j)
  }

  lemma {:induction false} StartAtEnd(a: seq<Line>, b: seq<Line>, trace: seq<seq<I32>>) returns (j: int)
    requires GoodTrace(a, b, trace)
    ensures AtStep(a, b, trace, |trace| - 1, j, |a|, |b|)
  {
    var d := |trace| - 1;
    assert Found(a, b, trace, d);
    j :| OnStep(d, j) && 2 * j - d == |a| - |b| && Stepped(a, b, trace[d], |a| + |b|, d, j);
  }

  /** The cell the replay moves to is the furthest point of step d - 1, because step d
      left the cells of the other parity alone. */
  lemma {:induction false} StepBack(a: seq<Line>, b: seq<Line>, trace: seq<seq<I32>>, d: int, j: int, i: int)
    requires 0 < d < |trace| && Saved(a, b, trace, d) && Missed(a, b, trace, d - 1)
    requires OnStep(d, j) && OnStep(d - 1, i) && (i == j || i == j - 1)
    ensures var px := trace[d][|a| + |b| + 2 * i - (d - 1)];
      && px >= 0 && px - (2 * i - (d - 1)) >= 0
      && AtStep(a, b, trace, d - 1, i, px, px - (2 * i - (d - 1)))
  {
    assert SameAt(trace[d - 1], trace[d], |a| + |b| + 2 * i - (d - 1));
    assert FarAt(a, b, trace[d - 1], |a| + |b|, d - 1, i);
  }

  /** The point (px, py) lies one row above (x, y), or one column to its left. */
  predicate OneAway(px: int, py: int, x: int, y: int) { (px == x && py == y - 1) || (px == x - 1 && py == y) }

  /** Walk a diagonal back to its start (x0, x0 - k), pushing Equal lines. The caller
      passes the point before the start, one column or one row away. */
  method WalkBack(a: seq<Line>, b: seq<Line>, rev: Script, x1: int, y1: int, px: int, py: int, ghost x0: int, ghost c: int)
    returns (out: Script, x: int, y: int)
    requires Replayed(a, b, rev, x1, y1, c) && Snake(a, b, x1 - y1, x0, x1)
    requires OneAway(px, py, x0, x0 - (x1 - y1))
    ensures x == x0 && y == x0 - (x1 - y1) && Replayed(a, b, out, x, y, c)
  {
    out, x, y := rev, x1, y1;
    while x > px && y > py
      invariant x0 <= x <= x1 && x - y == x1 - y1
      invariant Replayed(a, b, out, x, y, c)
    {
      assert MatchOn(a, b, x1 - y1, x - 1);
      PushOp(a, b, out, x, y, c, Equal(a[x - 1]));
      OneOp(Equal(a[x - 1]));
      out := out + [Equal(a[x - 1])];
      x, y := x - 1, y - 1;
    }
  }

  /** Push the edit that leads from the previous point to (x, y). */
  method PushEdit(a: seq<Line>, b: seq<Line>, rev: Script, x: int, y: int, px: int, py: int, ghost c: int)
    returns (out: Script)
    requires Replayed(a, b, rev, x, y, c) && px >= 0 && py >= 0
    requires OneAway(px, py, x, y)
    ensures Replayed(a, b, out, px, py, c + 1)
  {
    if x == px {
      PushOp(a, b, rev, x, y, c, Insert(b[py]));
      OneOp(Insert(b[py]));
      out := rev + [Insert(b[py])];
    } else {
      PushOp(a, b, rev, x, y, c, Delete(a[px]));
      OneOp(Delete(a[px]));
      out := rev + [Delete(a[px])];
    }
  }

  /** The neighbouring cell that step d came from. */
  method Previous(v: seq<I32>, off: int, d: int, k: int, ghost j: int) returns (prevX: int, prevK: int)
    requires Shape(v, off, d) && OnStep(d, j) && k == 2 * j - d
    ensures Down(v, off, d, j) ==> prevK == k + 1 && prevX == StartX(v, off, d, j)
    ensures !Down(v, off, d, j) ==> prevK == k - 1 && prevX == StartX(v, off, d, j) - 1
    ensures -off <= prevK <= off && prevX == v[off + prevK]
  {
    prevK := if k == -d || (k != d && v[off + k - 1] < v[off + k + 1]) then k + 1 else k - 1;
    prevX := v[off + prevK];
  }

  /** The point that step d came from, and where it entered the diagonal. */
  method Origin(a: seq<Line>, b: seq<Line>, trace: seq<seq<I32>>, d: int, x1: int, y1: int, ghost j: int)
    returns (prevX: int, prevY: int, ghost x0: int, ghost i: int)
    requires 0 < |a| && 0 < |b| && 0 <= d < |trace| && AtStep(a, b, trace, d, j, x1, y1)
    requires Saved(a, b, trace, d) && (d > 0 ==> Missed(a, b, trace, d - 1))
    ensures Snake(a, b, x1 - y1, x0, x1) && OneAway(prevX, prevY, x0, x0 - (x1 - y1))
    ensures d > 0 ==> prevX >= 0 && prevY >= 0 && AtStep(a, b, trace, d - 1, i, prevX, prevY)
    ensures d == 0 ==> x0 == 0 && x1 == y1
  {
    var k := x1 - y1;
    var prevK;
    prevX, prevK := Previous(trace[d], |a| + |b|, d, k, j);
    prevY := prevX - prevK;
    x0 := StartX(trace[d], |a| + |b|, d, j);
    i := 0;
    if d > 0 {
      i := if prevK > k then j else j - 1;
      StepBack(a, b, trace, d, j, i);
    }
  }

  /** One round of the replay: back along the diagonal, then one edit to step d - 1. */
  method ReplayStep(a: seq<Line>, b: seq<Line>, trace: seq<seq<I32>>, d: int, rev: Script, x1: int, y1: int,
                    ghost j: int, ghost c: int)
    returns (out: Script, x: int, y: int, ghost i: int)
    requires 0 < |a| && 0 < |b| && 0 <= d < |trace|
    requires Saved(a, b, trace, d) && (d > 0 ==> Missed(a, b, trace, d - 1))
    requires Replayed(a, b, rev, x1, y1, c) && AtStep(a, b, trace, d, j, x1, y1)
    ensures d > 0 ==> AtStep(a, b, trace, d - 1, i, x, y) && Replayed(a, b, out, x, y, c + 1)
    ensures d == 0 ==> x == 0 && y == 0 && Replayed(a, b, out, x, y, c)
  {
    var prevX, prevY;
    ghost var x0;
    prevX, prevY, x0, i := Origin(a, b, trace, d, x1, y1, j);
    out, x, y := WalkBack(a, b, rev, x1, y1, prevX, prevY, x0, c);
    if d > 0 {
      out := PushEdit(a, b, out, x, y, prevX, prevY, c);
      x, y := prevX, prevY;
    }
  }

  /** The backward replay: read the edit script off the trace. */
  method Backtrack(a: seq<Line>, b: seq<Line>, trace: seq<seq<I32>>) returns (ops: Script)
    requires 0 < |a| && 0 < |b| && GoodTrace(a, b, trace)
    ensures Transforms(ops, a, b) && Cost(ops) == Dist(a, b, |a|, |b|)
  {
    var rev: Script := [];
    var x, y, d := |a|, |b|, |trace| - 1;
    NothingReplayed(a, b);
    ghost var j := StartAtEnd(a, b, trace);
    while d >= 0
      invariant -1 <= d < |trace|
      invariant d >= 0 ==> Replayed(a, b, rev, x, y, |trace| - 1 - d) && AtStep(a, b, trace, d, j, x, y)
      invariant d < 0 ==> Replayed(a, b, rev, 0, 0, |trace| - 1)
    {
      assert Saved(a, b, trace, d) && (d > 0 ==> Missed(a, b, trace, d - 1));
      rev, x, y, j := ReplayStep(a, b, trace, d, rev, x, y, j, |trace| - 1 - d);
      d := d - 1;
    }
    AllReplayed(a, b, rev, |trace| - 1);
    ops := Reversed(rev);
  }

  /** The whole diff. Its script always turns `a` into `b`; it is a shortest one exactly when
      the search was attempted or there was nothing to find. */
  method Diff(a: seq<Line>, b: seq<Line>) returns (ops: Script)
    ensures Transforms(ops, a, b)
    ensures Shortest(ops, a, b) <==> |a| + |b| <= 50_000 || NoCommonLine(a, b)
  {
    if |a| == 0 && |b| == 0 {
      return [];
    }
    if |a| == 0 {
      ops := Inserts(b);
      CoarseScript(a, b);
      CoarseIsShortest(a, b);
      assert ops == Deletes(a) + Inserts(b);
      return;
    }
    if |b| == 0 {
      ops := Deletes(a);
      CoarseScript(a, b);
      CoarseIsShortest(a, b);
      assert ops == Deletes(a) + Inserts(b);
      return;
    }
    if |a| + |b| > MAX_DIFF_LINES {
      ops := Deletes(a) + Inserts(b);
      CoarseScript(a, b);
      CoarseIsShortest(a, b);
      return;
    }
    var trace := Search(a, b);
    ops := Backtrack(a, b, trace);
    DistIsShortest(ops, a, b);
  }
}
