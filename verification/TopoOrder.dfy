/** The order of commits in `gyt log`: Kahn's algorithm. */
module TopoOrder {
  import opened Bytes
  import opened Sorting

  datatype Node = Node(parents: seq<Id>, timestamp: int)

  type Graph = map<Id, Node>

  /** How often p is listed. */
  function Times(ps: seq<Id>, p: Id): nat {
    if ps == [] then 0 else (if ps[0] == p then 1 else 0) + Times(ps[1..], p)
  }

  /** The edges that lead from the commits of s to p, with repetition. */
  ghost function EdgesInto(g: Graph, s: set<Id>, p: Id): nat
    requires s <= g.Keys
  {
    if s == {} then 0
    else var c :| c in s; Times(g[c].parents, p) + EdgesInto(g, s - {c}, p)
  }

  lemma {:induction false} TimesPositive(ps: seq<Id>, p: Id)
    ensures Times(ps, p) > 0 <==> p in ps
  {
    if ps != [] {
      TimesPositive(ps[1..], p);
      assert ps == [ps[0]] + ps[1..];
    }
  }

  lemma {:induction false} TimesSplit(ps: seq<Id>, i: nat, p: Id)
    requires i < |ps|
    ensures Times(ps[i..], p) == (if ps[i] == p then 1 else 0) + Times(ps[i + 1..], p)
  {
    assert ps[i..][1..] == ps[i + 1..];
  }

  /** The count does not depend on which commit is taken first. */
  lemma {:induction false} EdgesSplit(g: Graph, s: set<Id>, c: Id, p: Id)
    requires s <= g.Keys && c in s
    ensures EdgesInto(g, s, p) == Times(g[c].parents, p) + EdgesInto(g, s - {c}, p)
    decreases |s|
  {
    var b :| b in s && EdgesInto(g, s, p) == Times(g[b].parents, p) + EdgesInto(g, s - {b}, p);
    if b != c {
      EdgesSplit(g, s - {b}, c, p);
      EdgesSplit(g, s - {c}, b, p);
      assert s - {b} - {c} == s - {c} - {b};
    }
  }

  lemma {:induction false} NoEdges(g: Graph, s: set<Id>, p: Id)
    requires s <= g.Keys
    ensures EdgesInto(g, s, p) == 0 <==> forall c :: c in s ==> p !in g[c].parents
    decreases |s|
  {
    if s != {} {
      var c :| c in s;
      EdgesSplit(g, s, c, p);
      NoEdges(g, s - {c}, p);
      TimesPositive(g[c].parents, p);
      assert forall b :: b in s ==> b == c || b in s - {c};
    }
  }

  // What the order promises.

  ghost predicate Distinct(out: seq<Id>) {
    forall i, j :: 0 <= i < j < |out| ==> out[i] != out[j]
  }

  /** Every commit that has out[j] as a parent was listed before it. */
  ghost predicate ChildrenFirst(g: Graph, out: seq<Id>) {
    forall j, c :: 0 <= j < |out| && c in g && out[j] in g[c].parents ==> c in out[..j]
  }

  ghost predicate Ranked(g: Graph, rank: map<Id, nat>) {
    && rank.Keys == g.Keys
    && forall c, p :: c in g && p in g && p in g[c].parents ==> rank[p] < rank[c]
  }

  ghost predicate Acyclic(g: Graph) { exists rank: map<Id, nat> :: Ranked(g, rank) }

  ghost predicate Listed(g: Graph, out: seq<Id>) {
    && Distinct(out)
    && (forall id :: id in out ==> id in g)
    && ChildrenFirst(g, out)
  }

  /** The in-degree counters while the commits of todo are still to be listed. */
  ghost predicate Counted(g: Graph, todo: set<Id>, indegree: map<Id, nat>) {
    && todo <= g.Keys
    && indegree.Keys == g.Keys
    && forall p :: p in g ==> indegree[p] == EdgesInto(g, todo, p)
  }

  /** The counters when the parents of one commit from slot i on are not yet counted down. */
  ghost predicate CountedMid(g: Graph, todo: set<Id>, rest: seq<Id>, indegree: map<Id, nat>) {
    && todo <= g.Keys
    && indegree.Keys == g.Keys
    && forall p :: p in g ==> indegree[p] == EdgesInto(g, todo, p) + Times(rest, p)
  }

  /** The commits whose counter is zero are those listed and those ready. */
  ghost predicate ReadyExact(g: Graph, out: seq<Id>, ready: seq<Id>, indegree: map<Id, nat>) {
    && Distinct(ready)
    && indegree.Keys == g.Keys
    && (forall id :: id in ready ==> id in g && id !in out)
    && forall id :: id in g ==> (indegree[id] == 0 <==> id in out || id in ready)
  }

  lemma {:induction false} CountDown(g: Graph, todo: set<Id>, rest: seq<Id>, indegree: map<Id, nat>)
    requires CountedMid(g, todo, rest, indegree) && rest != []
    ensures rest[0] in g ==> indegree[rest[0]] > 0
    ensures CountedMid(g, todo, rest[1..],
              if rest[0] in g then indegree[rest[0] := indegree[rest[0]] - 1] else indegree)
  {
    forall p | p in g
      ensures Times(rest, p) == (if rest[0] == p then 1 else 0) + Times(rest[1..], p)
    {
    }
  }

  lemma {:induction false} InsertDistinct(ready: seq<Id>, pos: nat, p: Id)
    requires pos <= |ready| && Distinct(ready) && p !in ready
    ensures Distinct(ready[..pos] + [p] + ready[pos..])
    ensures forall id :: id in ready[..pos] + [p] + ready[pos..] <==> id == p || id in ready
  {
    var s := ready[..pos] + [p] + ready[pos..];
    forall id ensures id in s <==> id == p || id in ready {
      assert ready == ready[..pos] + ready[pos..];
      if id in ready {
        assert id in ready[..pos] || id in ready[pos..];
      }
    }
    forall i, j | 0 <= i < j < |s| ensures s[i] != s[j] {
      assert s[i] == if i < pos then ready[i] else if i == pos then p else ready[i - 1];
      assert s[j] == if j < pos then ready[j] else if j == pos then p else ready[j - 1];
    }
  }

  /**
    * Counts the edge to one parent down, and makes the parent ready at zero. Where among the ready
    * commits it goes is left open: the search for the place runs on a list not sorted its way.
    */
  method CountParent(g: Graph, p: Id, indegree: map<Id, nat>, ready: seq<Id>, place: nat,
                     ghost todo: set<Id>, ghost rest: seq<Id>, ghost out: seq<Id>)
    returns (indegree': map<Id, nat>, ready': seq<Id>)
    requires rest != [] && rest[0] == p
    requires CountedMid(g, todo, rest, indegree) && ReadyExact(g, out, ready, indegree)
    ensures CountedMid(g, todo, rest[1..], indegree') && ReadyExact(g, out, ready', indegree')
  {
    CountDown(g, todo, rest, indegree);
    indegree', ready' := indegree, ready;
    if p in indegree {
      indegree' := indegree[p := indegree[p] - 1];
      if indegree'[p] == 0 {
        var pos := if place <= |ready| then place else |ready|;
        InsertDistinct(ready, pos, p);
        ready' := ready[..pos] + [p] + ready[pos..];
      }
    }
  }

  /** Counts the edges of one listed commit down. */
  method CountParents(g: Graph, id: Id, indegree: map<Id, nat>, ready: seq<Id>, place: (seq<Id>, Id) -> nat,
                      ghost todo: set<Id>, ghost out: seq<Id>)
    returns (indegree': map<Id, nat>, ready': seq<Id>)
    requires id in g
    requires CountedMid(g, todo, g[id].parents, indegree) && ReadyExact(g, out, ready, indegree)
    ensures Counted(g, todo, indegree') && ReadyExact(g, out, ready', indegree')
  {
    indegree', ready' := indegree, ready;
    var parents := g[id].parents;
    assert parents[0..] == parents;
    for i := 0 to |parents|
      invariant CountedMid(g, todo, parents[i..], indegree') && ReadyExact(g, out, ready', indegree')
    {
      assert parents[i..][1..] == parents[i + 1..];
      indegree', ready' := CountParent(g, parents[i], indegree', ready', place(ready', parents[i]), todo, parents[i..], out);
    }
    assert parents[|parents|..] == [];
  }

  /** The counters before anything is listed, built commit by commit in any order. */
  method CountAll(g: Graph) returns (indegree: map<Id, nat>)
    ensures Counted(g, g.Keys, indegree)
  {
    indegree := map id | id in g :: 0;
    var left := g.Keys;
    ghost var done: set<Id> := {};
    while left != {}
      invariant left <= g.Keys && done == g.Keys - left
      invariant Counted(g, done, indegree)
      decreases left
    {
      var c :| c in left;
      indegree := CountUp(g, c, indegree, done);
      left := left - {c};
      done := done + {c};
    }
    assert done == g.Keys;
  }

  method CountUp(g: Graph, c: Id, indegree: map<Id, nat>, ghost done: set<Id>)
    returns (indegree': map<Id, nat>)
    requires c in g && c !in done && Counted(g, done, indegree)
    ensures Counted(g, done + {c}, indegree')
  {
    indegree' := indegree;
    var parents := g[c].parents;
    for i := 0 to |parents|
      invariant indegree'.Keys == g.Keys
      invariant forall p :: p in g ==>
        indegree'[p] + Times(parents[i..], p) == EdgesInto(g, done, p) + Times(parents, p)
    {
      forall p | p in g
        ensures Times(parents[i..], p) == (if parents[i] == p then 1 else 0) + Times(parents[i + 1..], p)
      {
        TimesSplit(parents, i, p);
      }
      if parents[i] in g {
        indegree' := indegree'[parents[i] := indegree'[parents[i]] + 1];
      }
    }
    assert parents[|parents|..] == [];
    forall p | p in g ensures EdgesInto(g, done + {c}, p) == EdgesInto(g, done, p) + Times(parents, p) {
      EdgesSplit(g, done + {c}, c, p);
      assert done + {c} - {c} == done;
    }
  }

  /** The commits no other lists as a parent, in any order. */
  method CollectReady(g: Graph, indegree: map<Id, nat>) returns (ready: seq<Id>)
    requires indegree.Keys == g.Keys
    ensures ReadyExact(g, [], ready, indegree)
  {
    ready := [];
    var left := indegree.Keys;
    while left != {}
      invariant left <= g.Keys
      invariant Distinct(ready)
      invariant forall id :: id in ready <==> id in g && id !in left && indegree[id] == 0
      decreases left
    {
      var c :| c in left;
      left := left - {c};
      if indegree[c] == 0 {
        ready := ready + [c];
      }
    }
  }

  lemma {:induction false} DistinctByCount(s: seq<Id>)
    ensures Distinct(s) <==> forall x :: x in s ==> multiset(s)[x] == 1
  {
    if s != [] {
      var t, z := s[..|s| - 1], s[|s| - 1];
      DistinctByCount(t);
      assert s == t + [z];
      assert multiset(s) == multiset(t) + multiset{z};
      if Distinct(s) {
        assert forall i :: 0 <= i < |t| ==> s[i] != s[|t|];
        assert Distinct(t);
      }
      if forall x :: x in s ==> multiset(s)[x] == 1 {
        assert z in s;
        assert z !in multiset(t);
        assert z !in t;
        forall x | x in t ensures multiset(t)[x] == 1 {
          assert x in s;
        }
      }
    }
  }

  lemma {:induction false} PermutedReady(g: Graph, ready: seq<Id>, ready': seq<Id>, indegree: map<Id, nat>)
    requires ReadyExact(g, [], ready, indegree) && multiset(ready) == multiset(ready')
    ensures ReadyExact(g, [], ready', indegree)
  {
    DistinctByCount(ready);
    DistinctByCount(ready');
    forall x ensures x in ready <==> x in ready' {
      assert x in multiset(ready) <==> x in multiset(ready');
    }
  }

  function Stamp(g: Graph, id: Id): int { if id in g then g[id].timestamp else 0 }

  /** What holds between two commits listed: todo are the commits still to come. */
  ghost predicate Running(g: Graph, out: seq<Id>, ready: seq<Id>, indegree: map<Id, nat>, todo: set<Id>) {
    && Listed(g, out)
    && (forall id :: id in g ==> (id in todo <==> id !in out))
    && Counted(g, todo, indegree)
    && ReadyExact(g, out, ready, indegree)
  }

  /** A commit that no commit to come lists as a parent may be listed next. */
  lemma {:induction false} ListNext(g: Graph, out: seq<Id>, id: Id, todo: set<Id>)
    requires Listed(g, out) && id in g && id !in out && todo <= g.Keys
    requires forall c :: c in g ==> (c in todo <==> c !in out)
    requires EdgesInto(g, todo, id) == 0
    ensures Listed(g, out + [id])
  {
    NoEdges(g, todo, id);
    var next := out + [id];
    forall j, c | 0 <= j < |next| && c in g && next[j] in g[c].parents ensures c in next[..j] {
      if j < |out| {
        assert next[..j] == out[..j];
      } else {
        assert next[..j] == out;
      }
    }
  }

  lemma {:induction false} TakeOut(g: Graph, todo: set<Id>, id: Id, indegree: map<Id, nat>)
    requires Counted(g, todo, indegree) && id in todo
    ensures CountedMid(g, todo - {id}, g[id].parents, indegree)
  {
    forall p | p in g ensures EdgesInto(g, todo, p) == EdgesInto(g, todo - {id}, p) + Times(g[id].parents, p) {
      EdgesSplit(g, todo, id, p);
    }
  }

  /** The last ready commit is listed. */
  method ListOne(g: Graph, out: seq<Id>, ready: seq<Id>, indegree: map<Id, nat>,
                 place: (seq<Id>, Id) -> nat, ghost todo: set<Id>)
    returns (out': seq<Id>, ready': seq<Id>, indegree': map<Id, nat>, ghost todo': set<Id>)
    requires ready != [] && Running(g, out, ready, indegree, todo)
    ensures Running(g, out', ready', indegree', todo') && todo' < todo
  {
    var id := ready[|ready| - 1];
    ready' := ready[..|ready| - 1];
    assert forall x :: x in ready <==> x == id || x in ready';
    assert id !in ready';
    out' := out + [id];
    ListNext(g, out, id, todo);
    todo' := todo - {id};
    TakeOut(g, todo, id, indegree);
    assert ReadyExact(g, out', ready', indegree);
    indegree', ready' := CountParents(g, id, indegree, ready', place, todo', out');
  }

  /** If every commit to come is still waited for, the history has no ranking. */
  lemma {:induction false} AllWaiting(g: Graph, todo: set<Id>, rank: map<Id, nat>, top: Id)
    requires todo <= g.Keys && Ranked(g, rank) && top in todo
    requires forall id :: id in todo ==> EdgesInto(g, todo, id) != 0
    ensures exists c :: c in todo && rank[c] > rank[top]
  {
    NoEdges(g, todo, top);
  }

  ghost function Highest(s: set<Id>, rank: map<Id, nat>): (top: Id)
    requires s != {} && s <= rank.Keys
    ensures top in s && forall c :: c in s ==> rank[c] <= rank[top]
    decreases |s|
  {
    var a :| a in s;
    if s == {a} then a else
      var b := Highest(s - {a}, rank);
      assert forall c :: c in s ==> c == a || c in s - {a};
      if rank[a] > rank[b] then a else b
  }

  /** Position counted from the end is a ranking of a complete list. */
  lemma {:induction false} CompleteIsAcyclic(g: Graph, out: seq<Id>)
    requires Listed(g, out) && forall id :: id in g ==> id in out
    ensures Acyclic(g)
  {
    var rank: map<Id, nat> := map id | id in g :: PlaceFromEnd(out, id);
    forall c, p | c in g && p in g && p in g[c].parents ensures rank[p] < rank[c] {
      var j :| 0 <= j < |out| && out[j] == p;
      assert c in out[..j];
      var i :| 0 <= i < j && out[..j][i] == c;
      PlaceAt(out, i);
      PlaceAt(out, j);
    }
    assert Ranked(g, rank);
  }

  function PlaceFromEnd(out: seq<Id>, id: Id): nat {
    if out == [] || out[0] == id then |out| else PlaceFromEnd(out[1..], id)
  }

  lemma {:induction false} PlaceAt(out: seq<Id>, i: nat)
    requires Distinct(out) && i < |out|
    ensures PlaceFromEnd(out, out[i]) == |out| - i
  {
    if i > 0 {
      PlaceAt(out[1..], i - 1);
    }
  }

  lemma {:induction false} NothingReady(g: Graph, out: seq<Id>, indegree: map<Id, nat>, todo: set<Id>)
    requires Running(g, out, [], indegree, todo)
    ensures Acyclic(g) <==> forall id :: id in g ==> id in out
  {
    if Acyclic(g) && todo != {} {
      var rank :| Ranked(g, rank);
      var top := Highest(todo, rank);
      AllWaiting(g, todo, rank, top);
    }
    if forall id :: id in g ==> id in out {
      CompleteIsAcyclic(g, out);
    }
  }

  /**
    * Lists the commits: no commit twice, each after every commit that has it as a parent, and all
    * of them exactly when the history has no cycle. The counters are naturals, so none underflows,
    * also for a parent listed twice or one outside the map.
    */
  method Order(g: Graph, place: (seq<Id>, Id) -> nat) returns (out: seq<Id>)
    ensures Listed(g, out)
    ensures Acyclic(g) <==> forall id :: id in g ==> id in out
  {
    var indegree := CountAll(g);
    var found := CollectReady(g, indegree);
    var le := (a: Id, b: Id) => Stamp(g, a) >= Stamp(g, b);
    var ready := Sort(le, found);
    SortCorrect(le, found, 0);
    PermutedReady(g, found, ready, indegree);
    out := [];
    ghost var todo := g.Keys;
    while ready != []
      invariant Running(g, out, ready, indegree, todo)
      decreases todo
    {
      out, ready, indegree, todo := ListOne(g, out, ready, indegree, place, todo);
    }
    NothingReady(g, out, indegree, todo);
  }
}
