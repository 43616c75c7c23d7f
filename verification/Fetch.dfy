/** The depth-limited fetch: a label-correcting walk over the object graph. */
module Fetch {
  import opened Bytes

  datatype Obj =
    | Blob
    | Tree(entries: seq<Id>)
    | Commit(tree: Id, parents: seq<Id>)
    | Tag(target: Id)
    | Corrupt  // does not decode, or is not in canonical form

  /** The objects that exist, the advertised tips, and the depth limit of `--depth`. */
  datatype World = World(objs: map<Id, Obj>, tips: seq<Id>, limit: Option<nat>)

  const U32_MAX: nat := 0xFFFF_FFFF

  /** Saturating u32 addition of one, and the clamp it amounts to on a whole path. */
  function Inc(d: nat): nat { if d >= U32_MAX then U32_MAX else d + 1 }

  function Clamp(n: nat): nat { if n >= U32_MAX then U32_MAX else n }

  /** The local variables of the walk; `disk` is the local object store. */
  datatype State = State(
    wants: seq<Id>,
    downloaded: set<Id>,
    depth: map<Id, nat>,
    walkedAt: map<Id, nat>,
    boundary: set<Id>,
    disk: set<Id>)

  /** Queue an id, noting whether its bytes are already on disk. */
  function Enqueue(s: State, id: Id): State {
    s.(wants := s.wants + [id],
       downloaded := if id !in s.downloaded && id in s.disk then s.downloaded + {id} else s.downloaded)
  }

  function EnqueueAll(s: State, ids: seq<Id>): (r: State)
    ensures r.wants == s.wants + ids
    ensures s.downloaded <= r.downloaded <= s.downloaded + s.disk
    ensures r == s.(wants := r.wants, downloaded := r.downloaded)
    decreases |ids|
  {
    if ids == [] then s else EnqueueAll(Enqueue(s, ids[0]), ids[1..])
  }

  /** Lower the depth of p to d if that is an improvement, and queue p again in that case. */
  function Relax(s: State, p: Id, d: nat): State {
    if p !in s.depth || d < s.depth[p] then Enqueue(s.(depth := s.depth[p := d]), p) else s
  }

  /** What relaxing a list of parents to depth d does. */
  ghost predicate Relaxed(s: State, r: State, ps: seq<Id>, d: nat) {
    && r == s.(wants := r.wants, downloaded := r.downloaded, depth := r.depth)
    && s.downloaded <= r.downloaded <= s.downloaded + s.disk
    && s.wants <= r.wants
    && (forall x :: x in r.wants[|s.wants|..] ==> x in ps)
    && (forall p :: p in r.depth <==> p in s.depth || p in ps)
    && (forall p :: p in s.depth ==> r.depth[p] <= s.depth[p])
    && (forall p :: p in ps ==> r.depth[p] <= d)
    && (forall p :: p in r.depth ==>
          (p in s.depth && r.depth[p] == s.depth[p])
          || (r.depth[p] == d && p in ps && p in r.wants[|s.wants|..]))
  }

  function RelaxAll(s: State, ps: seq<Id>, d: nat): (r: State)
    decreases |ps|
  {
    if ps == [] then s else RelaxAll(Relax(s, ps[0], d), ps[1..], d)
  }

  lemma {:induction false} RelaxOne(s: State, p: Id, d: nat)
    ensures Relaxed(s, Relax(s, p, d), [p], d)
  {
  }

  lemma {:induction false} RelaxedTrans(s: State, m: State, r: State, p: Id, ps: seq<Id>, all: seq<Id>, d: nat)
    requires Relaxed(s, m, [p], d) && Relaxed(m, r, ps, d) && all == [p] + ps
    ensures Relaxed(s, r, all, d)
  {
    assert r.wants[|s.wants|..] == m.wants[|s.wants|..] + r.wants[|m.wants|..];
  }

  lemma {:induction false} RelaxAllEffect(s: State, ps: seq<Id>, d: nat)
    ensures Relaxed(s, RelaxAll(s, ps, d), ps, d)
    decreases |ps|
  {
    if ps != [] {
      var m := Relax(s, ps[0], d);
      RelaxOne(s, ps[0], d);
      RelaxAllEffect(m, ps[1..], d);
      assert ps == [ps[0]] + ps[1..];
      RelaxedTrans(s, m, RelaxAll(s, ps, d), ps[0], ps[1..], ps, d);
    }
  }

  /** The walk stops below a commit at depth d. */
  predicate Truncated(w: World, d: nat) { w.limit.Some? && Inc(d) >= w.limit.value }

  function DepthOf(s: State, id: Id): nat { if id in s.depth then s.depth[id] else 0 }

  function WalkCommit(w: World, s: State, id: Id, tree: Id, parents: seq<Id>): State {
    var d := DepthOf(s, id);
    if id in s.walkedAt && s.walkedAt[id] <= d then s
    else
      var s1 := Enqueue(s.(walkedAt := s.walkedAt[id := d]), tree);
      if Truncated(w, d) then
        if parents != [] then s1.(boundary := s1.boundary + {id}) else s1
      else
        RelaxAll(s1.(boundary := s1.boundary - {id}), parents, Inc(d))
  }

  /** Walk one downloaded object: queue what it references. `None` is an object that does not
      read back or decode. */
  function WalkOne(w: World, s: State, id: Id): Option<State> {
    if id !in w.objs then None
    else match w.objs[id]
      case Blob => Some(s)
      case Corrupt => None
      case Tree(entries) => Some(EnqueueAll(s, entries))
      case Tag(target) => Some(Relax(s, target, 0))
      case Commit(tree, parents) => Some(WalkCommit(w, s, id, tree, parents))
  }

  // ----- What the fetch is supposed to deliver -----

  /** id is a tip: advertised, or the target of a chain of n tags from an advertised id. */
  ghost predicate TipAfter(w: World, id: Id, n: nat)
    decreases n
  {
    if n == 0 then id in w.tips
    else exists t :: t in w.objs && w.objs[t] == Tag(id) && TipAfter(w, t, n - 1)
  }

  ghost predicate IsTip(w: World, id: Id) { exists n: nat :: TipAfter(w, id, n) }

  /** A path of n parent links leads from a tip to id. */
  ghost predicate PathTo(w: World, id: Id, n: nat)
    decreases n
  {
    if n == 0 then IsTip(w, id)
    else exists c :: c in w.objs && w.objs[c].Commit? && id in w.objs[c].parents && PathTo(w, c, n - 1)
  }

  /** Tips are always fetched; other commits only closer than the limit. */
  ghost predicate Allowed(w: World, n: nat) { n == 0 || w.limit.None? || n < w.limit.value }

  ghost predicate Near(w: World, id: Id) { exists n: nat :: Allowed(w, n) && PathTo(w, id, n) }

  ghost predicate TreeOfNear(w: World, id: Id) {
    exists c :: c in w.objs && w.objs[c].Commit? && w.objs[c].tree == id && Near(w, c)
  }

  /** id belongs to the depth-limited closure, n tree levels below a tip or a near commit. */
  ghost predicate ContentAt(w: World, id: Id, n: nat)
    decreases n
  {
    if n == 0 then Near(w, id) || TreeOfNear(w, id)
    else exists t :: t in w.objs && w.objs[t].Tree? && id in w.objs[t].entries && ContentAt(w, t, n - 1)
  }

  ghost predicate Wanted(w: World, id: Id) { exists n: nat :: ContentAt(w, id, n) }

  /** The recorded depth of id is the length of some allowed path, clamped to u32. */
  ghost predicate Labelled(w: World, id: Id, d: nat) {
    exists n: nat :: Allowed(w, n) && PathTo(w, id, n) && d == Clamp(n)
  }

  /** References point at objects of the right kind. */
  ghost predicate Typed(w: World) {
    forall id :: id in w.objs ==> WellTyped(w, id)
  }

  ghost predicate WellTyped(w: World, id: Id)
    requires id in w.objs
  {
    match w.objs[id]
    case Tree(entries) => forall e :: e in entries && e in w.objs ==> w.objs[e].Blob? || w.objs[e].Tree?
    case Commit(tree, parents) =>
      && (tree in w.objs ==> w.objs[tree].Tree?)
      && forall p :: p in parents && p in w.objs ==> w.objs[p].Commit?
    case _ => true
  }

  /** The limit is a u32. */
  ghost predicate LimitOk(w: World) { w.limit.Some? ==> w.limit.value <= U32_MAX }

  lemma {:induction false} ContentIsWanted(w: World, id: Id, n: nat)
    requires ContentAt(w, id, n)
    ensures Wanted(w, id)
  {
  }

  lemma {:induction false} NearIsWanted(w: World, id: Id)
    requires Near(w, id) || TreeOfNear(w, id)
    ensures Wanted(w, id)
  {
    ContentIsWanted(w, id, 0);
  }

  lemma {:induction false} EntryWanted(w: World, t: Id, e: Id)
    requires t in w.objs && w.objs[t].Tree? && e in w.objs[t].entries && Wanted(w, t)
    ensures Wanted(w, e)
  {
    var n: nat :| ContentAt(w, t, n);
    ContentIsWanted(w, e, n + 1);
  }

  /** In a well-typed graph only tips lead to tags. */
  lemma {:induction false} TagIsTip(w: World, t: Id)
    requires Typed(w) && Wanted(w, t)
    ensures IsTip(w, t) || (t in w.objs ==> !w.objs[t].Tag?)
  {
    var n: nat :| ContentAt(w, t, n);
    if n == 0 && Near(w, t) {
      var k: nat :| Allowed(w, k) && PathTo(w, t, k);
      if k > 0 {
        var c :| c in w.objs && w.objs[c].Commit? && t in w.objs[c].parents && PathTo(w, c, k - 1);
        assert WellTyped(w, c);
      }
    } else if n == 0 {
      var c :| c in w.objs && w.objs[c].Commit? && w.objs[c].tree == t && Near(w, c);
      assert WellTyped(w, c);
    } else {
      var u :| u in w.objs && w.objs[u].Tree? && t in w.objs[u].entries && ContentAt(w, u, n - 1);
      assert WellTyped(w, u);
    }
  }

  lemma {:induction false} TargetLabelled(w: World, t: Id, target: Id)
    requires t in w.objs && w.objs[t] == Tag(target) && IsTip(w, t)
    ensures Labelled(w, target, 0)
  {
    var n: nat :| TipAfter(w, t, n);
    assert TipAfter(w, target, n + 1);
    assert PathTo(w, target, 0) && Allowed(w, 0);
  }

  lemma {:induction false} ParentLabelled(w: World, c: Id, d: nat, p: Id)
    requires LimitOk(w) && c in w.objs && w.objs[c].Commit? && p in w.objs[c].parents
    requires Labelled(w, c, d) && !Truncated(w, d)
    ensures Labelled(w, p, Inc(d))
  {
    var n: nat :| Allowed(w, n) && PathTo(w, c, n) && d == Clamp(n);
    assert PathTo(w, p, n + 1);
    assert Allowed(w, n + 1);
  }

  lemma {:induction false} LabelledIsNear(w: World, id: Id, d: nat)
    requires Labelled(w, id, d)
    ensures Near(w, id)
  {
  }

  // ----- The invariant of the walk, for a server that ships what is asked -----

  ghost predicate Known(todo: set<Id>, walked: set<Id>, id: Id) { id in todo || id in walked }

  /** What holds of an id once it has been walked. */
  ghost predicate Settled(w: World, s: State, todo: set<Id>, walked: set<Id>, id: Id)
    requires id in w.objs
  {
    match w.objs[id]
    case Blob => true
    case Corrupt => false
    case Tree(entries) => forall e :: e in entries ==> Known(todo, walked, e)
    case Tag(target) => target in s.depth && s.depth[target] == 0
    case Commit(tree, parents) =>
      && id in s.walkedAt && id in s.depth && s.depth[id] <= s.walkedAt[id]
      && (id !in todo ==> s.walkedAt[id] == s.depth[id])
      && Known(todo, walked, tree)
      && (!Truncated(w, s.walkedAt[id]) ==> forall p :: p in parents ==> p in s.depth && s.depth[p] <= Inc(s.walkedAt[id]))
      && (id in s.boundary <==> Truncated(w, s.walkedAt[id]) && parents != [])
  }

  ghost predicate AllSettled(w: World, s: State, todo: set<Id>, walked: set<Id>) {
    forall id :: id in walked ==> id in w.objs && Settled(w, s, todo, walked, id)
  }

  /** id belongs to the closure, and has a label if it is a commit. */
  ghost predicate Queueable(w: World, s: State, id: Id) {
    Wanted(w, id) && (id in w.objs && w.objs[id].Commit? ==> id in s.depth)
  }

  /** Labels, queue and results are as they should be while `todo` is still to be walked. */
  ghost predicate Inv(w: World, s: State, todo: set<Id>, walked: set<Id>) {
    && (forall id :: id in s.depth ==> Labelled(w, id, s.depth[id]) && Known(todo, walked, id))
    && (forall id :: id in w.tips ==> id in s.depth && s.depth[id] == 0)
    && (forall id :: Known(todo, walked, id) ==> Queueable(w, s, id))
    && AllSettled(w, s, todo, walked)
    && s.boundary <= walked && s.walkedAt.Keys <= walked
    && (forall id :: id in s.boundary ==> id in w.objs && w.objs[id].Commit?)
  }

  function Ids(xs: seq<Id>): set<Id> { set x | x in xs }

  /** Once an id is settled it may move from the queue to the walked ids. */
  lemma {:induction false} MarkWalked(w: World, s: State, id: Id, rest: set<Id>, walked: set<Id>)
    requires Inv(w, s, {id} + rest, walked) && id in w.objs
    requires Settled(w, s, rest, walked + {id}, id)
    ensures Inv(w, s, rest, walked + {id})
  {
    assert forall j :: Known(rest, walked + {id}, j) <==> Known({id} + rest, walked, j);
    forall j | j in walked + {id}
      ensures j in w.objs && Settled(w, s, rest, walked + {id}, j)
    {
      if j != id { assert Settled(w, s, {id} + rest, walked, j); }
    }
  }

  /** Queueing wanted ids that are no unlabelled commits keeps the invariant. */
  lemma {:induction false} EnqueueKeeps(w: World, s: State, r: State, ids: seq<Id>, rest: set<Id>, walked: set<Id>)
    requires Inv(w, s, rest + Ids(s.wants), walked)
    requires r == s.(wants := s.wants + ids, downloaded := r.downloaded)
    requires forall x :: x in ids ==> Wanted(w, x) && (x in w.objs && w.objs[x].Commit? ==> x in s.depth)
    ensures Inv(w, r, rest + Ids(r.wants), walked)
  {
    var todo0, todo := rest + Ids(s.wants), rest + Ids(r.wants);
    assert forall j :: Known(todo, walked, j) <==> Known(todo0, walked, j) || j in ids;
    forall j | j in walked
      ensures j in w.objs && Settled(w, r, todo, walked, j)
    {
      assert Settled(w, s, todo0, walked, j);
    }
  }

  /** Relaxing towards labels that are path lengths keeps the invariant. */
  lemma {:induction false} RelaxKeeps(w: World, s: State, r: State, ps: seq<Id>, d: nat, rest: set<Id>, walked: set<Id>)
    requires Inv(w, s, rest + Ids(s.wants), walked) && Relaxed(s, r, ps, d)
    requires forall p :: p in ps ==> Labelled(w, p, d)
    ensures Inv(w, r, rest + Ids(r.wants), walked)
  {
    var todo0, todo := rest + Ids(s.wants), rest + Ids(r.wants);
    assert r.wants == s.wants + r.wants[|s.wants|..];
    assert forall j :: Known(todo, walked, j) <==> Known(todo0, walked, j) || j in r.wants[|s.wants|..];
    RelaxLabels(w, s, r, ps, d, todo0, todo, walked);
    RelaxQueue(w, s, r, ps, d, todo0, todo, walked);
    RelaxSettled(w, s, r, ps, d, todo0, todo, walked);
  }

  lemma {:induction false} RelaxLabels(w: World, s: State, r: State, ps: seq<Id>, d: nat, todo0: set<Id>,
                                       todo: set<Id>, walked: set<Id>)
    requires Inv(w, s, todo0, walked) && Relaxed(s, r, ps, d) && forall p :: p in ps ==> Labelled(w, p, d)
    requires forall j :: Known(todo, walked, j) <==> Known(todo0, walked, j) || j in r.wants[|s.wants|..]
    ensures forall id :: id in r.depth ==> Labelled(w, id, r.depth[id]) && Known(todo, walked, id)
    ensures forall id :: id in w.tips ==> id in r.depth && r.depth[id] == 0
  {
  }

  lemma {:induction false} RelaxQueue(w: World, s: State, r: State, ps: seq<Id>, d: nat, todo0: set<Id>,
                                      todo: set<Id>, walked: set<Id>)
    requires Inv(w, s, todo0, walked) && Relaxed(s, r, ps, d) && forall p :: p in ps ==> Labelled(w, p, d)
    requires forall j :: Known(todo, walked, j) <==> Known(todo0, walked, j) || j in r.wants[|s.wants|..]
    ensures forall id :: Known(todo, walked, id) ==> Queueable(w, r, id)
  {
    forall id | Known(todo, walked, id)
      ensures Queueable(w, r, id)
    {
      if Known(todo0, walked, id) {
        assert Queueable(w, s, id);
      } else {
        LabelledIsNear(w, id, d);
        NearIsWanted(w, id);
      }
    }
  }

  lemma {:induction false} RelaxSettled(w: World, s: State, r: State, ps: seq<Id>, d: nat, todo0: set<Id>,
                                        todo: set<Id>, walked: set<Id>)
    requires AllSettled(w, s, todo0, walked) && Relaxed(s, r, ps, d)
    requires todo0 <= todo && forall j :: j in r.wants[|s.wants|..] ==> j in todo
    ensures AllSettled(w, r, todo, walked)
  {
    forall j | j in walked
      ensures j in w.objs && Settled(w, r, todo, walked, j)
    {
      assert Settled(w, s, todo0, walked, j);
    }
  }

  /** Walking a blob, or a commit again at no smaller depth, changes nothing. */
  lemma {:induction false} WalkNothing(w: World, s: State, id: Id, rest: set<Id>, walked: set<Id>)
    requires Inv(w, s, {id} + rest, walked) && id in w.objs
    requires w.objs[id].Blob? || (w.objs[id].Commit? && id in s.walkedAt && s.walkedAt[id] <= DepthOf(s, id))
    ensures Inv(w, s, rest, walked + {id})
  {
    if id in walked { assert Settled(w, s, {id} + rest, walked, id); }
    MarkWalked(w, s, id, rest, walked);
  }

  lemma {:induction false} WalkTree(w: World, s: State, id: Id, rest: set<Id>, walked: set<Id>)
    requires Typed(w) && id in w.objs && w.objs[id].Tree?
    requires Inv(w, s, {id} + rest + Ids(s.wants), walked)
    ensures var r := EnqueueAll(s, w.objs[id].entries); Inv(w, r, rest + Ids(r.wants), walked + {id})
  {
    var ids := w.objs[id].entries;
    var r := EnqueueAll(s, ids);
    assert Known({id} + rest + Ids(s.wants), walked, id);
    assert WellTyped(w, id);
    forall x | x in ids ensures Wanted(w, x) { EntryWanted(w, id, x); }
    EnqueueKeeps(w, s, r, ids, {id} + rest, walked);
    assert {id} + rest + Ids(r.wants) == {id} + (rest + Ids(r.wants));
    assert forall x :: x in ids ==> x in r.wants;
    MarkWalked(w, r, id, rest + Ids(r.wants), walked);
  }

  lemma {:induction false} WalkTag(w: World, s: State, id: Id, rest: set<Id>, walked: set<Id>)
    requires Typed(w) && id in w.objs && w.objs[id].Tag?
    requires Inv(w, s, {id} + rest + Ids(s.wants), walked)
    ensures var r := Relax(s, w.objs[id].target, 0); Inv(w, r, rest + Ids(r.wants), walked + {id})
  {
    var t := w.objs[id].target;
    var r := Relax(s, t, 0);
    assert Known({id} + rest + Ids(s.wants), walked, id);
    TagIsTip(w, id);
    TargetLabelled(w, id, t);
    RelaxOne(s, t, 0);
    RelaxKeeps(w, s, r, [t], 0, {id} + rest, walked);
    assert {id} + rest + Ids(r.wants) == {id} + (rest + Ids(r.wants));
    assert t in [t];
    MarkWalked(w, r, id, rest + Ids(r.wants), walked);
  }

  /** Recording that commit id was walked at its current depth settles it. */
  lemma {:induction false} SettleCommit(w: World, s: State, r: State, id: Id, d: nat, rest: set<Id>, walked: set<Id>)
    requires id in w.objs && w.objs[id].Commit? && Inv(w, s, {id} + rest, walked)
    requires id in s.depth && s.depth[id] == d && Known(rest, walked + {id}, w.objs[id].tree)
    requires r == s.(walkedAt := s.walkedAt[id := d], boundary := r.boundary)
    requires r.boundary - {id} == s.boundary - {id}
    requires id in r.boundary <==> Truncated(w, d) && w.objs[id].parents != []
    requires !Truncated(w, d) ==> forall p :: p in w.objs[id].parents ==> p in s.depth && s.depth[p] <= Inc(d)
    ensures Inv(w, r, rest, walked + {id})
  {
    assert forall j :: Known(rest, walked + {id}, j) <==> Known({id} + rest, walked, j);
    forall j | j in walked + {id}
      ensures j in w.objs && Settled(w, r, rest, walked + {id}, j)
    {
      if j != id {
        assert Settled(w, s, {id} + rest, walked, j);
        SettledKept(w, s, r, id, d, rest, walked, j);
      }
    }
    forall j | j in r.boundary
      ensures j in walked + {id} && j in w.objs && w.objs[j].Commit?
    {
      assert j != id ==> j in r.boundary - {id};
    }
  }

  lemma {:induction false} SettledKept(w: World, s: State, r: State, id: Id, d: nat, rest: set<Id>,
                                       walked: set<Id>, j: Id)
    requires r == s.(walkedAt := s.walkedAt[id := d], boundary := r.boundary)
    requires r.boundary - {id} == s.boundary - {id} && j != id
    requires j in w.objs && Settled(w, s, {id} + rest, walked, j)
    ensures Settled(w, r, rest, walked + {id}, j)
  {
    assert forall k :: Known(rest, walked + {id}, k) <==> Known({id} + rest, walked, k);
    assert j in r.boundary <==> j in r.boundary - {id};
    assert j in s.boundary <==> j in s.boundary - {id};
  }

  /** A commit that is on the boundary was put there with parents. */
  lemma {:induction false} BoundaryHasParents(w: World, s: State, id: Id, todo: set<Id>, walked: set<Id>)
    requires Inv(w, s, todo, walked) && id in w.objs && w.objs[id].Commit?
    ensures id in s.boundary ==> w.objs[id].parents != []
  {
    if id in s.boundary { assert Settled(w, s, todo, walked, id); }
  }

  lemma {:induction false} TreeKnownWanted(w: World, id: Id, d: nat)
    requires Typed(w) && id in w.objs && w.objs[id].Commit? && Labelled(w, id, d)
    ensures Wanted(w, w.objs[id].tree)
    ensures w.objs[id].tree in w.objs ==> !w.objs[w.objs[id].tree].Commit?
  {
    LabelledIsNear(w, id, d);
    assert TreeOfNear(w, w.objs[id].tree);
    NearIsWanted(w, w.objs[id].tree);
    assert WellTyped(w, id);
  }

  /** Queueing the tree of a queued commit, which has a label. */
  lemma {:induction false} TreeQueued(w: World, s: State, a: State, id: Id, rest: set<Id>, walked: set<Id>)
    requires Typed(w) && id in w.objs && w.objs[id].Commit? && a == Enqueue(s, w.objs[id].tree)
    requires Inv(w, s, {id} + rest + Ids(s.wants), walked)
    ensures id in s.depth && Labelled(w, id, s.depth[id]) && Inv(w, a, {id} + rest + Ids(a.wants), walked)
  {
    assert Known({id} + rest + Ids(s.wants), walked, id);
    TreeKnownWanted(w, id, s.depth[id]);
    EnqueueKeeps(w, s, a, [w.objs[id].tree], {id} + rest, walked);
  }

  /** First visit, or a visit at a smaller depth, of a commit at the limit. */
  lemma {:induction false} WalkTruncated(w: World, s: State, r: State, id: Id, rest: set<Id>, walked: set<Id>)
    requires Typed(w) && id in w.objs && w.objs[id].Commit? && Truncated(w, DepthOf(s, id))
    requires Inv(w, s, {id} + rest + Ids(s.wants), walked)
    requires !(id in s.walkedAt && s.walkedAt[id] <= DepthOf(s, id))
    requires r == WalkCommit(w, s, id, w.objs[id].tree, w.objs[id].parents)
    ensures Inv(w, r, rest + Ids(r.wants), walked + {id})
  {
    var tree := w.objs[id].tree;
    var a := Enqueue(s, tree);
    TreeQueued(w, s, a, id, rest, walked);
    assert {id} + rest + Ids(a.wants) == {id} + (rest + Ids(a.wants));
    assert tree in a.wants;
    BoundaryHasParents(w, a, id, {id} + rest + Ids(a.wants), walked);
    SettleCommit(w, a, r, id, s.depth[id], rest + Ids(a.wants), walked);
  }

  /** First visit, or a visit at a smaller depth, of a commit above the limit. */
  lemma {:induction false} WalkParents(w: World, s: State, r: State, id: Id, rest: set<Id>, walked: set<Id>)
    requires Typed(w) && LimitOk(w) && id in w.objs && w.objs[id].Commit? && !Truncated(w, DepthOf(s, id))
    requires Inv(w, s, {id} + rest + Ids(s.wants), walked)
    requires !(id in s.walkedAt && s.walkedAt[id] <= DepthOf(s, id))
    requires r == WalkCommit(w, s, id, w.objs[id].tree, w.objs[id].parents)
    ensures Inv(w, r, rest + Ids(r.wants), walked + {id})
  {
    var tree, ps, d := w.objs[id].tree, w.objs[id].parents, DepthOf(s, id);
    var a := Enqueue(s, tree);
    var b := r.(walkedAt := s.walkedAt, boundary := s.boundary);
    TreeQueued(w, s, a, id, rest, walked);
    ParentsRelaxed(w, s, a, r, b, id, d);
    ParentsKeep(w, a, b, id, d, rest, walked);
    SettleCommit(w, b, r, id, d, rest + Ids(b.wants), walked);
  }

  lemma {:induction false} ParentsKeep(w: World, a: State, b: State, id: Id, d: nat, rest: set<Id>, walked: set<Id>)
    requires LimitOk(w) && id in w.objs && w.objs[id].Commit? && Labelled(w, id, d) && !Truncated(w, d)
    requires Inv(w, a, {id} + rest + Ids(a.wants), walked) && Relaxed(a, b, w.objs[id].parents, Inc(d))
    ensures Inv(w, b, {id} + (rest + Ids(b.wants)), walked)
  {
    var ps := w.objs[id].parents;
    forall p | p in ps ensures Labelled(w, p, Inc(d)) { ParentLabelled(w, id, d, p); }
    RelaxKeeps(w, a, b, ps, Inc(d), {id} + rest, walked);
    assert {id} + rest + Ids(b.wants) == {id} + (rest + Ids(b.wants));
  }

  /** Apart from the bookkeeping for id itself, walking its parents relaxes them to depth d + 1. */
  lemma {:induction false} ParentsRelaxed(w: World, s: State, a: State, r: State, b: State, id: Id, d: nat)
    requires id in w.objs && w.objs[id].Commit? && d == DepthOf(s, id) && !Truncated(w, d)
    requires !(id in s.walkedAt && s.walkedAt[id] <= d) && d <= U32_MAX
    requires a == Enqueue(s, w.objs[id].tree)
    requires r == WalkCommit(w, s, id, w.objs[id].tree, w.objs[id].parents)
    requires b == r.(walkedAt := s.walkedAt, boundary := s.boundary)
    ensures Relaxed(a, b, w.objs[id].parents, Inc(d)) && w.objs[id].tree in b.wants
    ensures id in s.depth ==> id in b.depth && b.depth[id] == d
    ensures r == b.(walkedAt := b.walkedAt[id := d], boundary := b.boundary - {id})
  {
    var ps := w.objs[id].parents;
    var a' := a.(walkedAt := s.walkedAt[id := d], boundary := s.boundary - {id});
    assert r == RelaxAll(a', ps, Inc(d));
    RelaxAllEffect(a', ps, Inc(d));
    RelaxedIgnores(a', r, a, b, ps, Inc(d));
    assert w.objs[id].tree in a.wants && a.wants <= b.wants;
  }

  lemma {:induction false} RelaxedIgnores(s: State, r: State, s': State, r': State, ps: seq<Id>, d: nat)
    requires Relaxed(s, r, ps, d)
    requires s' == s.(walkedAt := s'.walkedAt, boundary := s'.boundary)
    requires r' == r.(walkedAt := s'.walkedAt, boundary := s'.boundary)
    ensures Relaxed(s', r', ps, d)
  {
  }

  /** Walking one object of the queue keeps the invariant and settles that object. */
  lemma {:induction false} WalkKeeps(w: World, s: State, id: Id, rest: set<Id>, walked: set<Id>)
    requires Typed(w) && LimitOk(w) && id in w.objs && !w.objs[id].Corrupt?
    requires Inv(w, s, {id} + rest + Ids(s.wants), walked)
    ensures WalkOne(w, s, id).Some?
    ensures var r := WalkOne(w, s, id).value; Inv(w, r, rest + Ids(r.wants), walked + {id})
  {
    match w.objs[id]
    case Blob =>
      assert {id} + rest + Ids(s.wants) == {id} + (rest + Ids(s.wants));
      WalkNothing(w, s, id, rest + Ids(s.wants), walked);
    case Tree(_) => WalkTree(w, s, id, rest, walked);
    case Tag(_) => WalkTag(w, s, id, rest, walked);
    case Commit(_, _) =>
      if id in s.walkedAt && s.walkedAt[id] <= DepthOf(s, id) {
        assert {id} + rest + Ids(s.wants) == {id} + (rest + Ids(s.wants));
        WalkNothing(w, s, id, rest + Ids(s.wants), walked);
      } else if Truncated(w, DepthOf(s, id)) {
        WalkTruncated(w, s, WalkOne(w, s, id).value, id, rest, walked);
      } else {
        WalkParents(w, s, WalkOne(w, s, id).value, id, rest, walked);
      }
  }

  // ----- What the invariant gives when the queue is empty -----

  lemma {:induction false} TipZero(w: World, s: State, walked: set<Id>, id: Id, n: nat)
    requires Inv(w, s, {}, walked) && TipAfter(w, id, n)
    ensures id in s.depth && s.depth[id] == 0
    decreases n
  {
    if n > 0 {
      var t :| t in w.objs && w.objs[t] == Tag(id) && TipAfter(w, t, n - 1);
      TipZero(w, s, walked, t, n - 1);
      assert Known({}, walked, t);
      assert Settled(w, s, {}, walked, t);
    }
  }

  /** No path is shorter than the recorded depth. */
  lemma {:induction false} LabelBound(w: World, s: State, walked: set<Id>, id: Id, n: nat)
    requires Inv(w, s, {}, walked) && PathTo(w, id, n) && Allowed(w, n)
    ensures id in s.depth && s.depth[id] <= Clamp(n)
    decreases n
  {
    if n == 0 {
      var k: nat :| TipAfter(w, id, k);
      TipZero(w, s, walked, id, k);
    } else {
      var c :| c in w.objs && w.objs[c].Commit? && id in w.objs[c].parents && PathTo(w, c, n - 1);
      LabelBound(w, s, walked, c, n - 1);
      assert Known({}, walked, c);
      assert Settled(w, s, {}, walked, c);
    }
  }

  /** Every object of the depth-limited closure has been walked. */
  lemma {:induction false} WantedWalked(w: World, s: State, walked: set<Id>, id: Id, n: nat)
    requires Inv(w, s, {}, walked) && ContentAt(w, id, n)
    ensures id in walked
    decreases n
  {
    if n > 0 {
      var t :| t in w.objs && w.objs[t].Tree? && id in w.objs[t].entries && ContentAt(w, t, n - 1);
      WantedWalked(w, s, walked, t, n - 1);
      assert Settled(w, s, {}, walked, t);
      assert Known({}, walked, id);
    } else if Near(w, id) {
      var k: nat :| Allowed(w, k) && PathTo(w, id, k);
      LabelBound(w, s, walked, id, k);
      assert Known({}, walked, id);
    } else {
      var c :| c in w.objs && w.objs[c].Commit? && w.objs[c].tree == id && Near(w, c);
      var k: nat :| Allowed(w, k) && PathTo(w, c, k);
      LabelBound(w, s, walked, c, k);
      assert Known({}, walked, c);
      assert Settled(w, s, {}, walked, c);
    }
  }

  /** d is the length of a shortest path of parent links from a tip, clamped to u32. */
  ghost predicate ShortestDepth(w: World, id: Id, d: nat) {
    Labelled(w, id, d) && forall n: nat :: PathTo(w, id, n) ==> d <= Clamp(n)
  }

  ghost predicate NearCommit(w: World, id: Id) { id in w.objs && w.objs[id].Commit? && Near(w, id) }

  /** The result of a fetch: the whole depth-limited closure is on disk, every commit of it has
      its shortest depth, and the boundary is exactly the commits with parents at the limit. */
  ghost predicate Delivered(w: World, s: State) {
    && (forall id :: Wanted(w, id) ==> id in s.disk)
    && (forall id :: NearCommit(w, id) ==> id in s.depth && ShortestDepth(w, id, s.depth[id]))
    && (forall id :: id in s.boundary <==>
          NearCommit(w, id) && id in s.depth && Truncated(w, s.depth[id]) && w.objs[id].parents != [])
  }

  lemma {:induction false} NearShortest(w: World, s: State, walked: set<Id>, id: Id)
    requires Inv(w, s, {}, walked) && Near(w, id)
    ensures id in s.depth && ShortestDepth(w, id, s.depth[id])
  {
    var k: nat :| Allowed(w, k) && PathTo(w, id, k);
    LabelBound(w, s, walked, id, k);
    forall n: nat | PathTo(w, id, n)
      ensures s.depth[id] <= Clamp(n)
    {
      if Allowed(w, n) { LabelBound(w, s, walked, id, n); }
    }
  }

  lemma {:induction false} EmptyQueueDelivers(w: World, s: State, walked: set<Id>)
    requires Inv(w, s, {}, walked) && walked <= s.disk
    ensures Delivered(w, s)
  {
    forall id | Wanted(w, id)
      ensures id in walked
    {
      var n: nat :| ContentAt(w, id, n);
      WantedWalked(w, s, walked, id, n);
    }
    forall id | Near(w, id)
      ensures id in s.depth && ShortestDepth(w, id, s.depth[id])
    {
      NearShortest(w, s, walked, id);
    }
    forall id
      ensures id in s.boundary <==>
        NearCommit(w, id) && id in s.depth && Truncated(w, s.depth[id]) && w.objs[id].parents != []
    {
      BoundaryExact(w, s, walked, id);
    }
  }

  lemma {:induction false} BoundaryExact(w: World, s: State, walked: set<Id>, id: Id)
    requires Inv(w, s, {}, walked)
    ensures id in s.boundary <==>
      NearCommit(w, id) && id in s.depth && Truncated(w, s.depth[id]) && w.objs[id].parents != []
  {
    if id in s.depth && id in w.objs && w.objs[id].Commit? {
      assert Known({}, walked, id);
      assert Settled(w, s, {}, walked, id);
      LabelledIsNear(w, id, s.depth[id]);
    }
    if id in s.boundary {
      assert Settled(w, s, {}, walked, id);
    }
  }

  /** The stored boundary closes the history: every parent of a near commit that is not on the
      boundary is on disk. */
  lemma {:induction false} ShallowIsClosed(w: World, s: State, id: Id, p: Id)
    requires LimitOk(w) && Delivered(w, s) && NearCommit(w, id) && id !in s.boundary && p in w.objs[id].parents
    ensures Near(w, p) && p in s.disk
  {
    assert ShortestDepth(w, id, s.depth[id]);
    ParentLabelled(w, id, s.depth[id], p);
    LabelledIsNear(w, p, Inc(s.depth[id]));
    NearIsWanted(w, p);
  }

  // ----- Any server: what is written was asked for, and is reachable -----

  function Children(o: Obj): seq<Id> {
    match o
    case Tree(entries) => entries
    case Commit(tree, parents) => [tree] + parents
    case Tag(target) => [target]
    case _ => []
  }

  ghost predicate ReachAt(w: World, id: Id, n: nat)
    decreases n
  {
    if n == 0 then id in w.tips
    else exists u :: u in w.objs && id in Children(w.objs[u]) && ReachAt(w, u, n - 1)
  }

  /** id lies in the closure of the advertised refs. */
  ghost predicate Reachable(w: World, id: Id) { exists n: nat :: ReachAt(w, id, n) }

  lemma {:induction false} ChildReachable(w: World, u: Id, id: Id)
    requires u in w.objs && id in Children(w.objs[u]) && Reachable(w, u)
    ensures Reachable(w, id)
  {
    var n: nat :| ReachAt(w, u, n);
    assert ReachAt(w, id, n + 1);
  }

  /** Hashing gives an acyclic graph: children have a smaller rank. */
  ghost predicate Acyclic(objs: map<Id, Obj>, rank: Id -> nat) {
    forall u, c :: u in objs && c in Children(objs[u]) ==> rank(c) < rank(u)
  }

  lemma {:induction false} SuffixAfter(a: seq<Id>, t: Id, c: seq<Id>)
    requires a + [t] <= c
    ensures a <= c && forall x :: x in c[|a|..] ==> x == t || x in c[|a| + 1..]
  {
    assert c[|a|] == (a + [t])[|a|] == t;
    assert c[|a|..] == [t] + c[|a| + 1..];
  }

  lemma {:induction false} CommitQueuesChildren(w: World, s: State, r: State, id: Id, tree: Id, parents: seq<Id>)
    requires r == WalkCommit(w, s, id, tree, parents)
    ensures s.wants <= r.wants && r.disk == s.disk
    ensures s.downloaded <= r.downloaded <= s.downloaded + s.disk
    ensures forall x :: x in r.wants[|s.wants|..] ==> x == tree || x in parents
  {
    var d := DepthOf(s, id);
    var s1 := Enqueue(s.(walkedAt := s.walkedAt[id := d]), tree);
    if !(id in s.walkedAt && s.walkedAt[id] <= d) {
      var s2 := s1.(boundary := s1.boundary - {id});
      RelaxAllEffect(s2, parents, Inc(d));
      SuffixAfter(s.wants, tree, r.wants);
    }
  }

  /** Walking an object queues only children of it and does not touch the disk. */
  lemma {:induction false} WalkQueuesChildren(w: World, s: State, id: Id)
    requires WalkOne(w, s, id).Some?
    ensures var r := WalkOne(w, s, id).value;
      && s.wants <= r.wants && r.disk == s.disk
      && s.downloaded <= r.downloaded <= s.downloaded + s.disk
      && id in w.objs && forall x :: x in r.wants[|s.wants|..] ==> x in Children(w.objs[id])
  {
    match w.objs[id]
    case Tag(target) => RelaxOne(s, target, 0);
    case Commit(tree, parents) =>
      CommitQueuesChildren(w, s, WalkOne(w, s, id).value, id, tree, parents);
    case _ =>
  }

  /** The server: what it answers in a round to a set of wanted ids. `None` is a failed request
      or an unreadable reply. */
  type Server = (nat, set<Id>) -> Option<seq<Id>>

  /** Every wanted object exists and is well formed. */
  ghost predicate Healthy(w: World) {
    forall id :: Wanted(w, id) ==> id in w.objs && !w.objs[id].Corrupt?
  }

  /** The server ships exactly what is asked, in any order. */
  ghost predicate Obliging(server: Server) {
    forall k: nat, want: set<Id> :: server(k, want).Some? && Ids(server(k, want).value) == want
  }

  /** The object exists and is well formed. */
  predicate Readable(w: World, id: Id) { id in w.objs && w.objs[id] != Corrupt }

  /** An object of a reply is kept if it was asked for and hashes and decodes as it should. */
  predicate Acceptable(w: World, asked: set<Id>, id: Id) { id in asked && Readable(w, id) }

  lemma {:induction false} IdsNext(ids: seq<Id>, i: nat)
    requires i < |ids|
    ensures Ids(ids[..i + 1]) == Ids(ids[..i]) + {ids[i]}
  {
    assert ids[..i + 1] == ids[..i] + [ids[i]];
  }

  lemma {:induction false} OneMore(a: set<Id>, got: set<Id>, id: Id)
    ensures a + got + {id} == a + (got + {id})
    ensures id in a + got ==> a + got == a + (got + {id})
    ensures id !in a + got ==> |a + (got + {id})| == |a + got| + 1
  {
    assert id !in a + got ==> |(a + got) + {id}| == |a + got| + 1;
  }

  /** Check the objects of one reply, up to the first bad one, and write those not on disk. */
  method Store(w: World, disk0: set<Id>, reply: seq<Id>, asked: set<Id>)
    returns (got: set<Id>, disk: set<Id>, ok: bool, count: nat, ghost n: nat)
    ensures n <= |reply| && (forall j :: 0 <= j < n ==> Acceptable(w, asked, reply[j]))
    ensures n < |reply| ==> !Acceptable(w, asked, reply[n])
    ensures ok <==> n == |reply|
    ensures got == Ids(reply[..n]) && disk == disk0 + got && count == |disk| - |disk0|
  {
    got, disk, ok, count, n := {}, disk0, true, 0, 0;
    for i := 0 to |reply|
      invariant n == i && got == Ids(reply[..i]) && disk == disk0 + got && count == |disk| - |disk0|
      invariant forall j :: 0 <= j < i ==> Acceptable(w, asked, reply[j])
    {
      var id := reply[i];
      if !Acceptable(w, asked, id) {
        return got, disk, false, count, n;
      }
      IdsNext(reply, i);
      OneMore(disk0, got, id);
      if id !in disk {
        disk := disk + {id};
        count := count + 1;
      }
      got, n := got + {id}, n + 1;
    }
  }

  /** Take in one reply. `count` is the number of objects newly written. */
  method Receive(w: World, s: State, reply: seq<Id>, asked: set<Id>)
    returns (r: State, ok: bool, count: nat, ghost n: nat)
    ensures n <= |reply| && (forall j :: 0 <= j < n ==> Acceptable(w, asked, reply[j]))
    ensures n < |reply| ==> !Acceptable(w, asked, reply[n])
    ensures ok <==> n == |reply|
    ensures r == s.(downloaded := s.downloaded + Ids(reply[..n]), disk := s.disk + Ids(reply[..n]))
    ensures count == |r.disk| - |s.disk|
  {
    var got, disk;
    got, disk, ok, count, n := Store(w, s.disk, reply, asked);
    r := s.(downloaded := s.downloaded + got, disk := disk);
  }

  // ----- Any server: when the fetch succeeds -----

  /** The queued ids that are not on disk. */
  ghost function Missing(s: State): set<Id> { set x | x in s.wants && x !in s.disk }

  /** What round k brings in. */
  ghost function Shipped(server: Server, k: nat, asked: set<Id>): set<Id> {
    if asked == {} || server(k, asked).None? then {} else Ids(server(k, asked).value)
  }

  /** The request of round k, if there is one, is answered with asked-for, well-formed objects. */
  ghost predicate Answered(w: World, server: Server, k: nat, asked: set<Id>) {
    asked != {} ==> server(k, asked).Some? && forall x :: x in server(k, asked).value ==> x in asked && Readable(w, x)
  }

  /** Round k goes well: its request is answered, and what is queued and on disk can be read. */
  ghost predicate RoundGood(w: World, server: Server, k: nat, s: State) {
    Answered(w, server, k, Missing(s)) && forall x :: x in s.wants && x in s.disk ==> Readable(w, x)
  }

  /** Walk a batch from its i-th id on, skipping what was not shipped. */
  ghost function WalkAll(w: World, s: State, batch: seq<Id>, i: nat): Option<State>
    requires i <= |batch|
    decreases |batch| - i
  {
    if i == |batch| then Some(s)
    else if batch[i] !in s.downloaded then WalkAll(w, s, batch, i + 1)
    else
      match WalkOne(w, s, batch[i])
      case None => None
      case Some(r) => WalkAll(w, r, batch, i + 1)
  }

  /** The state with what round k brings in. */
  ghost function Fetched(s: State, server: Server, k: nat): State {
    var got := Shipped(server, k, Missing(s));
    s.(downloaded := s.downloaded + got, disk := s.disk + got)
  }

  /** What round k makes of the state. */
  ghost function RoundOf(w: World, server: Server, k: nat, s: State): Option<State> {
    WalkAll(w, Fetched(s, server, k).(wants := []), s.wants, 0)
  }

  /** What is downloaded is on disk, and what is queued and on disk counts as downloaded. */
  ghost predicate Marked(s: State, queued: seq<Id>) {
    s.downloaded <= s.disk && forall x :: x in queued && x in s.disk ==> x in s.downloaded
  }

  lemma {:induction false} EnqueueAllMarks(s: State, ids: seq<Id>)
    requires Marked(s, s.wants)
    ensures Marked(EnqueueAll(s, ids), EnqueueAll(s, ids).wants)
    decreases |ids|
  {
    if ids != [] { EnqueueAllMarks(Enqueue(s, ids[0]), ids[1..]); }
  }

  lemma {:induction false} RelaxAllMarks(s: State, ps: seq<Id>, d: nat)
    requires Marked(s, s.wants)
    ensures Marked(RelaxAll(s, ps, d), RelaxAll(s, ps, d).wants)
    decreases |ps|
  {
    if ps != [] { RelaxAllMarks(Relax(s, ps[0], d), ps[1..], d); }
  }

  lemma {:induction false} WalkMarks(w: World, s: State, id: Id)
    requires Marked(s, s.wants) && WalkOne(w, s, id).Some?
    ensures var r := WalkOne(w, s, id).value; Marked(r, r.wants) && r.disk == s.disk && s.downloaded <= r.downloaded
  {
    WalkQueuesChildren(w, s, id);
    match w.objs[id]
    case Tree(entries) => EnqueueAllMarks(s, entries);
    case Commit(tree, parents) =>
      var d := DepthOf(s, id);
      var s1 := Enqueue(s.(walkedAt := s.walkedAt[id := d]), tree);
      RelaxAllMarks(s1.(boundary := s1.boundary - {id}), parents, Inc(d));
    case _ =>
  }

  /** A batch is walked to its end exactly when what it holds of the disk can be read. */
  lemma {:induction false} WalkAllIff(w: World, s: State, batch: seq<Id>, i: nat)
    requires i <= |batch| && Marked(s, s.wants) && Marked(s, batch)
    ensures WalkAll(w, s, batch, i).Some? <==> forall j :: i <= j < |batch| && batch[j] in s.disk ==> Readable(w, batch[j])
    ensures WalkAll(w, s, batch, i).Some? ==>
      var r := WalkAll(w, s, batch, i).value; Marked(r, r.wants) && r.disk == s.disk
    decreases |batch| - i
  {
    if i < |batch| {
      if batch[i] !in s.downloaded {
        WalkAllIff(w, s, batch, i + 1);
      } else if WalkOne(w, s, batch[i]).Some? {
        WalkMarks(w, s, batch[i]);
        WalkAllIff(w, WalkOne(w, s, batch[i]).value, batch, i + 1);
      }
    }
  }

  /** A round goes through exactly when it goes well. */
  lemma {:induction false} RoundIff(w: World, server: Server, k: nat, s: State)
    requires Marked(s, s.wants) && Answered(w, server, k, Missing(s))
    ensures RoundOf(w, server, k, s).Some? <==> RoundGood(w, server, k, s)
    ensures RoundOf(w, server, k, s).Some? ==> var r := RoundOf(w, server, k, s).value; Marked(r, r.wants)
  {
    var got := Shipped(server, k, Missing(s));
    var mid := s.(wants := [], downloaded := s.downloaded + got, disk := s.disk + got);
    WalkAllIff(w, mid, s.wants, 0);
    assert forall x :: x in got ==> Readable(w, x);
    assert forall j :: 0 <= j < |s.wants| ==> s.wants[j] in s.wants;
    if WalkAll(w, mid, s.wants, 0).Some? {
      forall x | x in s.wants && x in s.disk ensures Readable(w, x) {
        var j :| 0 <= j < |s.wants| && s.wants[j] == x;
      }
    }
  }

  ghost predicate RoundAt(w: World, server: Server, states: seq<State>, k: nat)
    requires k + 1 < |states|
  {
    && states[k].wants != [] && RoundGood(w, server, k, states[k])
    && RoundOf(w, server, k, states[k]) == Some(states[k + 1])
  }

  /** The states of a fetch at the start of its rounds: every one but the last begins a round that
      goes well and leads to the next. */
  ghost predicate Rounds(w: World, server: Server, states: seq<State>) {
    states != [] && forall k: nat :: k + 1 < |states| ==> RoundAt(w, server, states, k)
  }

  /** The fetch ends well: every round went well, and nothing is left to ask for. */
  ghost predicate Succeeds(w: World, server: Server, states: seq<State>) {
    && Rounds(w, server, states) && states[|states| - 1].wants == []
    && forall k: nat :: k < |states| ==> RoundGood(w, server, k, states[k])
  }

  /** The fetch ends badly: its last round could not be done. */
  ghost predicate Fails(w: World, server: Server, states: seq<State>) {
    Rounds(w, server, states) && !RoundGood(w, server, |states| - 1, states[|states| - 1])
  }

  lemma {:induction false} RoundsNext(w: World, server: Server, states: seq<State>, next: State)
    requires Rounds(w, server, states)
    requires var k, s := |states| - 1, states[|states| - 1];
      s.wants != [] && RoundGood(w, server, k, s) && RoundOf(w, server, k, s) == Some(next)
    ensures Rounds(w, server, states + [next])
  {
    var more := states + [next];
    forall k: nat | k + 1 < |more| ensures RoundAt(w, server, more, k) {
      if k + 1 < |states| { assert RoundAt(w, server, states, k); }
    }
  }

  lemma {:induction false} RoundsEnd(w: World, server: Server, states: seq<State>)
    requires Rounds(w, server, states) && states[|states| - 1].wants == []
    ensures Succeeds(w, server, states)
  {
    forall k: nat | k < |states| ensures RoundGood(w, server, k, states[k]) {
      if k + 1 < |states| { assert RoundAt(w, server, states, k); }
    }
  }

  /** Queued ids are reachable and, by rank, at most b - 1 edges away from the leaves. */
  ghost predicate Sound(w: World, xs: seq<Id>, rank: Id -> nat, b: nat) {
    forall x :: x in xs ==> Reachable(w, x) && rank(x) < b
  }

  /** The conditions under which the fetch must succeed. */
  ghost predicate Sane(w: World) { Typed(w) && LimitOk(w) && Healthy(w) }

  lemma {:induction false} SoundAfterWalk(w: World, s: State, id: Id, rank: Id -> nat, b: nat)
    requires Acyclic(w.objs, rank) && Reachable(w, id) && rank(id) < b + 1
    requires WalkOne(w, s, id).Some? && Sound(w, s.wants, rank, b)
    ensures Sound(w, WalkOne(w, s, id).value.wants, rank, b)
  {
    var r := WalkOne(w, s, id).value;
    WalkQueuesChildren(w, s, id);
    assert r.wants == s.wants + r.wants[|s.wants|..];
    forall x | x in r.wants[|s.wants|..]
      ensures Reachable(w, x) && rank(x) < b
    {
      ChildReachable(w, id, x);
    }
  }

  /** Walking the next object of a batch keeps the invariant. */
  lemma {:induction false} BatchKeeps(w: World, s: State, batch: seq<Id>, i: nat, walked: set<Id>)
    requires Sane(w) && i < |batch| && Inv(w, s, Ids(batch[i..]) + Ids(s.wants), walked)
    ensures WalkOne(w, s, batch[i]).Some?
    ensures var r := WalkOne(w, s, batch[i]).value; Inv(w, r, Ids(batch[i + 1..]) + Ids(r.wants), walked + {batch[i]})
  {
    var id, rest := batch[i], Ids(batch[i + 1..]);
    assert Ids(batch[i..]) == {id} + rest by {
      assert batch[i..] == [id] + batch[i + 1..];
    }
    assert Known({id} + rest + Ids(s.wants), walked, id);
    assert Queueable(w, s, id);
    WalkKeeps(w, s, id, rest, walked);
  }

  /** Step 2 of a round: walk the batch; what it references is queued for the next round. */
  method WalkBatch(w: World, s0: State, batch: seq<Id>, ghost rank: Id -> nat, ghost b: nat,
                   ghost good: bool, ghost walked0: set<Id>)
    returns (s: State, ok: bool, ghost walked: set<Id>)
    requires Acyclic(w.objs, rank) && Sound(w, batch, rank, b + 1)
    requires s0.wants == [] && s0.downloaded <= s0.disk
    requires good ==> Sane(w) && Inv(w, s0, Ids(batch), walked0) && Ids(batch) <= s0.downloaded && walked0 <= s0.disk
    ensures s.disk == s0.disk && s.downloaded <= s.disk && Sound(w, s.wants, rank, b)
    ensures WalkAll(w, s0, batch, 0) == if ok then Some(s) else None
    ensures good ==> ok && Inv(w, s, Ids(s.wants), walked) && walked <= s.disk
  {
    s, walked := s0, walked0;
    assert batch[0..] == batch && Ids(batch) + Ids([]) == Ids(batch);
    for i := 0 to |batch|
      invariant s.disk == s0.disk && s0.downloaded <= s.downloaded <= s.disk && Sound(w, s.wants, rank, b)
      invariant WalkAll(w, s, batch, i) == WalkAll(w, s0, batch, 0)
      invariant good ==> Inv(w, s, Ids(batch[i..]) + Ids(s.wants), walked) && walked <= s.disk
    {
      var id := batch[i];
      assert id in Ids(batch);
      if id !in s.downloaded {
        continue;
      }
      if good {
        BatchKeeps(w, s, batch, i, walked);
      }
      match WalkOne(w, s, id)
      case None => return s, false, walked;
      case Some(r) =>
        SoundAfterWalk(w, s, id, rank, b);
        WalkQueuesChildren(w, s, id);
        s, walked := r, walked + {id};
    }
    ok := true;
    assert batch[|batch|..] == [];
    assert Ids([]) + Ids(s.wants) == Ids(s.wants);
  }

  /** An advertised ref. */
  datatype RefEntry = RefEntry(name: string, id: Id)

  predicate UserVisible(name: string) {
    || "refs/heads/" <= name
    || "refs/tags/" <= name
    || "refs/issues/" <= name
    || "refs/prs/" <= name
    || "refs/incidents/" <= name
  }

  const MIRRORED: seq<string> := ["heads", "tags", "issues", "prs", "incidents"]

  /** A ref is mirrored exactly when its name starts with one of the five namespaces. */
  lemma {:induction false} VisibleIff(name: string)
    ensures UserVisible(name) <==> exists i :: 0 <= i < |MIRRORED| && "refs/" + MIRRORED[i] + "/" <= name
  {
    assert "refs/heads/" == "refs/" + MIRRORED[0] + "/" && "refs/tags/" == "refs/" + MIRRORED[1] + "/";
    assert "refs/issues/" == "refs/" + MIRRORED[2] + "/" && "refs/prs/" == "refs/" + MIRRORED[3] + "/";
    assert "refs/incidents/" == "refs/" + MIRRORED[4] + "/";
  }

  /** The ids of the advertised refs in the namespaces that are mirrored. */
  function VisibleIds(refs: seq<RefEntry>): seq<Id> {
    if refs == [] then []
    else (if UserVisible(refs[0].name) then [refs[0].id] else []) + VisibleIds(refs[1..])
  }

  lemma {:induction false} VisibleSnoc(refs: seq<RefEntry>, r: RefEntry)
    ensures VisibleIds(refs + [r]) == VisibleIds(refs) + if UserVisible(r.name) then [r.id] else []
  {
    if refs == [] {
      assert [r][1..] == [];
    } else {
      Uncons(refs, [r]);
      VisibleSnoc(refs[1..], r);
      Assoc(if UserVisible(refs[0].name) then [refs[0].id] else [], VisibleIds(refs[1..]),
            if UserVisible(r.name) then [r.id] else []);
    }
  }

  /** Queue the tips at depth 0. */
  method Seed(refs: seq<RefEntry>, disk: set<Id>) returns (s: State)
    ensures s.wants == VisibleIds(refs) && s.disk == disk
    ensures forall id :: id in s.downloaded <==> id in VisibleIds(refs) && id in disk
    ensures (forall id :: id in s.depth <==> id in VisibleIds(refs)) && forall id :: id in s.depth ==> s.depth[id] == 0
    ensures s.walkedAt == map[] && s.boundary == {}
  {
    var wants: seq<Id>, downloaded: set<Id>, depth: map<Id, nat> := [], {}, map[];
    for i := 0 to |refs|
      invariant wants == VisibleIds(refs[..i])
      invariant forall id :: id in downloaded <==> id in wants && id in disk
      invariant forall id :: id in depth <==> id in wants
      invariant forall id :: id in depth ==> depth[id] == 0
    {
      var r := refs[i];
      assert refs[..i + 1] == refs[..i] + [r];
      VisibleSnoc(refs[..i], r);
      if UserVisible(r.name) {
        depth := if r.id in depth then depth else depth[r.id := 0];
        if r.id in disk {
          downloaded := downloaded + {r.id};
        }
        wants := wants + [r.id];
      }
    }
    assert refs[..|refs|] == refs;
    s := State(wants, downloaded, depth, map[], {}, disk);
  }

  lemma {:induction false} SeedInv(w: World, s: State)
    requires s.wants == w.tips && (forall id :: id in s.depth <==> id in w.tips)
    requires forall id :: id in s.depth ==> s.depth[id] == 0
    requires s.walkedAt == map[] && s.boundary == {}
    ensures Inv(w, s, Ids(s.wants), {})
  {
    forall id | id in w.tips
      ensures Labelled(w, id, 0) && Wanted(w, id)
    {
      assert TipAfter(w, id, 0);
      assert PathTo(w, id, 0) && Allowed(w, 0);
      NearIsWanted(w, id);
    }
  }

  lemma {:induction false} SeedSound(w: World, xs: seq<Id>, rank: Id -> nat) returns (b: nat)
    requires forall x :: x in xs ==> x in w.tips
    ensures Sound(w, xs, rank, b)
    decreases |xs|
  {
    if xs == [] {
      b := 0;
    } else {
      var c := SeedSound(w, xs[1..], rank);
      b := if rank(xs[0]) < c then c else rank(xs[0]) + 1;
      assert ReachAt(w, xs[0], 0);
      assert xs == [xs[0]] + xs[1..];
    }
  }

  /** Receiving objects leaves labels, queue and results as they were. */
  lemma {:induction false} ReceiveKeepsInv(w: World, s: State, r: State, todo: set<Id>, walked: set<Id>)
    requires Inv(w, s, todo, walked) && r == s.(wants := r.wants, downloaded := r.downloaded, disk := r.disk)
    ensures Inv(w, r, todo, walked)
  {
    forall id | id in walked
      ensures id in w.objs && Settled(w, r, todo, walked, id)
    {
      assert Settled(w, s, todo, walked, id);
    }
  }

  /** Step 1 of a round: fetch every queued id that is not on disk yet. */
  method FetchMissing(w: World, s0: State, server: Server, round: nat) returns (s: State, ok: bool, count: nat)
    requires Marked(s0, s0.wants)
    ensures ok <==> Answered(w, server, round, Missing(s0))
    ensures ok ==> s == Fetched(s0, server, round)
    ensures s == s0.(downloaded := s.downloaded, disk := s.disk)
    ensures s0.disk <= s.disk <= s0.disk + Missing(s0) && count == |s.disk| - |s0.disk|
  {
    s, ok, count := s0, true, 0;
    var toFetch := ToFetch(s0);
    ToFetchIs(s0);
    if toFetch != {} {
      match server(round, toFetch)
      case None => return s, false, 0;
      case Some(reply) =>
        ghost var n;
        s, ok, count, n := Receive(w, s0, reply, toFetch);
        ReplyDone(w, s0, server, round, reply, n, s);
    }
  }

  /** The queued ids that do not count as downloaded. */
  function ToFetch(s: State): set<Id> { set x | x in s.wants && x !in s.downloaded }

  lemma {:induction false} ToFetchIs(s: State)
    requires Marked(s, s.wants)
    ensures ToFetch(s) == Missing(s)
  {
  }

  lemma {:induction false} ReplyTaken(w: World, reply: seq<Id>, asked: set<Id>, n: nat)
    requires n <= |reply| && forall j :: 0 <= j < n ==> Acceptable(w, asked, reply[j])
    requires n < |reply| ==> !Acceptable(w, asked, reply[n])
    ensures n == |reply| <==> forall x :: x in reply ==> x in asked && Readable(w, x)
    ensures Ids(reply[..n]) <= asked && (n == |reply| ==> reply[..n] == reply)
  {
    if n == |reply| {
      assert reply[..n] == reply;
    } else {
      assert reply[n] in reply;
    }
  }

  lemma {:induction false} ReplyDone(w: World, s0: State, server: Server, k: nat, reply: seq<Id>, n: nat, s: State)
    requires Missing(s0) != {} && server(k, Missing(s0)) == Some(reply) && n <= |reply|
    requires forall j :: 0 <= j < n ==> Acceptable(w, Missing(s0), reply[j])
    requires n < |reply| ==> !Acceptable(w, Missing(s0), reply[n])
    requires s == s0.(downloaded := s0.downloaded + Ids(reply[..n]), disk := s0.disk + Ids(reply[..n]))
    ensures n == |reply| <==> Answered(w, server, k, Missing(s0))
    ensures n == |reply| ==> s == Fetched(s0, server, k)
    ensures s0.disk <= s.disk <= s0.disk + Missing(s0)
  {
    ReplyTaken(w, reply, Missing(s0), n);
  }

  /** With an obliging server everything that is queued gets downloaded. */
  lemma {:induction false} FetchKeeps(w: World, s: State, server: Server, k: nat, walked: set<Id>)
    requires Sane(w) && Obliging(server) && Inv(w, s, Ids(s.wants), walked) && Marked(s, s.wants)
    ensures Answered(w, server, k, Missing(s))
    ensures var r := Fetched(s, server, k); Inv(w, r, Ids(r.wants), walked) && Ids(r.wants) <= r.downloaded
  {
    var r := Fetched(s, server, k);
    ObligedReply(w, s, server, k, walked);
    ReceiveKeepsInv(w, s, r, Ids(s.wants), walked);
    forall x | x in Ids(s.wants) ensures x in r.downloaded {
      assert x in s.downloaded || x in Missing(s);
    }
  }

  /** An obliging server ships what is asked, and that is well formed. */
  lemma {:induction false} ObligedReply(w: World, s: State, server: Server, k: nat, walked: set<Id>)
    requires Sane(w) && Obliging(server) && Inv(w, s, Ids(s.wants), walked)
    ensures Answered(w, server, k, Missing(s)) && Shipped(server, k, Missing(s)) == Missing(s)
  {
    var asked := Missing(s);
    if asked != {} {
      forall x | x in server(k, asked).value ensures x in asked && Readable(w, x) {
        assert x in Ids(server(k, asked).value);
        assert Known(Ids(s.wants), walked, x);
        assert Queueable(w, s, x);
      }
    }
  }

  ghost predicate AllReachable(w: World, ids: set<Id>) { forall id :: id in ids ==> Reachable(w, id) }

  ghost predicate AllWanted(w: World, ids: set<Id>) { forall id :: id in ids ==> Wanted(w, id) }

  /** What is queued belongs to the closure. */
  lemma {:induction false} QueueWanted(w: World, s: State, walked: set<Id>, ids: set<Id>)
    requires Inv(w, s, Ids(s.wants), walked) && ids <= Ids(s.wants)
    ensures AllWanted(w, ids)
  {
    forall id | id in ids ensures Wanted(w, id) {
      assert Known(Ids(s.wants), walked, id);
      assert Queueable(w, s, id);
    }
  }

  lemma {:induction false} QueueReachable(w: World, xs: seq<Id>, rank: Id -> nat, b: nat, ids: set<Id>)
    requires Sound(w, xs, rank, b) && ids <= Ids(xs)
    ensures AllReachable(w, ids)
  {
    forall id | id in ids ensures Reachable(w, id) {
      assert id in xs;
    }
  }

  /** One round: fetch what is missing, then walk the batch. */
  method Round(w: World, s0: State, server: Server, round: nat, ghost rank: Id -> nat, ghost b: nat,
               ghost good: bool, ghost walked0: set<Id>)
    returns (s: State, ok: bool, count: nat, ghost walked: set<Id>)
    requires Acyclic(w.objs, rank) && Sound(w, s0.wants, rank, b + 1) && Marked(s0, s0.wants)
    requires good ==> Sane(w) && Obliging(server) && Inv(w, s0, Ids(s0.wants), walked0) && walked0 <= s0.disk
    ensures ok <==> RoundGood(w, server, round, s0)
    ensures ok ==> RoundOf(w, server, round, s0) == Some(s) && Marked(s, s.wants)
    ensures s0.disk <= s.disk <= s0.disk + Missing(s0) && count == |s.disk| - |s0.disk|
    ensures ok ==> Sound(w, s.wants, rank, b)
    ensures good ==> ok && Inv(w, s, Ids(s.wants), walked) && walked <= s.disk
  {
    walked := walked0;
    s, ok, count := FetchMissing(w, s0, server, round);
    if good {
      FetchKeeps(w, s0, server, round, walked0);
    }
    if !ok {
      return;
    }
    RoundIff(w, server, round, s0);
    var batch := s.wants;
    var s1 := s.(wants := []);
    if good {
      ReceiveKeepsInv(w, s, s1, Ids(batch), walked);
    }
    s, ok, walked := WalkBatch(w, s1, batch, rank, b, good, walked);
  }

  /** The state the fetch starts from: the visible refs are queued at depth 0. */
  ghost predicate Seeded(refs: seq<RefEntry>, disk: set<Id>, s: State) {
    && s.wants == VisibleIds(refs) && s.disk == disk && s.walkedAt == map[] && s.boundary == {}
    && (forall id :: id in s.downloaded <==> id in s.wants && id in disk)
    && (forall id :: id in s.depth <==> id in s.wants) && forall id :: id in s.depth ==> s.depth[id] == 0
  }

  /** Everything that is asked for in some round. */
  ghost function AskedIn(states: seq<State>): set<Id> {
    if states == [] then {} else Missing(states[|states| - 1]) + AskedIn(states[..|states| - 1])
  }

  /** The fetch. Whatever the server answers: it succeeds exactly when every round goes well, and
      every newly written id was asked for and is reachable from the advertised refs. An obliging
      server gets everything delivered. `shallow` is the list of boundary commits that is stored,
      if one is; `states` are the states at the start of the rounds. */
  method WalkAndFetch(objs: map<Id, Obj>, refs: seq<RefEntry>, limit: Option<nat>, disk: set<Id>,
                      server: Server, ghost rank: Id -> nat)
    returns (s: State, ok: bool, count: nat, shallow: Option<set<Id>>, ghost states: seq<State>)
    requires Acyclic(objs, rank)
    ensures states != [] && Seeded(refs, disk, states[0])
    ensures ok <==> Succeeds(World(objs, VisibleIds(refs), limit), server, states)
    ensures !ok <==> Fails(World(objs, VisibleIds(refs), limit), server, states)
    ensures ok ==> s == states[|states| - 1]
    ensures disk <= s.disk <= disk + AskedIn(states) && count == |s.disk| - |disk|
    ensures AllReachable(World(objs, VisibleIds(refs), limit), AskedIn(states))
    ensures Sane(World(objs, VisibleIds(refs), limit)) && Obliging(server) ==>
      && ok && Delivered(World(objs, VisibleIds(refs), limit), s)
      && AllWanted(World(objs, VisibleIds(refs), limit), s.disk - disk)
    ensures shallow == if ok && limit.Some? && s.boundary != {} then Some(s.boundary) else None
  {
    var w := World(objs, VisibleIds(refs), limit);
    ghost var good := Sane(w) && Obliging(server);
    ghost var walked: set<Id> := {};
    s := Seed(refs, disk);
    SeedInv(w, s);
    ghost var b := SeedSound(w, s.wants, rank);
    count, ok, shallow := 0, true, None;
    states := [s];
    FirstAsked(w, s, rank, b, good, walked);
    var round := 0;
    while s.wants != []
      invariant |states| == round + 1 && Seeded(refs, disk, states[0]) && s == states[round]
      invariant Rounds(w, server, states) && Marked(s, s.wants) && Sound(w, s.wants, rank, b)
      invariant disk <= s.disk <= disk + AskedIn(states) && count == |s.disk| - |disk|
      invariant AllReachable(w, AskedIn(states)) && (good ==> AllWanted(w, AskedIn(states)))
      invariant good ==> Inv(w, s, Ids(s.wants), walked) && walked <= s.disk
      decreases b
    {
      assert rank(s.wants[0]) < b;
      b := b - 1;
      var n;
      LastAsked(states);
      s, ok, n, walked := Round(w, s, server, round, rank, b, good, walked);
      count := count + n;
      if !ok {
        return;
      }
      RoundsNext(w, server, states, s);
      MoreAsked(w, states, s, rank, b, good, walked);
      states := states + [s];
      round := round + 1;
    }
    RoundsEnd(w, server, states);
    if limit.Some? && s.boundary != {} {
      shallow := Some(s.boundary);
    }
    if good {
      assert Ids(s.wants) == {};
      EmptyQueueDelivers(w, s, walked);
    }
  }

  lemma {:induction false} LastAsked(states: seq<State>)
    requires states != []
    ensures Missing(states[|states| - 1]) <= AskedIn(states)
  {
  }

  lemma {:induction false} FirstAsked(w: World, s: State, rank: Id -> nat, b: nat, good: bool, walked: set<Id>)
    requires Sound(w, s.wants, rank, b) && (good ==> Inv(w, s, Ids(s.wants), walked))
    ensures AllReachable(w, AskedIn([s])) && (good ==> AllWanted(w, AskedIn([s])))
  {
    assert [s][..0] == [];
    QueueReachable(w, s.wants, rank, b, Missing(s));
    if good { QueueWanted(w, s, walked, Missing(s)); }
  }

  lemma {:induction false} MoreAsked(w: World, states: seq<State>, s: State, rank: Id -> nat, b: nat, good: bool, walked: set<Id>)
    requires AllReachable(w, AskedIn(states)) && Sound(w, s.wants, rank, b)
    requires good ==> AllWanted(w, AskedIn(states)) && Inv(w, s, Ids(s.wants), walked)
    ensures AskedIn(states + [s]) == Missing(s) + AskedIn(states)
    ensures AllReachable(w, AskedIn(states + [s])) && (good ==> AllWanted(w, AskedIn(states + [s])))
  {
    assert (states + [s])[..|states|] == states;
    QueueReachable(w, s.wants, rank, b, Missing(s));
    if good { QueueWanted(w, s, walked, Missing(s)); }
  }
}
