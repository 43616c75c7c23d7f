/** Reachability in the object store, as garbage collection computes it. */
module Reach {
  import opened Bytes
  import opened Fetch

  /** What is on disk: the content of every present id. Content is pinned down by the id. */
  type Store = map<Id, Obj>

  /** The ids a present object keeps alive. Below a shallow commit nothing was fetched, and an
      object that does not decode keeps nothing alive. */
  function Links(store: Store, shallow: set<Id>, id: Id): seq<Id> {
    if id !in store then []
    else match store[id]
      case Commit(tree, parents) => [tree] + if id in shallow then [] else parents
      case o => Children(o)
  }

  ghost predicate LiveAt(store: Store, shallow: set<Id>, seeds: set<Id>, id: Id, n: nat)
    decreases n
  {
    if n == 0 then id in seeds
    else exists u :: LinksTo(store, shallow, u, id) && LiveAt(store, shallow, seeds, u, n - 1)
  }

  /** A present u keeps id alive. */
  ghost predicate LinksTo(store: Store, shallow: set<Id>, u: Id, id: Id) {
    u in store && match store[u]
      case Tree(entries) => id in entries
      case Commit(tree, parents) => id == tree || (u !in shallow && id in parents)
      case Tag(target) => id == target
      case _ => false
  }

  lemma {:induction false} LinksListed(store: Store, shallow: set<Id>, u: Id)
    ensures forall id :: id in Links(store, shallow, u) <==> LinksTo(store, shallow, u, id)
  {
  }

  lemma {:induction false} LiveVia(store: Store, shallow: set<Id>, seeds: set<Id>, id: Id, n: nat) returns (u: Id)
    requires n > 0 && LiveAt(store, shallow, seeds, id, n)
    ensures LinksTo(store, shallow, u, id) && LiveAt(store, shallow, seeds, u, n - 1)
  {
    u :| LinksTo(store, shallow, u, id) && LiveAt(store, shallow, seeds, u, n - 1);
  }

  lemma {:induction false} LiveNext(store: Store, shallow: set<Id>, seeds: set<Id>, u: Id, id: Id, n: nat)
    requires n > 0 && LinksTo(store, shallow, u, id) && LiveAt(store, shallow, seeds, u, n - 1)
    ensures LiveAt(store, shallow, seeds, id, n)
  {
  }

  /** id is reachable from the seeds. */
  ghost predicate Live(store: Store, shallow: set<Id>, seeds: set<Id>, id: Id) {
    exists n: nat :: LiveAt(store, shallow, seeds, id, n)
  }

  lemma {:induction false} LiveStep(store: Store, shallow: set<Id>, seeds: set<Id>, u: Id, id: Id)
    requires Live(store, shallow, seeds, u) && LinksTo(store, shallow, u, id)
    ensures Live(store, shallow, seeds, id)
  {
    var n: nat :| LiveAt(store, shallow, seeds, u, n);
    assert LiveAt(store, shallow, seeds, id, n + 1);
  }

  ghost predicate ClosedUnder(store: Store, shallow: set<Id>, s: set<Id>) {
    forall u, id :: u in s && LinksTo(store, shallow, u, id) ==> id in s
  }

  /** Reachability is the least set that contains the seeds and is closed under links. */
  lemma {:induction false} LiveIsLeast(store: Store, shallow: set<Id>, seeds: set<Id>, s: set<Id>, id: Id, n: nat)
    requires seeds <= s && ClosedUnder(store, shallow, s) && LiveAt(store, shallow, seeds, id, n)
    ensures id in s
    decreases n
  {
    if n > 0 {
      var u := LiveVia(store, shallow, seeds, id, n);
      LiveIsLeast(store, shallow, seeds, s, u, n - 1);
    }
  }

  /** Removing objects that are not reachable does not change what is reachable. */
  lemma {:induction false} PruneKeepsLive(store: Store, pruned: Store, shallow: set<Id>, seeds: set<Id>, id: Id, n: nat)
    requires forall x :: x in pruned ==> x in store && pruned[x] == store[x]
    requires forall x :: x in store && Live(store, shallow, seeds, x) ==> x in pruned
    ensures LiveAt(pruned, shallow, seeds, id, n) <==> LiveAt(store, shallow, seeds, id, n)
    decreases n
  {
    if n > 0 {
      if LiveAt(store, shallow, seeds, id, n) {
        var u := LiveVia(store, shallow, seeds, id, n);
        PruneKeepsLive(store, pruned, shallow, seeds, u, n - 1);
        assert Live(store, shallow, seeds, u);
        LiveNext(pruned, shallow, seeds, u, id, n);
      }
      if LiveAt(pruned, shallow, seeds, id, n) {
        var u := LiveVia(pruned, shallow, seeds, id, n);
        PruneKeepsLive(store, pruned, shallow, seeds, u, n - 1);
        LiveNext(store, shallow, seeds, u, id, n);
      }
    }
  }

  lemma {:induction false} PruneKeepsAllLive(store: Store, pruned: Store, shallow: set<Id>, seeds: set<Id>)
    requires forall x :: x in pruned ==> x in store && pruned[x] == store[x]
    requires forall x :: x in store && Live(store, shallow, seeds, x) ==> x in pruned
    ensures forall id :: Live(pruned, shallow, seeds, id) <==> Live(store, shallow, seeds, id)
  {
    forall id ensures Live(pruned, shallow, seeds, id) <==> Live(store, shallow, seeds, id) {
      if Live(pruned, shallow, seeds, id) {
        var n: nat :| LiveAt(pruned, shallow, seeds, id, n);
        PruneKeepsLive(store, pruned, shallow, seeds, id, n);
      }
      if Live(store, shallow, seeds, id) {
        var n: nat :| LiveAt(store, shallow, seeds, id, n);
        PruneKeepsLive(store, pruned, shallow, seeds, id, n);
      }
    }
  }

  /** Every id the walk can ever see: a finite bound for its termination. */
  ghost function Universe(store: Store, seeds: seq<Id>): set<Id> {
    Ids(seeds) + set u, c | u in store && c in Children(store[u]) :: c
  }

  lemma {:induction false} LinksInUniverse(store: Store, shallow: set<Id>, seeds: seq<Id>, u: Id)
    ensures forall id :: id in Links(store, shallow, u) ==> id in Universe(store, seeds)
  {
    if u in store {
      assert forall id :: id in Links(store, shallow, u) ==> id in Children(store[u]);
    }
  }

  /** The worklist: pop an id, mark it, queue what it links to. */
  method ComputeReachable(store: Store, shallow: set<Id>, seeds: seq<Id>) returns (reachable: set<Id>)
    ensures forall id :: id in reachable <==> Live(store, shallow, Ids(seeds), id)
  {
    reachable := {};
    var queue := seeds;
    assert forall id :: id in seeds ==> LiveAt(store, shallow, Ids(seeds), id, 0);
    while queue != []
      invariant Ids(seeds) <= reachable + Ids(queue) <= Universe(store, seeds)
      invariant forall id :: id in reachable || id in queue ==> Live(store, shallow, Ids(seeds), id)
      invariant forall u, id :: u in reachable && LinksTo(store, shallow, u, id) ==> id in reachable || id in queue
      decreases Universe(store, seeds) - reachable, |queue|
    {
      var id := queue[0];
      assert queue == [id] + queue[1..];
      queue := queue[1..];
      if id in reachable {
        continue;
      }
      LinksInUniverse(store, shallow, seeds, id);
      LinksListed(store, shallow, id);
      forall c | c in Links(store, shallow, id) ensures Live(store, shallow, Ids(seeds), c) {
        LiveStep(store, shallow, Ids(seeds), id, c);
      }
      reachable := reachable + {id};
      queue := queue + Links(store, shallow, id);
    }
    forall id | Live(store, shallow, Ids(seeds), id)
      ensures id in reachable
    {
      var n: nat :| LiveAt(store, shallow, Ids(seeds), id, n);
      LiveIsLeast(store, shallow, Ids(seeds), reachable, id, n);
    }
  }

  // After a fetch.

  /** What a fetch left on disk, with nothing else there. */
  ghost predicate Cloned(w: World, s: State, store: Store) {
    && Sane(w) && Delivered(w, s) && s.disk == store.Keys
    && forall id :: id in store ==> id in w.objs && store[id] == w.objs[id]
  }

  /** In a well-typed graph a commit of the closure was reached by parent links or as a tip. */
  lemma {:induction false} CommitIsNear(w: World, id: Id)
    requires Typed(w) && Wanted(w, id)
    ensures Near(w, id) || (id in w.objs ==> !w.objs[id].Commit?)
  {
    var n: nat :| ContentAt(w, id, n);
    if n > 0 {
      var t :| t in w.objs && w.objs[t].Tree? && id in w.objs[t].entries && ContentAt(w, t, n - 1);
      assert WellTyped(w, t);
    } else if !Near(w, id) {
      var c :| c in w.objs && w.objs[c].Commit? && w.objs[c].tree == id && Near(w, c);
      assert WellTyped(w, c);
    }
  }

  lemma {:induction false} TagTarget(w: World, u: Id)
    requires Typed(w) && Wanted(w, u) && u in w.objs && w.objs[u].Tag?
    ensures Wanted(w, w.objs[u].target)
  {
    TagIsTip(w, u);
    TargetLabelled(w, u, w.objs[u].target);
    LabelledIsNear(w, w.objs[u].target, 0);
    NearIsWanted(w, w.objs[u].target);
  }

  lemma {:induction false} NearTip(w: World, id: Id)
    requires IsTip(w, id)
    ensures Near(w, id) && Wanted(w, id)
  {
    assert Allowed(w, 0) && PathTo(w, id, 0);
    NearIsWanted(w, id);
  }

  /** A link that gc follows stays in the closure. */
  lemma {:induction false} LinkWanted(w: World, s: State, store: Store, u: Id, id: Id)
    requires Cloned(w, s, store) && Wanted(w, u) && LinksTo(store, s.boundary, u, id)
    ensures Wanted(w, id)
  {
    match store[u]
    case Tree(entries) =>
      EntryWanted(w, u, id);
    case Tag(_) => TagTarget(w, u);
    case Commit(tree, parents) =>
      CommitIsNear(w, u);
      if id == tree {
        NearIsWanted(w, id);
      } else {
        ShallowIsClosed(w, s, u, id);
        NearIsWanted(w, id);
      }
    case _ =>
  }

  lemma {:induction false} LiveWanted(w: World, s: State, store: Store, id: Id, n: nat)
    requires Cloned(w, s, store) && LiveAt(store, s.boundary, Ids(w.tips), id, n)
    ensures Wanted(w, id)
    decreases n
  {
    if n == 0 {
      assert TipAfter(w, id, 0);
      NearTip(w, id);
    } else {
      var u := LiveVia(store, s.boundary, Ids(w.tips), id, n);
      LiveWanted(w, s, store, u, n - 1);
      LinkWanted(w, s, store, u, id);
    }
  }

  lemma {:induction false} TipLive(w: World, s: State, store: Store, id: Id, n: nat)
    requires Cloned(w, s, store) && TipAfter(w, id, n)
    ensures Live(store, s.boundary, Ids(w.tips), id)
    decreases n
  {
    if n == 0 {
      assert LiveAt(store, s.boundary, Ids(w.tips), id, 0);
    } else {
      var t :| t in w.objs && w.objs[t] == Tag(id) && TipAfter(w, t, n - 1);
      TipLive(w, s, store, t, n - 1);
      NearTip(w, t);
      LiveStep(store, s.boundary, Ids(w.tips), t, id);
    }
  }

  lemma {:induction false} TipsLive(w: World, s: State, store: Store, id: Id)
    requires Cloned(w, s, store) && IsTip(w, id)
    ensures Live(store, s.boundary, Ids(w.tips), id)
  {
    var n: nat :| TipAfter(w, id, n);
    TipLive(w, s, store, id, n);
  }

  /** A commit with an allowed path through it is not cut off. */
  lemma {:induction false} NotCut(w: World, s: State, c: Id, n: nat)
    requires Delivered(w, s) && LimitOk(w) && NearCommit(w, c) && PathTo(w, c, n) && Allowed(w, n + 1)
    ensures c !in s.boundary
  {
    assert ShortestDepth(w, c, s.depth[c]);
  }

  lemma {:induction false} PathVia(w: World, id: Id, n: nat) returns (c: Id)
    requires n > 0 && PathTo(w, id, n)
    ensures c in w.objs && w.objs[c].Commit? && id in w.objs[c].parents && PathTo(w, c, n - 1)
  {
    c :| c in w.objs && w.objs[c].Commit? && id in w.objs[c].parents && PathTo(w, c, n - 1);
  }

  /** p is a parent of c, and an allowed path leads to it through c. */
  ghost predicate Through(w: World, c: Id, p: Id, n: nat) {
    c in w.objs && w.objs[c].Commit? && p in w.objs[c].parents && PathTo(w, c, n) && Allowed(w, n + 1)
  }

  lemma {:induction false} ParentLive(w: World, s: State, store: Store, c: Id, p: Id, n: nat)
    requires Cloned(w, s, store) && Through(w, c, p, n) && Live(store, s.boundary, Ids(w.tips), c)
    ensures Live(store, s.boundary, Ids(w.tips), p)
  {
    assert Allowed(w, n) && Near(w, c);
    NearIsWanted(w, c);
    NotCut(w, s, c, n);
    LiveStep(store, s.boundary, Ids(w.tips), c, p);
  }

  /** Whatever holds of the tips and is passed on to parents holds along every allowed path. */
  lemma {:induction false} AlongPaths(w: World, held: iset<Id>, id: Id, n: nat)
    requires forall x :: IsTip(w, x) ==> x in held
    requires forall c, p, k: nat :: Through(w, c, p, k) && c in held ==> p in held
    requires Allowed(w, n) && PathTo(w, id, n)
    ensures id in held
    decreases n
  {
    if n > 0 {
      var c := PathVia(w, id, n);
      AlongPaths(w, held, c, n - 1);
      assert Through(w, c, id, n - 1);
    }
  }

  lemma {:induction false} NearLive(w: World, s: State, store: Store, id: Id)
    requires Cloned(w, s, store) && Near(w, id)
    ensures Live(store, s.boundary, Ids(w.tips), id)
  {
    var held := iset x | Live(store, s.boundary, Ids(w.tips), x);
    forall x | IsTip(w, x) ensures x in held {
      TipsLive(w, s, store, x);
    }
    forall c, p, k: nat | Through(w, c, p, k) && c in held ensures p in held {
      ParentLive(w, s, store, c, p, k);
    }
    var n: nat :| Allowed(w, n) && PathTo(w, id, n);
    AlongPaths(w, held, id, n);
  }

  lemma {:induction false} ContentLive(w: World, s: State, store: Store, id: Id, n: nat)
    requires Cloned(w, s, store) && ContentAt(w, id, n)
    ensures Live(store, s.boundary, Ids(w.tips), id)
    decreases n
  {
    if n > 0 {
      var t :| t in w.objs && w.objs[t].Tree? && id in w.objs[t].entries && ContentAt(w, t, n - 1);
      ContentLive(w, s, store, t, n - 1);
      ContentIsWanted(w, t, n - 1);
      LiveStep(store, s.boundary, Ids(w.tips), t, id);
    } else if Near(w, id) {
      NearLive(w, s, store, id);
    } else {
      var c :| c in w.objs && w.objs[c].Commit? && w.objs[c].tree == id && Near(w, c);
      NearLive(w, s, store, c);
      NearIsWanted(w, c);
      LiveStep(store, s.boundary, Ids(w.tips), c, id);
    }
  }

  /** In a fresh clone, shallow or not, gc finds reachable exactly what the fetch had to deliver:
      nothing that was left out below the boundary, and nothing less. */
  lemma {:induction false} CloneIsReachable(w: World, s: State, store: Store, id: Id)
    requires Cloned(w, s, store)
    ensures Live(store, s.boundary, Ids(w.tips), id) <==> Wanted(w, id)
  {
    if Live(store, s.boundary, Ids(w.tips), id) {
      var n: nat :| LiveAt(store, s.boundary, Ids(w.tips), id, n);
      LiveWanted(w, s, store, id, n);
    }
    if Wanted(w, id) {
      var n: nat :| ContentAt(w, id, n);
      ContentLive(w, s, store, id, n);
    }
  }
}
