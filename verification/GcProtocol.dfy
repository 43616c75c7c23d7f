/** Garbage collection as a protocol of gc runs, uploads and ref updates. */
module GcProtocol {
  // Runs interleave freely; only the refs lock and the objects lock serialise them.

  import opened Bytes
  import opened Fetch
  import opened Reach

  type Pid = nat

  /** What never changes: the content of an id, the shallow commits, and the grace period. */
  datatype Repo = Repo(content: Id -> Obj, shallow: set<Id>, grace: nat)

  /** Where a process stands. */
  datatype Pc =
    | Idle
    | GcRefs                                                      // gc, holding refs.lock
    | GcBoth                                                      // ... and objects.lock
    | GcSampled(now: nat)                                         // ... the time was read
    | GcPruning(now: nat, reach: set<Id>, left: set<Id>)          // ... the walk is done
    | GcPacking(removing: set<Id>)                                // gc, holding refs.lock only
    | Uploading                                                   // objects/have, holding objects.lock
    | Updating                                                    // a command or refs/update, holding refs.lock

  predicate HoldsRefs(pc: Pc) {
    pc.GcRefs? || pc.GcBoth? || pc.GcSampled? || pc.GcPruning? || pc.GcPacking? || pc.Updating?
  }

  predicate HoldsObjects(pc: Pc) { pc.GcBoth? || pc.GcSampled? || pc.GcPruning? || pc.Uploading? }

  /** Loose objects carry a modification time, unless it cannot be read. */
  datatype Sys = Sys(
    loose: map<Id, Option<nat>>,
    packed: set<Id>,
    roots: set<Id>,
    clock: nat,
    refsLock: Option<Pid>,
    objectsLock: Option<Pid>,
    pc: map<Pid, Pc>)

  function PcOf(s: Sys, p: Pid): Pc { if p in s.pc then s.pc[p] else Idle }

  function Present(s: Sys): set<Id> { s.loose.Keys + s.packed }

  function StoreOf(r: Repo, s: Sys): Store { map id | id in Present(s) :: r.content(id) }

  /** Within the grace period; a time in the future counts as age zero. */
  predicate Young(r: Repo, now: nat, mtime: Option<nat>) {
    mtime.Some? && (if now >= mtime.value then now - mtime.value else 0) < r.grace
  }

  /** At least the grace period old, or of unreadable age. */
  predicate Old(r: Repo, now: nat, mtime: Option<nat>) {
    mtime.None? || r.grace == 0 || mtime.value + r.grace <= now
  }

  datatype Step =
    | Tick
    | LockRefs(p: Pid, forGc: bool)
    | LockObjects(p: Pid)
    | StartUpload(p: Pid)
    | Sample(p: Pid)
    | Walk(p: Pid, reach: set<Id>)
    | Prune(p: Pid, id: Id)
    | EndPrune(p: Pid)
    | WritePack(p: Pid, ids: set<Id>)
    | DropLoose(p: Pid, id: Id)
    | Write(p: Pid, id: Id)
    | SetRoots(p: Pid, roots: set<Id>)
    | Finish(p: Pid)

  ghost predicate Enabled(r: Repo, s: Sys, st: Step) {
    match st
    case Tick => true
    case LockRefs(p, _) => PcOf(s, p).Idle? && s.refsLock.None?
    case LockObjects(p) => PcOf(s, p).GcRefs? && s.objectsLock.None?
    case StartUpload(p) => PcOf(s, p).Idle? && s.objectsLock.None?
    case Sample(p) => PcOf(s, p).GcBoth?
    case Walk(p, reach) =>
      PcOf(s, p).GcSampled? && forall id :: id in reach <==> Live(StoreOf(r, s), r.shallow, s.roots, id)
    case Prune(p, id) => PcOf(s, p).GcPruning? && id in PcOf(s, p).left
    case EndPrune(p) => PcOf(s, p).GcPruning?
    case WritePack(p, ids) => PcOf(s, p).GcPacking? && ids <= s.loose.Keys
    case DropLoose(p, id) => PcOf(s, p).GcPacking? && id in PcOf(s, p).removing
    case Write(p, _) => PcOf(s, p).Uploading? || PcOf(s, p).Updating?
    case SetRoots(p, _) => PcOf(s, p).Updating?
    case Finish(p) => PcOf(s, p).GcRefs? || PcOf(s, p).GcPacking? || PcOf(s, p).Uploading? || PcOf(s, p).Updating?
  }

  function At(s: Sys, p: Pid, pc: Pc): Sys { s.(pc := s.pc[p := pc]) }

  /** The prune decision for one loose file. */
  predicate Prunable(r: Repo, s: Sys, pc: Pc, id: Id)
    requires pc.GcPruning?
  {
    id in s.loose && id !in pc.reach && !Young(r, pc.now, s.loose[id])
  }

  ghost function Do(r: Repo, s: Sys, st: Step): Sys
    requires Enabled(r, s, st)
  {
    match st
    case Tick => s.(clock := s.clock + 1)
    case LockRefs(p, forGc) => At(s, p, if forGc then GcRefs else Updating).(refsLock := Some(p))
    case LockObjects(p) => At(s, p, GcBoth).(objectsLock := Some(p))
    case StartUpload(p) => At(s, p, Uploading).(objectsLock := Some(p))
    case Sample(p) => At(s, p, GcSampled(s.clock))
    case Walk(p, reach) => At(s, p, GcPruning(PcOf(s, p).now, reach, s.loose.Keys))
    case Prune(p, id) =>
      var pc := PcOf(s, p);
      At(s, p, GcPruning(pc.now, pc.reach, pc.left - {id})).(loose := if Prunable(r, s, pc, id) then s.loose - {id} else s.loose)
    case EndPrune(p) => At(s, p, GcPacking({})).(objectsLock := None)
    case WritePack(p, ids) => At(s, p, GcPacking(ids)).(packed := s.packed + ids)
    case DropLoose(p, id) => At(s, p, GcPacking(PcOf(s, p).removing - {id})).(loose := s.loose - {id})
    case Write(p, id) => s.(loose := if id in s.loose then s.loose else s.loose[id := Some(s.clock)])
    case SetRoots(p, roots) => s.(roots := roots)
    case Finish(p) =>
      var pc := PcOf(s, p);
      At(s, p, Idle).(refsLock := if HoldsRefs(pc) then None else s.refsLock,
                      objectsLock := if HoldsObjects(pc) then None else s.objectsLock)
  }

  /** Each lock has the holder that its own program counter says, and no other. */
  ghost predicate LocksAgree(s: Sys) {
    forall p: Pid ::
      && (HoldsRefs(PcOf(s, p)) <==> s.refsLock == Some(p))
      && (HoldsObjects(PcOf(s, p)) <==> s.objectsLock == Some(p))
  }

  /** A pruning process knows exactly what is reachable now, not only when it walked. */
  ghost predicate PrunerKnows(r: Repo, s: Sys) {
    forall p: Pid :: PcOf(s, p).GcPruning? ==>
      forall id :: id in PcOf(s, p).reach <==> Live(StoreOf(r, s), r.shallow, s.roots, id)
  }

  ghost predicate PackedFirst(s: Sys) {
    forall p: Pid :: PcOf(s, p).GcPacking? ==> PcOf(s, p).removing <= s.packed
  }

  ghost predicate GcInv(r: Repo, s: Sys) { LocksAgree(s) && PrunerKnows(r, s) && PackedFirst(s) }

  /** No ref dangles: everything reachable is present. */
  ghost predicate RootsComplete(r: Repo, s: Sys) {
    forall id :: Live(StoreOf(r, s), r.shallow, s.roots, id) ==> id in Present(s)
  }

  /** A ref update that installs only tips whose closure is present. */
  ghost predicate Careful(r: Repo, s: Sys, st: Step) {
    st.SetRoots? ==> RootsComplete(r, s.(roots := st.roots))
  }

  lemma {:induction false} LocksKept(r: Repo, s: Sys, st: Step)
    requires LocksAgree(s) && Enabled(r, s, st)
    ensures LocksAgree(Do(r, s, st))
  {
  }

  lemma {:induction false} PackedKept(r: Repo, s: Sys, st: Step)
    requires PackedFirst(s) && LocksAgree(s) && Enabled(r, s, st)
    ensures PackedFirst(Do(r, s, st))
  {
    var t := Do(r, s, st);
    forall p: Pid | PcOf(t, p).GcPacking?
      ensures PcOf(t, p).removing <= t.packed
    {
      if PcOf(s, p).GcPacking? { assert PcOf(s, p).removing <= s.packed; }
    }
  }

  /** Only a prune makes an id disappear from disk. */
  lemma {:induction false} OnlyPruneRemoves(r: Repo, s: Sys, st: Step, id: Id)
    requires PackedFirst(s) && Enabled(r, s, st)
    requires id in Present(s) && id !in Present(Do(r, s, st))
    ensures st.Prune? && st.id == id && Prunable(r, s, PcOf(s, st.p), id)
  {
  }

  /** While a process prunes, no other step touches objects or roots. */
  lemma {:induction false} PrunerUndisturbed(r: Repo, s: Sys, st: Step, p: Pid)
    requires LocksAgree(s) && PackedFirst(s) && Enabled(r, s, st) && PcOf(s, p).GcPruning?
    ensures Do(r, s, st).roots == s.roots
    ensures st.Prune? || Present(Do(r, s, st)) == Present(s)
    ensures st.Prune? ==> st.p == p
  {
  }

  lemma {:induction false} SameStore(r: Repo, s: Sys, t: Sys)
    requires Present(s) == Present(t)
    ensures StoreOf(r, s) == StoreOf(r, t)
  {
  }

  /** Pruning one file leaves reachability as it was. */
  lemma {:induction false} PruneStepKeepsLive(r: Repo, s: Sys, st: Step)
    requires LocksAgree(s) && PrunerKnows(r, s) && PackedFirst(s) && Enabled(r, s, st) && st.Prune?
    ensures forall id :: Live(StoreOf(r, Do(r, s, st)), r.shallow, s.roots, id) <==> Live(StoreOf(r, s), r.shallow, s.roots, id)
  {
    var t := Do(r, s, st);
    forall x | x in StoreOf(r, s) && Live(StoreOf(r, s), r.shallow, s.roots, x)
      ensures x in StoreOf(r, t)
    {
      if x !in Present(t) { OnlyPruneRemoves(r, s, st, x); }
    }
    PruneKeepsAllLive(StoreOf(r, s), StoreOf(r, t), r.shallow, s.roots);
  }

  lemma {:induction false} KnowledgeKept(r: Repo, s: Sys, st: Step)
    requires GcInv(r, s) && Enabled(r, s, st)
    ensures PrunerKnows(r, Do(r, s, st))
  {
    var t := Do(r, s, st);
    if st.Prune? {
      PruneStepKeepsLive(r, s, st);
      forall p: Pid | PcOf(t, p).GcPruning?
        ensures PcOf(s, p).GcPruning? && PcOf(s, p).reach == PcOf(t, p).reach && t.roots == s.roots
      {
      }
    } else if st.Walk? {
      SameStore(r, s, t);
      assert t.roots == s.roots && StoreOf(r, t) == StoreOf(r, s);
      assert PcOf(t, st.p).reach == st.reach;
      forall p: Pid | PcOf(t, p).GcPruning?
        ensures p == st.p || PcOf(s, p) == PcOf(t, p)
      {
      }
    } else {
      forall p: Pid | PcOf(t, p).GcPruning?
        ensures PcOf(s, p) == PcOf(t, p) && StoreOf(r, t) == StoreOf(r, s) && t.roots == s.roots
      {
        PrunerUndisturbed(r, s, st, p);
        SameStore(r, s, t);
      }
    }
  }

  /** The protocol invariant holds in every reachable state. */
  lemma {:induction false} GcInvKept(r: Repo, s: Sys, st: Step)
    requires GcInv(r, s) && Enabled(r, s, st)
    ensures GcInv(r, Do(r, s, st))
  {
    LocksKept(r, s, st);
    PackedKept(r, s, st);
    KnowledgeKept(r, s, st);
  }

  /** With nothing dangling, adding objects makes nothing else reachable. */
  lemma {:induction false} GrowKeepsLive(small: Store, big: Store, shallow: set<Id>, seeds: set<Id>, id: Id, n: nat)
    requires forall x :: x in small ==> x in big && big[x] == small[x]
    requires forall x :: Live(small, shallow, seeds, x) ==> x in small
    requires LiveAt(big, shallow, seeds, id, n)
    ensures LiveAt(small, shallow, seeds, id, n)
    decreases n
  {
    if n > 0 {
      var u := LiveVia(big, shallow, seeds, id, n);
      GrowKeepsLive(small, big, shallow, seeds, u, n - 1);
      assert Live(small, shallow, seeds, u);
      LiveNext(small, shallow, seeds, u, id, n);
    }
  }

  lemma {:induction false} GrowKeepsComplete(r: Repo, s: Sys, t: Sys)
    requires RootsComplete(r, s) && t.roots == s.roots && Present(s) <= Present(t)
    ensures RootsComplete(r, t)
  {
    forall id | Live(StoreOf(r, t), r.shallow, t.roots, id)
      ensures id in Present(t)
    {
      var n: nat :| LiveAt(StoreOf(r, t), r.shallow, t.roots, id, n);
      GrowKeepsLive(StoreOf(r, s), StoreOf(r, t), r.shallow, s.roots, id, n);
      assert Live(StoreOf(r, s), r.shallow, s.roots, id);
    }
  }

  /** No step makes a ref dangle, whoever runs it and whatever else is in progress. */
  lemma {:induction false} CompleteKept(r: Repo, s: Sys, st: Step)
    requires GcInv(r, s) && RootsComplete(r, s) && Enabled(r, s, st) && Careful(r, s, st)
    ensures RootsComplete(r, Do(r, s, st))
  {
    var t := Do(r, s, st);
    if st.Prune? {
      PruneStepKeepsLive(r, s, st);
      forall id | Live(StoreOf(r, t), r.shallow, t.roots, id)
        ensures id in Present(t)
      {
        if id !in Present(t) { OnlyPruneRemoves(r, s, st, id); }
      }
    } else if st.SetRoots? {
      SameStore(r, t, s.(roots := st.roots));
    } else {
      forall id | id in Present(s) ensures id in Present(t) {
        if id !in Present(t) { OnlyPruneRemoves(r, s, st, id); }
      }
      GrowKeepsComplete(r, s, t);
    }
  }

  // ----- Whole runs -----

  /** A run: any interleaving of enabled steps of any number of processes. */
  ghost predicate Legal(r: Repo, s: Sys, steps: seq<Step>)
    decreases |steps|
  {
    steps == [] || (Enabled(r, s, steps[0]) && Legal(r, Do(r, s, steps[0]), steps[1..]))
  }

  ghost function Final(r: Repo, s: Sys, steps: seq<Step>): Sys
    requires Legal(r, s, steps)
    decreases |steps|
  {
    if steps == [] then s else Final(r, Do(r, s, steps[0]), steps[1..])
  }

  ghost predicate AllCareful(r: Repo, s: Sys, steps: seq<Step>)
    requires Legal(r, s, steps)
    decreases |steps|
  {
    steps == [] || (Careful(r, s, steps[0]) && AllCareful(r, Do(r, s, steps[0]), steps[1..]))
  }

  /** Nobody is at work. */
  predicate Quiet(s: Sys) { s.pc == map[] && s.refsLock.None? && s.objectsLock.None? }

  /** The invariant holds whenever nobody is at work, and so in every run from there. */
  lemma {:induction false} QuietInv(r: Repo, s: Sys)
    requires Quiet(s)
    ensures GcInv(r, s) && SampledPast(s)
    ensures s.roots == {} ==> RootsComplete(r, s)
  {
    NothingReachable(StoreOf(r, s), r.shallow);
  }

  /** In every run whose ref updates install complete tips, no ref ever dangles. */
  lemma {:induction false} NoRefDangles(r: Repo, s: Sys, steps: seq<Step>)
    requires GcInv(r, s) && RootsComplete(r, s) && Legal(r, s, steps) && AllCareful(r, s, steps)
    ensures RootsComplete(r, Final(r, s, steps)) && GcInv(r, Final(r, s, steps))
    decreases |steps|
  {
    if steps != [] {
      GcInvKept(r, s, steps[0]);
      CompleteKept(r, s, steps[0]);
      NoRefDangles(r, Do(r, s, steps[0]), steps[1..]);
    }
  }

  /** At a gc run's walk, id is reachable, packed, or young by the time that run sampled. */
  ghost predicate SafeAtWalk(r: Repo, s: Sys, st: Step, id: Id)
    requires Enabled(r, s, st)
  {
    st.Walk? ==> id in st.reach || id in s.packed || (id in s.loose && Young(r, PcOf(s, st.p).now, s.loose[id]))
  }

  ghost predicate SafeAtEveryWalk(r: Repo, s: Sys, steps: seq<Step>, id: Id)
    requires Legal(r, s, steps)
    decreases |steps|
  {
    steps == [] || (SafeAtWalk(r, s, steps[0], id) && SafeAtEveryWalk(r, Do(r, s, steps[0]), steps[1..], id))
  }

  /** id is present and no pruning process may remove it. */
  ghost predicate Held(r: Repo, s: Sys, id: Id) {
    && id in Present(s)
    && forall p: Pid :: PcOf(s, p).GcPruning? ==> id in s.packed || !Prunable(r, s, PcOf(s, p), id)
  }

  lemma {:induction false} HeldKept(r: Repo, s: Sys, st: Step, id: Id)
    requires GcInv(r, s) && Held(r, s, id) && Enabled(r, s, st) && SafeAtWalk(r, s, st, id)
    ensures Held(r, Do(r, s, st), id)
  {
    var t := Do(r, s, st);
    if id !in Present(t) { OnlyPruneRemoves(r, s, st, id); }
    forall p: Pid | PcOf(t, p).GcPruning?
      ensures id in t.packed || !Prunable(r, t, PcOf(t, p), id)
    {
      if PcOf(s, p).GcPruning? {
        PrunerUndisturbed(r, s, st, p);
      }
    }
  }

  /** In every run, an object that each gc run finds reachable, packed or young survives. */
  lemma {:induction false} Survives(r: Repo, s: Sys, steps: seq<Step>, id: Id)
    requires GcInv(r, s) && Held(r, s, id) && Legal(r, s, steps) && SafeAtEveryWalk(r, s, steps, id)
    ensures id in Present(Final(r, s, steps)) && Held(r, Final(r, s, steps), id)
    decreases |steps|
  {
    if steps != [] {
      GcInvKept(r, s, steps[0]);
      HeldKept(r, s, steps[0], id);
      Survives(r, Do(r, s, steps[0]), steps[1..], id);
    }
  }

  /** A sampled time is not in the future. */
  ghost predicate SampledPast(s: Sys) {
    forall p: Pid :: PcOf(s, p).GcSampled? || PcOf(s, p).GcPruning? ==> PcOf(s, p).now <= s.clock
  }

  /** id is packed, or loose with the time m. */
  ghost predicate Stamped(s: Sys, id: Id, m: nat) { id in s.packed || (id in s.loose && s.loose[id] == Some(m)) }

  lemma {:induction false} SampledKept(r: Repo, s: Sys, st: Step)
    requires SampledPast(s) && Enabled(r, s, st)
    ensures SampledPast(Do(r, s, st)) && s.clock <= Do(r, s, st).clock
  {
    var t := Do(r, s, st);
    forall p: Pid | PcOf(t, p).GcSampled? || PcOf(t, p).GcPruning?
      ensures PcOf(t, p).now <= t.clock
    {
      if PcOf(s, p).GcSampled? || PcOf(s, p).GcPruning? { assert PcOf(s, p).now <= s.clock; }
    }
  }

  lemma {:induction false} StampedKept(r: Repo, s: Sys, st: Step, id: Id, m: nat)
    requires PackedFirst(s) && SampledPast(s) && Stamped(s, id, m) && Enabled(r, s, st)
    requires s.clock < m + r.grace && r.grace > 0
    ensures Stamped(Do(r, s, st), id, m)
  {
  }

  lemma {:induction false} ClockForward(r: Repo, s: Sys, steps: seq<Step>)
    requires Legal(r, s, steps)
    ensures s.clock <= Final(r, s, steps).clock
    decreases |steps|
  {
    if steps != [] { ClockForward(r, Do(r, s, steps[0]), steps[1..]); }
  }

  /** The grace period, if there is one: in every run, an object with time m, which may lie ahead
      of the clock, is present for as long as the clock is before m plus the grace period,
      reachable or not. */
  lemma {:induction false} GraceProtects(r: Repo, s: Sys, steps: seq<Step>, id: Id, m: nat)
    requires GcInv(r, s) && SampledPast(s) && Stamped(s, id, m) && Legal(r, s, steps)
    requires r.grace > 0 && Final(r, s, steps).clock < m + r.grace
    ensures id in Present(Final(r, s, steps))
    decreases |steps|
  {
    if steps != [] {
      ClockForward(r, s, steps);
      GcInvKept(r, s, steps[0]);
      SampledKept(r, s, steps[0]);
      StampedKept(r, s, steps[0], id, m);
      GraceProtects(r, Do(r, s, steps[0]), steps[1..], id, m);
    }
  }

  /** So a tip whose whole closure met that condition can be installed at the end of the run. */
  lemma {:induction false} ClosureSurvives(r: Repo, s: Sys, steps: seq<Step>, closure: set<Id>, tip: Id)
    requires GcInv(r, s) && Legal(r, s, steps)
    requires forall id :: id in closure ==> Held(r, s, id) && SafeAtEveryWalk(r, s, steps, id)
    requires tip in closure
    requires forall u, id :: u in closure && LinksTo(StoreOf(r, s), r.shallow, u, id) ==> id in closure
    ensures forall id :: Live(StoreOf(r, Final(r, s, steps)), r.shallow, {tip}, id) ==> id in Present(Final(r, s, steps))
  {
    var t := Final(r, s, steps);
    forall id | id in closure ensures id in Present(t) { Survives(r, s, steps, id); }
    forall id | Live(StoreOf(r, t), r.shallow, {tip}, id)
      ensures id in closure
    {
      var n: nat :| LiveAt(StoreOf(r, t), r.shallow, {tip}, id, n);
      assert forall u, c :: u in closure && LinksTo(StoreOf(r, t), r.shallow, u, c) ==> LinksTo(StoreOf(r, s), r.shallow, u, c);
      LiveIsLeast(StoreOf(r, t), r.shallow, {tip}, closure, id, n);
    }
  }

  lemma {:induction false} RunCons(r: Repo, s: Sys, st: Step, rest: seq<Step>)
    requires Enabled(r, s, st) && Legal(r, Do(r, s, st), rest)
    ensures Legal(r, s, [st] + rest) && Final(r, s, [st] + rest) == Final(r, Do(r, s, st), rest)
  {
    assert ([st] + rest)[1..] == rest;
  }

  lemma {:induction false} NothingLive(store: Store, shallow: set<Id>, id: Id, n: nat)
    ensures !LiveAt(store, shallow, {}, id, n)
    decreases n
  {
    if LiveAt(store, shallow, {}, id, n) && n > 0 {
      var u := LiveVia(store, shallow, {}, id, n);
      NothingLive(store, shallow, u, n - 1);
    }
  }

  lemma {:induction false} NothingReachable(store: Store, shallow: set<Id>)
    ensures forall id :: !Live(store, shallow, {}, id)
  {
    forall id ensures !Live(store, shallow, {}, id) {
      forall n: nat ensures !LiveAt(store, shallow, {}, id, n) {
        NothingLive(store, shallow, id, n);
      }
    }
  }

  /** The gc run of the example below: with no roots, an old loose object is pruned. */
  lemma {:induction false} GcRunPrunes(r: Repo, s: Sys, id: Id) returns (gc: seq<Step>)
    requires s.roots == {} && (forall q: Pid :: PcOf(s, q).Idle?) && s.refsLock.None? && s.objectsLock.None?
    requires id in s.loose && id !in s.packed && Old(r, s.clock, s.loose[id])
    ensures Legal(r, s, gc) && id !in Present(Final(r, s, gc)) && Tick !in gc
  {
    var s1 := Do(r, s, LockRefs(2, true));
    var s2 := Do(r, s1, LockObjects(2));
    var s3 := Do(r, s2, Sample(2));
    NothingReachable(StoreOf(r, s3), r.shallow);
    var s4 := Do(r, s3, Walk(2, {}));
    RunCons(r, s4, Prune(2, id), []);
    RunCons(r, s3, Walk(2, {}), [Prune(2, id)] + []);
    RunCons(r, s2, Sample(2), [Walk(2, {})] + ([Prune(2, id)] + []));
    RunCons(r, s1, LockObjects(2), [Sample(2)] + ([Walk(2, {})] + ([Prune(2, id)] + [])));
    gc := [LockObjects(2)] + ([Sample(2)] + ([Walk(2, {})] + ([Prune(2, id)] + [])));
    RunCons(r, s, LockRefs(2, true), gc);
    gc := [LockRefs(2, true)] + gc;
  }

  /** Uploading an object that is already loose changes nothing, not even its time. Hence the
      grace period does not protect it: right after the upload, with no clock tick between, a
      gc run removes it. */
  lemma {:induction false} ReuploadUnprotected(r: Repo, s: Sys, p: Pid, id: Id) returns (steps: seq<Step>)
    requires s.roots == {} && s.refsLock.None? && s.objectsLock == Some(p)
    requires forall q: Pid :: PcOf(s, q) == if q == p then Uploading else Idle
    requires id in s.loose && id !in s.packed && Old(r, s.clock, s.loose[id])
    ensures steps != [] && steps[0] == Write(p, id) && Tick !in steps
    ensures Legal(r, s, steps) && id !in Present(Final(r, s, steps))
  {
    assert PcOf(s, p) == Uploading;
    var t := Do(r, s, Finish(p));
    assert t.objectsLock.None? && t.refsLock.None?;
    forall q: Pid ensures PcOf(t, q).Idle? {
      assert q != p ==> PcOf(s, q) == Idle;
    }
    var gc := GcRunPrunes(r, t, id);
    RunCons(r, s, Finish(p), gc);
    assert Do(r, s, Write(p, id)) == s;
    RunCons(r, s, Write(p, id), [Finish(p)] + gc);
    steps := [Write(p, id)] + ([Finish(p)] + gc);
  }

  /** The exact outcome of pruning one loose file. */
  lemma {:induction false} PruneExact(r: Repo, s: Sys, p: Pid, id: Id)
    requires GcInv(r, s) && Enabled(r, s, Prune(p, id)) && id in s.loose
    ensures id in Present(Do(r, s, Prune(p, id))) <==>
      || id in s.packed || Live(StoreOf(r, s), r.shallow, s.roots, id)
      || (s.loose[id].Some? && r.grace > 0 && PcOf(s, p).now < s.loose[id].value + r.grace)
  {
  }

  /** A loose file the prune pass spares: reachable, or with a readable time less than the grace
      period before the sampled time. */
  predicate Spared(r: Repo, now: nat, reach: set<Id>, loose: map<Id, Option<nat>>, id: Id) {
    && id in loose
    && (id in reach || (loose[id].Some? && r.grace > 0 && now < loose[id].value + r.grace))
  }

  /** How far p's prune pass, which began in state a, has come in state s. */
  ghost predicate Halfway(r: Repo, a: Sys, s: Sys, p: Pid) {
    && PcOf(a, p).GcPruning? && PcOf(s, p).GcPruning?
    && PcOf(s, p).now == PcOf(a, p).now && PcOf(s, p).reach == PcOf(a, p).reach
    && s.packed == a.packed
    && (forall id :: id in s.loose ==> id in a.loose && s.loose[id] == a.loose[id])
    && (forall id :: id in s.loose <==>
          (id in a.loose && id in PcOf(s, p).left) || Spared(r, PcOf(a, p).now, PcOf(a, p).reach, a.loose, id))
  }

  /** While p prunes, what is loose and what is packed change by its own prune steps only. */
  lemma {:induction false} OnlyItsPrunes(r: Repo, s: Sys, st: Step, p: Pid)
    requires LocksAgree(s) && Enabled(r, s, st) && PcOf(s, p).GcPruning? && st != EndPrune(p)
    ensures st.Prune? ==> st.p == p
    ensures !st.Prune? ==> PcOf(Do(r, s, st), p) == PcOf(s, p) && Do(r, s, st).loose == s.loose
    ensures Do(r, s, st).packed == s.packed
  {
  }

  lemma {:induction false} HalfwayStep(r: Repo, a: Sys, s: Sys, st: Step, p: Pid)
    requires LocksAgree(s) && Halfway(r, a, s, p) && Enabled(r, s, st) && st != EndPrune(p)
    ensures Halfway(r, a, Do(r, s, st), p)
  {
    OnlyItsPrunes(r, s, st, p);
    if st.Prune? {
      var t := Do(r, s, st);
      assert PcOf(t, p).left == PcOf(s, p).left - {st.id};
      assert forall id :: id != st.id ==> (id in t.loose <==> id in s.loose);
      assert st.id in t.loose <==> st.id in s.loose && !Prunable(r, s, PcOf(s, p), st.id);
    }
  }

  lemma {:induction false} HalfwayRun(r: Repo, a: Sys, s: Sys, steps: seq<Step>, p: Pid)
    requires GcInv(r, s) && Halfway(r, a, s, p) && Legal(r, s, steps) && EndPrune(p) !in steps
    ensures Halfway(r, a, Final(r, s, steps), p)
    decreases |steps|
  {
    if steps != [] {
      HalfwayStep(r, a, s, steps[0], p);
      GcInvKept(r, s, steps[0]);
      HalfwayRun(r, a, Do(r, s, steps[0]), steps[1..], p);
    }
  }

  /**
    * A whole prune pass, whatever runs beside it: from the walk to the last file visited, what
    * stays on disk is exactly what was packed, what was reachable, and the loose files with a
    * readable time less than the grace period before the sampled time. So an unreachable, unpacked
    * file at least that old is gone.
    */
  lemma {:induction false} PruneRunExact(r: Repo, s: Sys, p: Pid, reach: set<Id>, steps: seq<Step>, id: Id)
    requires GcInv(r, s) && Enabled(r, s, Walk(p, reach)) && Legal(r, Do(r, s, Walk(p, reach)), steps)
    requires var t := Final(r, Do(r, s, Walk(p, reach)), steps);
      EndPrune(p) !in steps && PcOf(t, p).GcPruning? && PcOf(t, p).left == {}
    ensures id in Present(Final(r, Do(r, s, Walk(p, reach)), steps)) <==>
      || id in s.packed
      || (id in s.loose && Live(StoreOf(r, s), r.shallow, s.roots, id))
      || (id in s.loose && s.loose[id].Some? && r.grace > 0 && PcOf(s, p).now < s.loose[id].value + r.grace)
  {
    var a := Do(r, s, Walk(p, reach));
    GcInvKept(r, s, Walk(p, reach));
    assert Halfway(r, a, a, p);
    HalfwayRun(r, a, a, steps, p);
  }
}
