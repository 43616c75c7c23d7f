/** CI concurrency slots over lock files, one file operation per step. */
module CiLock {
  // Creating a lock file and writing the pid into it is one step, and every lock file gets a
  // modification time of its own. Everything else interleaves freely: a process may be delayed
  // between any two of its steps for any length of time.

  import opened Bytes

  type Pid = nat
  type Key = string

  datatype LockFile = LockFile(pid: Pid, mtime: nat)

  /** One entry into a domain: the domain key and the random nonce of this run. */
  datatype Entry = Entry(key: Key, token: nat)

  datatype Pc =
    | Out
    | Parallel                                                        // an inert slot: no lock, no marker
    | Stealing(e: Entry)                                              // Interrupt: about to overwrite the nonce
    | Trying(e: Entry)                                                // about to create the lock file
    | Stat1(e: Entry)                                                 // it exists: about to read its mtime
    | Read1(e: Entry, m1: nat)                                        // about to read its pid
    | Decide1(e: Entry, m1: nat, pid1: Option<Pid>)                   // old, and its pid dead?
    | Stat2(e: Entry, m1: nat, pid1: Option<Pid>)                     // after the short sleep: re-read mtime
    | Read2(e: Entry, m1: nat, pid1: Option<Pid>, m2: nat)            // ... and pid
    | Decide2(e: Entry, m1: nat, pid1: Option<Pid>, m2: nat, pid2: Option<Pid>)
    | Unlink(e: Entry)                                                // about to delete the stale file
    | Acquired(e: Entry)                                              // created the file; about to publish the nonce
    | Running(e: Entry)
    | DropRead(e: Entry)                                              // about to read the marker
    | DropRemove(e: Entry, mine: bool)                                // about to remove it if it was ours
    | Releasing(e: Entry)                                             // about to delete the lock file
    | Dead

  predicate Holds(pc: Pc) {
    pc.Acquired? || pc.Running? || pc.DropRead? || pc.DropRemove? || pc.Releasing?
  }

  datatype Sys = Sys(
    locks: map<Key, LockFile>,
    markers: map<Key, nat>,
    clock: nat,
    nextToken: nat,
    stolen: set<nat>,       // nonces that an Interrupt entry has overwritten
    pc: map<Pid, Pc>)

  const STALE_AFTER: nat := 60

  function PcOf(s: Sys, p: Pid): Pc { if p in s.pc then s.pc[p] else Out }

  function At(s: Sys, p: Pid, pc: Pc): Sys { s.(pc := s.pc[p := pc]) }

  datatype Mode = ParallelMode | Queue | Interrupt

  datatype Step =
    | Tick
    | Enter(p: Pid, key: Key, mode: Mode)
    | Advance(p: Pid)      // the next file operation of p
    | Leave(p: Pid)        // a running job ends, finished or preempted
    | GiveUp(p: Pid)       // the acquire deadline passed
    | Die(p: Pid)

  /** Is the pid's process alive? A recorded pid of a process that left without dying is alive. */
  predicate Alive(s: Sys, p: Pid) { !PcOf(s, p).Dead? }

  predicate Enabled(s: Sys, st: Step) {
    match st
    case Tick => true
    case Enter(p, _, _) => PcOf(s, p).Out?
    case Advance(p) => var pc := PcOf(s, p); !(pc.Out? || pc.Parallel? || pc.Running? || pc.Dead?)
    case Leave(p) => PcOf(s, p).Running? || PcOf(s, p).Parallel?
    case GiveUp(p) => PcOf(s, p).Trying?
    case Die(p) => !PcOf(s, p).Dead?
  }

  /** The next file operation of p. */
  function Op(s: Sys, p: Pid, pc: Pc): Sys {
    match pc
    case Stealing(e) =>
      At(s, p, Trying(e)).(markers := s.markers[e.key := e.token],
                           stolen := if e.key in s.markers then s.stolen + {s.markers[e.key]} else s.stolen)
    case Trying(e) =>
      if e.key in s.locks then At(s, p, Stat1(e))
      else At(s, p, Acquired(e)).(locks := s.locks[e.key := LockFile(p, s.clock)], clock := s.clock + 1)
    case Stat1(e) =>
      At(s, p, if e.key in s.locks then Read1(e, s.locks[e.key].mtime) else Trying(e))
    case Read1(e, m1) =>
      At(s, p, Decide1(e, m1, if e.key in s.locks then Some(s.locks[e.key].pid) else None))
    case Decide1(e, m1, pid1) =>
      At(s, p, if s.clock <= m1 + STALE_AFTER || (pid1.Some? && Alive(s, pid1.value)) then Trying(e) else Stat2(e, m1, pid1))
    case Stat2(e, m1, pid1) =>
      At(s, p, if e.key in s.locks then Read2(e, m1, pid1, s.locks[e.key].mtime) else Trying(e))
    case Read2(e, m1, pid1, m2) =>
      At(s, p, Decide2(e, m1, pid1, m2, if e.key in s.locks then Some(s.locks[e.key].pid) else None))
    case Decide2(e, m1, pid1, m2, pid2) =>
      At(s, p, if pid1 != pid2 || m1 != m2 then Trying(e) else Unlink(e))
    case Unlink(e) => At(s, p, Trying(e)).(locks := s.locks - {e.key})
    case Acquired(e) => At(s, p, Running(e)).(markers := s.markers[e.key := e.token])
    case DropRead(e) => At(s, p, DropRemove(e, e.key in s.markers && s.markers[e.key] == e.token))
    case DropRemove(e, mine) => At(s, p, Releasing(e)).(markers := if mine then s.markers - {e.key} else s.markers)
    case Releasing(e) => At(s, p, Out).(locks := s.locks - {e.key})
    case _ => s
  }

  function Do(s: Sys, st: Step): Sys
    requires Enabled(s, st)
  {
    match st
    case Tick => s.(clock := s.clock + 1)
    case Enter(p, key, mode) =>
      var e := Entry(key, s.nextToken);
      if mode.ParallelMode? then At(s, p, Parallel)
      else At(s, p, if mode.Interrupt? then Stealing(e) else Trying(e)).(nextToken := s.nextToken + 1)
    case Advance(p) => Op(s, p, PcOf(s, p))
    case Leave(p) => At(s, p, if PcOf(s, p).Running? then DropRead(PcOf(s, p).e) else Out)
    case GiveUp(p) => At(s, p, Out)
    case Die(p) => At(s, p, Dead)
  }

  /** Nobody dies while holding a lock. */
  predicate NoHolderDies(s: Sys, st: Step) { st.Die? ==> !Holds(PcOf(s, st.p)) }

  // ----- The invariant -----

  /** A lock file exists exactly for the process that holds it. */
  ghost predicate LocksHeld(s: Sys) {
    && (forall k :: k in s.locks ==> HasHolder(s, k))
    && (forall p: Pid :: Holds(PcOf(s, p)) ==> HasLock(s, p))
  }

  predicate HasHolder(s: Sys, k: Key)
    requires k in s.locks
  {
    var pc := PcOf(s, s.locks[k].pid);
    Holds(pc) && pc.e.key == k && s.locks[k].mtime < s.clock
  }

  predicate HasLock(s: Sys, p: Pid)
    requires Holds(PcOf(s, p))
  {
    var k := PcOf(s, p).e.key;
    k in s.locks && s.locks[k].pid == p
  }

  /** The lock file that p looked at first is still the one on disk. */
  predicate Same(s: Sys, e: Entry, m1: nat) { e.key in s.locks && s.locks[e.key].mtime == m1 }

  /** What a process in the middle of the staleness check knows. */
  ghost predicate CheckOk(s: Sys, pc: Pc) {
    match pc
    case Read1(e, m1) => m1 < s.clock
    case Decide1(e, m1, pid1) => m1 < s.clock && (Same(s, e, m1) ==> pid1 == Some(s.locks[e.key].pid))
    case Stat2(e, m1, _) => m1 < s.clock && !Same(s, e, m1)
    case Read2(e, m1, _, m2) => m1 != m2
    case Decide2(e, m1, _, m2, _) => m1 != m2
    case Unlink(_) => false
    case _ => true
  }

  ghost predicate ChecksOk(s: Sys) { forall p: Pid :: CheckOk(s, PcOf(s, p)) }

  ghost predicate LockInv(s: Sys) { LocksHeld(s) && ChecksOk(s) }

  /** Lock files only disappear or are created with a newer time; time moves on. */
  ghost predicate LocksAdvance(s: Sys, t: Sys) {
    s.clock <= t.clock && forall k :: k in t.locks ==> (k in s.locks && t.locks[k] == s.locks[k]) || t.locks[k].mtime >= s.clock
  }

  lemma {:induction false} StepAdvances(s: Sys, st: Step)
    requires Enabled(s, st)
    ensures LocksAdvance(s, Do(s, st))
  {
  }

  /** What a waiting process knows stays true while others act. */
  lemma {:induction false} CheckStable(s: Sys, t: Sys, pc: Pc)
    requires LocksAdvance(s, t) && CheckOk(s, pc)
    ensures CheckOk(t, pc)
  {
  }

  /** The staleness check of a live lock never gets past its first decision. */
  lemma {:induction false} CheckStep(s: Sys, p: Pid)
    requires LockInv(s) && Enabled(s, Advance(p))
    ensures CheckOk(Do(s, Advance(p)), PcOf(Do(s, Advance(p)), p))
  {
    assert CheckOk(s, PcOf(s, p));
  }

  /** A step that is no file operation puts a process before or after the staleness check. */
  lemma {:induction false} EntersUnchecked(s: Sys, st: Step, q: Pid)
    requires Enabled(s, st) && !st.Advance? && PcOf(Do(s, st), q) != PcOf(s, q)
    ensures CheckOk(Do(s, st), PcOf(Do(s, st), q))
  {
  }

  lemma {:induction false} ChecksKept(s: Sys, st: Step)
    requires LockInv(s) && Enabled(s, st) && NoHolderDies(s, st)
    ensures ChecksOk(Do(s, st))
  {
    var t := Do(s, st);
    StepAdvances(s, st);
    forall q: Pid ensures CheckOk(t, PcOf(t, q)) {
      assert CheckOk(s, PcOf(s, q));
      if PcOf(t, q) == PcOf(s, q) {
        CheckStable(s, t, PcOf(s, q));
      } else if st.Advance? {
        CheckStep(s, q);
      } else {
        EntersUnchecked(s, st, q);
      }
    }
  }

  /** A move of one process that neither takes nor drops a lock. */
  lemma {:induction false} PlainMove(s: Sys, t: Sys, p: Pid)
    requires LocksHeld(s) && t.locks == s.locks && t.clock >= s.clock
    requires forall q: Pid :: q != p ==> PcOf(t, q) == PcOf(s, q)
    requires Holds(PcOf(s, p)) <==> Holds(PcOf(t, p))
    requires Holds(PcOf(s, p)) ==> PcOf(s, p).e.key == PcOf(t, p).e.key
    ensures LocksHeld(t)
  {
    forall k | k in t.locks ensures HasHolder(t, k) {
      assert HasHolder(s, k);
    }
    forall q: Pid | Holds(PcOf(t, q)) ensures HasLock(t, q) {
      assert HasLock(s, q);
    }
  }

  lemma {:induction false} TakeLock(s: Sys, p: Pid, e: Entry)
    requires LocksHeld(s) && PcOf(s, p) == Trying(e) && e.key !in s.locks
    ensures LocksHeld(Op(s, p, Trying(e)))
  {
    var t := Op(s, p, Trying(e));
    forall q: Pid | Holds(PcOf(t, q))
      ensures HasLock(t, q)
    {
      if q != p { assert PcOf(t, q) == PcOf(s, q) && HasLock(s, q); }
    }
    forall k | k in t.locks
      ensures HasHolder(t, k)
    {
      if k != e.key { assert HasHolder(s, k); }
    }
  }

  lemma {:induction false} DropLock(s: Sys, p: Pid, e: Entry)
    requires LocksHeld(s) && PcOf(s, p) == Releasing(e)
    ensures LocksHeld(Op(s, p, Releasing(e)))
  {
    var t := Op(s, p, Releasing(e));
    assert HasLock(s, p);
    forall q: Pid | Holds(PcOf(t, q))
      ensures HasLock(t, q)
    {
      assert q != p && PcOf(t, q) == PcOf(s, q) && HasLock(s, q);
    }
    forall k | k in t.locks
      ensures HasHolder(t, k)
    {
      assert HasHolder(s, k);
    }
  }

  lemma {:induction false} AdvanceKeepsLocks(s: Sys, p: Pid)
    requires LockInv(s) && Enabled(s, Advance(p))
    ensures LocksHeld(Do(s, Advance(p)))
  {
    var pc := PcOf(s, p);
    assert CheckOk(s, pc);
    if pc.Trying? && pc.e.key !in s.locks {
      TakeLock(s, p, pc.e);
    } else if pc.Releasing? {
      DropLock(s, p, pc.e);
    } else {
      PlainMove(s, Do(s, Advance(p)), p);
    }
  }

  lemma {:induction false} LocksHeldKept(s: Sys, st: Step)
    requires LockInv(s) && Enabled(s, st) && NoHolderDies(s, st)
    ensures LocksHeld(Do(s, st))
  {
    match st
    case Tick => PlainMove(s, Do(s, st), 0);
    case Advance(p) => AdvanceKeepsLocks(s, p);
    case Enter(p, _, _) => PlainMove(s, Do(s, st), p);
    case Leave(p) => PlainMove(s, Do(s, st), p);
    case GiveUp(p) => PlainMove(s, Do(s, st), p);
    case Die(p) => PlainMove(s, Do(s, st), p);
  }

  /** The invariant is kept by every file operation of every process. */
  lemma {:induction false} LockInvKept(s: Sys, st: Step)
    requires LockInv(s) && Enabled(s, st) && NoHolderDies(s, st)
    ensures LockInv(Do(s, st))
  {
    LocksHeldKept(s, st);
    ChecksKept(s, st);
  }

  // ----- The nonce -----

  /** A running job still sees its own nonce, unless an Interrupt entry has stolen it. */
  ghost predicate MarkersOk(s: Sys) {
    forall p: Pid :: PcOf(s, p).Running? ==> NonceOk(s, PcOf(s, p).e)
  }

  predicate NonceOk(s: Sys, e: Entry) { (e.key in s.markers && s.markers[e.key] == e.token) || e.token in s.stolen }

  /** Mutual exclusion on the domain protects the nonce as well. */
  lemma {:induction false} OneHolder(s: Sys, p: Pid, q: Pid)
    requires LocksHeld(s) && Holds(PcOf(s, p)) && Holds(PcOf(s, q)) && PcOf(s, p).e.key == PcOf(s, q).e.key
    ensures p == q
  {
    assert HasLock(s, p) && HasLock(s, q);
  }

  lemma {:induction false} MarkersKept(s: Sys, st: Step)
    requires LockInv(s) && MarkersOk(s) && Enabled(s, st) && NoHolderDies(s, st)
    ensures MarkersOk(Do(s, st))
  {
    var t := Do(s, st);
    forall q: Pid | PcOf(t, q).Running?
      ensures NonceOk(t, PcOf(t, q).e)
    {
      if st.Advance? && st.p != q && Holds(PcOf(s, st.p)) && Holds(PcOf(s, q)) && PcOf(s, st.p).e.key == PcOf(s, q).e.key {
        OneHolder(s, st.p, q);
      }
      if PcOf(s, q).Running? {
        assert PcOf(s, q) == PcOf(t, q) && NonceOk(s, PcOf(s, q).e);
      }
    }
  }

  // ----- Whole runs -----

  ghost predicate Legal(s: Sys, steps: seq<Step>)
    decreases |steps|
  {
    steps == [] || (Enabled(s, steps[0]) && Legal(Do(s, steps[0]), steps[1..]))
  }

  ghost function Final(s: Sys, steps: seq<Step>): Sys
    requires Legal(s, steps)
    decreases |steps|
  {
    if steps == [] then s else Final(Do(s, steps[0]), steps[1..])
  }

  ghost predicate NoHolderEverDies(s: Sys, steps: seq<Step>)
    requires Legal(s, steps)
    decreases |steps|
  {
    steps == [] || (NoHolderDies(s, steps[0]) && NoHolderEverDies(Do(s, steps[0]), steps[1..]))
  }

  /** Nobody is in, nothing is on disk. */
  ghost predicate Initial(s: Sys) { s.locks == map[] && s.pc == map[] }

  /** In every run without a holder's death: one holder per domain, a live lock file is never
      unlinked by a stale check, and a running job loses its nonce only to an Interrupt entry. */
  lemma {:induction false} RunSafe(s: Sys, steps: seq<Step>)
    requires LockInv(s) && MarkersOk(s) && Legal(s, steps) && NoHolderEverDies(s, steps)
    ensures var t := Final(s, steps);
      && LockInv(t) && MarkersOk(t)
      && (forall p: Pid, q: Pid :: Holds(PcOf(t, p)) && Holds(PcOf(t, q)) && PcOf(t, p).e.key == PcOf(t, q).e.key ==> p == q)
      && (forall p: Pid :: !PcOf(t, p).Unlink?)
    decreases |steps|
  {
    if steps == [] {
      forall p: Pid ensures !PcOf(s, p).Unlink? { assert CheckOk(s, PcOf(s, p)); }
    } else {
      LockInvKept(s, steps[0]);
      MarkersKept(s, steps[0]);
      RunSafe(Do(s, steps[0]), steps[1..]);
    }
  }

  lemma {:induction false} InitialSafe(s: Sys)
    requires Initial(s)
    ensures LockInv(s) && MarkersOk(s) && Distinct(s)
  {
  }

  // ----- Preemption -----

  /** The job finds its own nonce in the marker file. */
  predicate Sees(s: Sys, e: Entry) { e.key in s.markers && s.markers[e.key] == e.token }

  predicate HasToken(s: Sys, p: Pid, n: nat) { HasEntry(PcOf(s, p)) && PcOf(s, p).e.token == n }

  /** Every nonce in use was drawn, and no two processes have the same. */
  ghost predicate Distinct(s: Sys) {
    && (forall p: Pid, n: nat :: HasToken(s, p, n) ==> n < s.nextToken)
    && (forall p: Pid, q: Pid, n: nat :: HasToken(s, p, n) && HasToken(s, q, n) ==> p == q)
  }

  lemma {:induction false} DistinctKept(s: Sys, st: Step)
    requires Distinct(s) && Enabled(s, st)
    ensures Distinct(Do(s, st))
  {
    var t := Do(s, st);
    forall p: Pid, n: nat | HasToken(t, p, n)
      ensures HasToken(s, p, n) || (n == s.nextToken && st.Enter? && st.p == p && t.nextToken == n + 1)
    {
    }
    assert s.nextToken <= t.nextToken;
  }

  /** No step of p. */
  predicate Without(steps: seq<Step>, p: Pid) {
    forall i :: 0 <= i < |steps| ==> steps[i].Tick? || steps[i].p != p
  }

  lemma {:induction false} OthersMove(s: Sys, st: Step, p: Pid)
    requires Enabled(s, st) && (st.Tick? || st.p != p)
    ensures PcOf(Do(s, st), p) == PcOf(s, p)
  {
  }

  /** While others act, p stays where it is. */
  lemma {:induction false} StaysPut(s: Sys, steps: seq<Step>, p: Pid)
    requires Distinct(s) && Legal(s, steps) && Without(steps, p)
    ensures PcOf(Final(s, steps), p) == PcOf(s, p) && Distinct(Final(s, steps))
    decreases |steps|
  {
    if steps != [] {
      DistinctKept(s, steps[0]);
      OthersMove(s, steps[0], p);
      assert forall i :: 0 <= i < |steps[1..]| ==> steps[1..][i] == steps[i + 1];
      StaysPut(Do(s, steps[0]), steps[1..], p);
    }
  }

  /** After an Interrupt entry and its first file operation, whatever others do in between, no job
      that runs in the domain finds its nonce any more. */
  lemma {:induction false} InterruptPreempts(s: Sys, p: Pid, k: Key, others: seq<Step>, q: Pid)
    requires Distinct(s) && Enabled(s, Enter(p, k, Interrupt))
    requires Legal(Do(s, Enter(p, k, Interrupt)), others) && Without(others, p)
    ensures var u := Final(Do(s, Enter(p, k, Interrupt)), others);
      && Enabled(u, Advance(p))
      && (PcOf(u, q).Running? && PcOf(u, q).e.key == k ==>
          PcOf(Do(u, Advance(p)), q) == PcOf(u, q) && !Sees(Do(u, Advance(p)), PcOf(u, q).e))
  {
    var t := Do(s, Enter(p, k, Interrupt));
    DistinctKept(s, Enter(p, k, Interrupt));
    StaysPut(t, others, p);
    var u := Final(t, others);
    assert HasToken(u, p, s.nextToken);
    if PcOf(u, q).Running? && PcOf(u, q).e.key == k {
      assert HasToken(u, q, PcOf(u, q).e.token);
    }
  }

  predicate IsInterrupt(st: Step) { st.Enter? && st.mode.Interrupt? }

  /** No nonce has been stolen and nobody is about to steal one. */
  ghost predicate Unstolen(s: Sys) { s.stolen == {} && forall p: Pid :: !PcOf(s, p).Stealing? }

  lemma {:induction false} UnstolenStep(s: Sys, st: Step)
    requires Unstolen(s) && Enabled(s, st) && !IsInterrupt(st)
    ensures Unstolen(Do(s, st))
  {
    var t := Do(s, st);
    forall p: Pid ensures !PcOf(t, p).Stealing? {
      assert !PcOf(s, p).Stealing?;
    }
  }

  lemma {:induction false} UnstolenKept(s: Sys, steps: seq<Step>)
    requires Unstolen(s) && Legal(s, steps) && forall i :: 0 <= i < |steps| ==> !IsInterrupt(steps[i])
    ensures Unstolen(Final(s, steps))
    decreases |steps|
  {
    if steps != [] {
      UnstolenStep(s, steps[0]);
      assert forall i :: 0 <= i < |steps[1..]| ==> steps[1..][i] == steps[i + 1];
      UnstolenKept(Do(s, steps[0]), steps[1..]);
    }
  }

  /** In every run without Interrupt entries and without a holder's death, a running job finds its
      own nonce. */
  lemma {:induction false} UndisturbedJob(s: Sys, steps: seq<Step>, p: Pid)
    requires Initial(s) && s.stolen == {} && Legal(s, steps) && NoHolderEverDies(s, steps)
    requires forall i :: 0 <= i < |steps| ==> !IsInterrupt(steps[i])
    requires PcOf(Final(s, steps), p).Running?
    ensures Sees(Final(s, steps), PcOf(Final(s, steps), p).e)
  {
    InitialSafe(s);
    RunSafe(s, steps);
    UnstolenKept(s, steps);
  }

  /**
    * A job that leaves is meant to remove the marker only while it holds its own nonce. It reads
    * and removes in two steps, so it removes another's claim exactly when it read its own nonce
    * and an entry has replaced it since.
    */
  lemma {:induction false} ReleaseIff(s: Sys, q: Pid, e: Entry, others: seq<Step>)
    requires Distinct(s) && PcOf(s, q) == DropRead(e)
    requires Legal(Do(s, Advance(q)), others) && Without(others, q)
    ensures var u := Final(Do(s, Advance(q)), others);
      && Enabled(u, Advance(q))
      && (e.key in u.markers && !Sees(u, e) ==> (e.key !in Do(u, Advance(q)).markers <==> Sees(s, e)))
      && (Sees(u, e) && Sees(s, e) ==> e.key !in Do(u, Advance(q)).markers)
  {
    DistinctKept(s, Advance(q));
    StaysPut(Do(s, Advance(q)), others, q);
  }

  /** So an Interrupt entry can lose the claim it has just made. */
  lemma {:induction false} ClaimLost(s: Sys, p: Pid, q: Pid, e: Entry) returns (steps: seq<Step>)
    requires p != q && PcOf(s, p).Out? && PcOf(s, q) == Running(e) && Sees(s, e)
    ensures steps == [Leave(q), Advance(q), Enter(p, e.key, Interrupt), Advance(p), Advance(q)]
    ensures Legal(s, steps) && e.key !in Final(s, steps).markers
    ensures PcOf(Final(s, steps), p) == Trying(Entry(e.key, s.nextToken))
  {
    var s1 := Do(s, Leave(q));
    var s2 := Do(s1, Advance(q));
    var s3 := Do(s2, Enter(p, e.key, Interrupt));
    var s4 := Do(s3, Advance(p));
    RunCons(s4, Advance(q), []);
    RunCons(s3, Advance(p), [Advance(q)] + []);
    RunCons(s2, Enter(p, e.key, Interrupt), [Advance(p)] + ([Advance(q)] + []));
    RunCons(s1, Advance(q), [Enter(p, e.key, Interrupt)] + ([Advance(p)] + ([Advance(q)] + [])));
    steps := [Advance(q)] + ([Enter(p, e.key, Interrupt)] + ([Advance(p)] + ([Advance(q)] + [])));
    RunCons(s, Leave(q), steps);
    steps := [Leave(q)] + steps;
  }

  /** A lock file passes the first check for staleness exactly when it is more than 60 seconds old
      and the process it names, if it names one, is dead. */
  lemma {:induction false} StaleIff(s: Sys, p: Pid, e: Entry, m1: nat, pid1: Option<Pid>)
    requires PcOf(s, p) == Decide1(e, m1, pid1)
    ensures PcOf(Do(s, Advance(p)), p) ==
      if s.clock > m1 + 60 && (pid1 == None || PcOf(s, pid1.value) == Dead) then Stat2(e, m1, pid1) else Trying(e)
  {
  }

  // ----- Domains -----

  predicate SafeChar(c: char) {
    'a' <= c <= 'z' || 'A' <= c <= 'Z' || '0' <= c <= '9' || c == '.' || c == '_' || c == '-'
  }

  /** Map a job name to a single path component. */
  function Sanitize(job: string): (key: Key)
    ensures key != "" && key != "." && key != ".."
    ensures forall i :: 0 <= i < |key| ==> SafeChar(key[i])
    ensures job != "" && job != "." && job != ".." && (forall i :: 0 <= i < |job| ==> SafeChar(job[i])) ==> key == job
  {
    if job == "" || job == "." || job == ".." then "_"
    else
      var key := seq(|job|, i requires 0 <= i < |job| => if SafeChar(job[i]) then job[i] else '_');
      assert forall i :: 0 <= i < |key| && key[i] == '.' ==> job[i] == '.';
      assert key == "." ==> job == ".";
      assert key == ".." ==> job == "..";
      key
  }

  /** Under the serial policy all jobs share one domain; otherwise each job is its own. */
  function DomainKey(serial: bool, job: string): Key { Sanitize(if serial then "all" else job) }

  /** Every entry of the run is to domain k or parallel. */
  predicate OnlyDomain(steps: seq<Step>, k: Key) {
    forall i :: 0 <= i < |steps| ==> steps[i].Enter? ==> steps[i].mode.ParallelMode? || steps[i].key == k
  }

  predicate HasEntry(pc: Pc) { !(pc.Out? || pc.Parallel? || pc.Dead?) }

  ghost predicate AllIn(s: Sys, k: Key) { forall p: Pid :: HasEntry(PcOf(s, p)) ==> PcOf(s, p).e.key == k }

  lemma {:induction false} AllInStep(s: Sys, st: Step, k: Key)
    requires AllIn(s, k) && Enabled(s, st) && (st.Enter? ==> st.mode.ParallelMode? || st.key == k)
    ensures AllIn(Do(s, st), k)
  {
    var t := Do(s, st);
    forall p: Pid | HasEntry(PcOf(t, p)) ensures PcOf(t, p).e.key == k {
      if HasEntry(PcOf(s, p)) { assert PcOf(s, p).e.key == k; }
    }
  }

  lemma {:induction false} AllInKept(s: Sys, steps: seq<Step>, k: Key)
    requires AllIn(s, k) && Legal(s, steps) && OnlyDomain(steps, k)
    ensures AllIn(Final(s, steps), k)
    decreases |steps|
  {
    if steps != [] {
      assert forall i :: 0 <= i < |steps[1..]| ==> steps[1..][i] == steps[i + 1];
      AllInStep(s, steps[0], k);
      AllInKept(Do(s, steps[0]), steps[1..], k);
    }
  }

  /** Step i, if it enters, is the job of that name under the given policy. */
  predicate ForJobs(steps: seq<Step>, jobs: seq<string>, serial: bool) {
    |jobs| == |steps| && forall i :: 0 <= i < |steps| ==> steps[i].Enter? ==> steps[i].key == DomainKey(serial, jobs[i])
  }

  /** Under the serial policy at most one non-parallel job runs, whatever jobs there are. */
  lemma {:induction false} SerialMeansOne(s: Sys, steps: seq<Step>, jobs: seq<string>, p: Pid, q: Pid)
    requires Initial(s) && Legal(s, steps) && NoHolderEverDies(s, steps) && ForJobs(steps, jobs, true)
    requires Holds(PcOf(Final(s, steps), p)) && Holds(PcOf(Final(s, steps), q))
    ensures p == q
  {
    InitialSafe(s);
    RunSafe(s, steps);
    AllInKept(s, steps, Sanitize("all"));
  }

  // ----- Why the assumption is needed -----

  lemma {:induction false} RunCons(s: Sys, st: Step, rest: seq<Step>)
    requires Enabled(s, st) && Legal(Do(s, st), rest)
    ensures Legal(s, [st] + rest) && Final(s, [st] + rest) == Final(Do(s, st), rest)
  {
    assert ([st] + rest)[1..] == rest;
  }

  lemma {:induction false} RunAppend(s: Sys, a: seq<Step>, b: seq<Step>)
    requires Legal(s, a) && Legal(Final(s, a), b)
    ensures Legal(s, a + b) && Final(s, a + b) == Final(Final(s, a), b)
    decreases |a|
  {
    if a == [] {
      assert a + b == b;
    } else {
      Uncons(a, b);
      RunAppend(Do(s, a[0]), a[1..], b);
    }
  }

  /** The stations of a staleness check that succeeds. */
  function Station(e: Entry, l: LockFile, i: nat): Pc {
    if i == 0 then Trying(e)
    else if i == 1 then Stat1(e)
    else if i == 2 then Read1(e, l.mtime)
    else if i == 3 then Decide1(e, l.mtime, Some(l.pid))
    else if i == 4 then Stat2(e, l.mtime, Some(l.pid))
    else if i == 5 then Read2(e, l.mtime, Some(l.pid), l.mtime)
    else if i == 6 then Decide2(e, l.mtime, Some(l.pid), l.mtime, Some(l.pid))
    else Unlink(e)
  }

  ghost predicate DeadLock(s: Sys, k: Key) {
    k in s.locks && s.clock > s.locks[k].mtime + STALE_AFTER && !Alive(s, s.locks[k].pid)
  }

  lemma {:induction false} StationStep(s: Sys, p: Pid, e: Entry, i: nat)
    requires DeadLock(s, e.key) && i < 7 && PcOf(s, p) == Station(e, s.locks[e.key], i)
    ensures Enabled(s, Advance(p)) && Do(s, Advance(p)) == At(s, p, Station(e, s.locks[e.key], i + 1))
  {
  }

  /** A waiting process that meets an old lock file of a dead process gets ready to unlink it. */
  lemma {:induction false} MeetsDeadLock(s: Sys, p: Pid, e: Entry, i: nat) returns (steps: seq<Step>)
    requires DeadLock(s, e.key) && i <= 7 && PcOf(s, p) == Station(e, s.locks[e.key], i)
    ensures Legal(s, steps) && Final(s, steps) == At(s, p, Unlink(e))
    ensures forall j :: 0 <= j < |steps| ==> steps[j] == Advance(p)
    decreases 7 - i
  {
    if i == 7 {
      steps := [];
      assert s.pc[p := Unlink(e)] == s.pc;
    } else {
      StationStep(s, p, e, i);
      var t := Do(s, Advance(p));
      assert s.locks[e.key].pid != p;
      steps := MeetsDeadLock(t, p, e, i + 1);
      RunCons(s, Advance(p), steps);
      steps := [Advance(p)] + steps;
      assert At(t, p, Unlink(e)) == At(s, p, Unlink(e));
    }
  }

  /** Both processes hold the lock of domain k. */
  predicate BothHold(s: Sys, p: Pid, q: Pid, k: Key) {
    Holds(PcOf(s, p)) && Holds(PcOf(s, q)) && PcOf(s, p).e.key == k && PcOf(s, q).e.key == k
  }

  /** After a holder's death exclusion is lost: whenever two processes wait for the lock of a
      dead one, some run without any further death ends with both of them holding it. */
  lemma {:induction false} DeathBreaksExclusion(s: Sys, p: Pid, q: Pid, e: Entry, f: Entry) returns (steps: seq<Step>)
    requires p != q && e.key == f.key && DeadLock(s, e.key)
    requires PcOf(s, p) == Trying(e) && PcOf(s, q) == Trying(f)
    ensures Legal(s, steps) && forall j :: 0 <= j < |steps| ==> steps[j].Advance?
    ensures BothHold(Final(s, steps), p, q, e.key)
  {
    var a := BothMeet(s, p, q, e, f);
    var b := BothUnlink(Final(s, a), p, q, e, f);
    RunAppend(s, a, b);
    steps := a + b;
  }

  lemma {:induction false} BothMeet(s: Sys, p: Pid, q: Pid, e: Entry, f: Entry) returns (steps: seq<Step>)
    requires p != q && e.key == f.key && DeadLock(s, e.key)
    requires PcOf(s, p) == Trying(e) && PcOf(s, q) == Trying(f)
    ensures Legal(s, steps) && forall j :: 0 <= j < |steps| ==> steps[j].Advance?
    ensures PcOf(Final(s, steps), p) == Unlink(e) && PcOf(Final(s, steps), q) == Unlink(f)
  {
    var a := MeetsDeadLock(s, p, e, 0);
    var b := MeetsDeadLock(At(s, p, Unlink(e)), q, f, 0);
    RunAppend(s, a, b);
    steps := a + b;
  }

  lemma {:induction false} BothUnlink(s: Sys, p: Pid, q: Pid, e: Entry, f: Entry) returns (steps: seq<Step>)
    requires p != q && e.key == f.key && PcOf(s, p) == Unlink(e) && PcOf(s, q) == Unlink(f)
    ensures Legal(s, steps) && forall j :: 0 <= j < |steps| ==> steps[j].Advance?
    ensures BothHold(Final(s, steps), p, q, e.key)
  {
    var s1 := Do(s, Advance(p));
    var s2 := Do(s1, Advance(p));
    var s3 := Do(s2, Advance(q));
    RunCons(s3, Advance(q), []);
    RunCons(s2, Advance(q), [Advance(q)] + []);
    RunCons(s1, Advance(p), [Advance(q)] + ([Advance(q)] + []));
    steps := [Advance(p)] + ([Advance(q)] + ([Advance(q)] + []));
    RunCons(s, Advance(p), steps);
    steps := [Advance(p)] + steps;
  }

  /** Waiting n ticks. */
  lemma {:induction false} Wait(s: Sys, n: nat) returns (steps: seq<Step>)
    ensures Legal(s, steps) && Final(s, steps) == s.(clock := s.clock + n)
    ensures forall j :: 0 <= j < |steps| ==> steps[j].Tick?
    decreases n
  {
    steps := [];
    if n > 0 {
      steps := Wait(Do(s, Tick), n - 1);
      RunCons(s, Tick, steps);
      steps := [Tick] + steps;
    }
  }

  /** A process enters an empty domain, takes its lock, and dies. */
  lemma {:induction false} HolderDies(s: Sys, p: Pid, k: Key) returns (steps: seq<Step>)
    requires PcOf(s, p).Out? && k !in s.locks
    ensures Legal(s, steps) && steps == [Enter(p, k, Queue), Advance(p), Die(p)]
    ensures Final(s, steps) == At(s, p, Dead).(
      locks := s.locks[k := LockFile(p, s.clock)], clock := s.clock + 1, nextToken := s.nextToken + 1)
  {
    var s1 := Do(s, Enter(p, k, Queue));
    var s2 := Do(s1, Advance(p));
    RunCons(s2, Die(p), []);
    RunCons(s1, Advance(p), [Die(p)] + []);
    steps := [Advance(p)] + ([Die(p)] + []);
    RunCons(s, Enter(p, k, Queue), steps);
    steps := [Enter(p, k, Queue)] + steps;
    assert Do(s2, Die(p)).pc == s.pc[p := Dead];
  }

  /** Two processes come to wait for the same domain. */
  lemma {:induction false} TwoWait(s: Sys, p: Pid, q: Pid, k: Key) returns (steps: seq<Step>)
    requires p != q && PcOf(s, p).Out? && PcOf(s, q).Out?
    ensures Legal(s, steps) && forall j :: 0 <= j < |steps| ==> steps[j].Enter?
    ensures Final(s, steps) ==
      At(At(s, p, Trying(Entry(k, s.nextToken))), q, Trying(Entry(k, s.nextToken + 1))).(nextToken := s.nextToken + 2)
  {
    var s1 := Do(s, Enter(p, k, Queue));
    RunCons(s1, Enter(q, k, Queue), []);
    steps := [Enter(q, k, Queue)] + [];
    RunCons(s, Enter(p, k, Queue), steps);
    steps := [Enter(p, k, Queue)] + steps;
  }

  /** The run has one death, at step d. */
  predicate OneDeath(steps: seq<Step>, d: nat) {
    d < |steps| && forall j :: 0 <= j < |steps| ==> (steps[j].Die? <==> j == d)
  }

  /** From an empty start, one death leads to two holders of a domain: a run with a single death,
      that of a holder, after which two other processes hold the domain's lock at once. */
  lemma {:induction false} ExclusionLost(s: Sys, k: Key) returns (steps: seq<Step>, d: nat, p: Pid, q: Pid)
    requires Initial(s)
    ensures Legal(s, steps) && OneDeath(steps, d) && !NoHolderEverDies(s, steps)
    ensures p != q && BothHold(Final(s, steps), p, q, k)
  {
    p, q, d := 1, 2, 2;
    var a := HolderDies(s, 0, k);
    var s1 := Final(s, a);
    var b, c, e := TwoTake(s1, p, q, k);
    RunAppend(s, a, b);
    RunAppend(s, a + b, c);
    RunAppend(s, a + b + c, e);
    steps := a + b + c + e;
    if NoHolderEverDies(s, steps) {
      InitialSafe(s);
      RunSafe(s, steps);
    }
  }

  /** Once a holder is dead: after a wait, two processes come and both take its lock. */
  lemma {:induction false} TwoTake(s: Sys, p: Pid, q: Pid, k: Key) returns (a: seq<Step>, b: seq<Step>, c: seq<Step>)
    requires p != q && PcOf(s, p).Out? && PcOf(s, q).Out?
    requires k in s.locks && s.clock > s.locks[k].mtime && !Alive(s, s.locks[k].pid)
    ensures Legal(s, a) && Legal(Final(s, a), b) && Legal(Final(Final(s, a), b), c)
    ensures BothHold(Final(Final(Final(s, a), b), c), p, q, k)
    ensures forall j :: 0 <= j < |a| ==> !a[j].Die?
    ensures forall j :: 0 <= j < |b| ==> !b[j].Die?
    ensures forall j :: 0 <= j < |c| ==> !c[j].Die?
  {
    a := Wait(s, STALE_AFTER + 1);
    var s1 := Final(s, a);
    b := TwoWait(s1, p, q, k);
    c := DeathBreaksExclusion(Final(s1, b), p, q, Entry(k, s1.nextToken), Entry(k, s1.nextToken + 1));
  }
}
