/** The `gyt pr` commands, and when the gate takes what they write. */
module PrCommands {
  import opened Bytes
  import opened Sorting
  import opened TicketText
  import opened TicketLimits
  import opened PullRequests

  // Sorted lists without repetition.

  predicate StrLe(a: string, b: string) {
    a == [] || (b != [] && (a[0] < b[0] || (a[0] == b[0] && StrLe(a[1..], b[1..]))))
  }

  lemma {:induction false} StrLeTotal(a: string, b: string)
    ensures StrLe(a, b) || StrLe(b, a)
    ensures StrLe(a, b) && StrLe(b, a) ==> a == b
  {
    if a != [] && b != [] && a[0] == b[0] {
      StrLeTotal(a[1..], b[1..]);
      assert a == [a[0]] + a[1..] && b == [b[0]] + b[1..];
    }
  }

  lemma {:induction false} StrLeTrans(a: string, b: string, c: string)
    requires StrLe(a, b) && StrLe(b, c)
    ensures StrLe(a, c)
  {
    if a != [] && a[0] == b[0] && b[0] == c[0] {
      StrLeTrans(a[1..], b[1..], c[1..]);
    }
  }

  lemma {:induction false} StrLePreorder()
    ensures TotalPreorder(StrLe)
  {
    forall a, b ensures StrLe(a, b) || StrLe(b, a) {
      StrLeTotal(a, b);
    }
    forall a, b, c | StrLe(a, b) && StrLe(b, c) ensures StrLe(a, c) {
      StrLeTrans(a, b, c);
    }
  }

  ghost predicate Antisymmetric<T(!new)>(le: (T, T) -> bool) {
    forall x, y :: le(x, y) && le(y, x) ==> x == y
  }

  /** The elements, each once and in order: there is one such list. */
  ghost predicate OrderedSet<T(!new)>(le: (T, T) -> bool, s: seq<T>) {
    Sorted(le, s) && forall i, j :: 0 <= i < j < |s| ==> s[i] != s[j]
  }

  lemma {:induction false} SortKeeps<T(!new)>(le: (T, T) -> bool, s: seq<T>, x: T)
    requires TotalPreorder(le)
    ensures Sorted(le, Sort(le, s)) && (x in Sort(le, s) <==> x in s)
  {
    SortCorrect(le, s, x);
    assert x in multiset(Sort(le, s)) <==> x in multiset(s);
  }

  lemma {:induction false} PushLarger<T(!new)>(le: (T, T) -> bool, r: seq<T>, x: T)
    requires TotalPreorder(le) && Antisymmetric(le) && OrderedSet(le, r)
    requires r != [] ==> le(r[|r| - 1], x) && r[|r| - 1] != x
    ensures OrderedSet(le, r + [x])
  {
    var t := r + [x];
    forall i, j | 0 <= i < j < |t| ensures le(t[i], t[j]) && t[i] != t[j] {
      if j == |r| && i < |r| - 1 {
        assert le(r[i], r[|r| - 1]) && r[i] != r[|r| - 1];
      }
    }
  }

  /** Sorting, then dropping what repeats. */
  method SortDedup<T(==, !new)>(le: (T, T) -> bool, s: seq<T>) returns (r: seq<T>)
    requires TotalPreorder(le) && Antisymmetric(le)
    ensures OrderedSet(le, r) && forall x :: x in r <==> x in s
  {
    var t := Sort(le, s);
    forall x ensures x in t <==> x in s {
      SortKeeps(le, s, x);
    }
    if s != [] {
      SortKeeps(le, s, s[0]);
    }
    r := [];
    for i := 0 to |t|
      invariant OrderedSet(le, r)
      invariant i > 0 ==> r != [] && r[|r| - 1] == t[i - 1]
      invariant i == 0 ==> r == []
      invariant forall x :: x in r <==> x in t[..i]
    {
      assert t[..i + 1] == t[..i] + [t[i]];
      if r == [] || r[|r| - 1] != t[i] {
        assert i > 0 ==> le(t[i - 1], t[i]);
        PushLarger(le, r, t[i]);
        r := r + [t[i]];
      }
    }
    assert t[..|t|] == t;
  }

  // Commands.

  /** A command with what it is given; the mentions found in a body are a parameter. */
  datatype Command =
    | Comment(body: string, found: seq<Count>)
    | Close(reason: string)
    | Reopen
    | Merge(tip: string)
    | CiRun(result: string)
    | Label(add: seq<string>, remove: seq<string>)
    | Assign(add: seq<string>, remove: seq<string>)

  /** The event a command appends. */
  function EventOf(cmd: Command, me: string, now: Time): Event {
    match cmd
    case Comment(body, _) => Event(EventKind.Comment, me, now, body, [], [], [], [])
    case Close(reason) => Event(EventKind.Close, me, now, [], [], [], reason, [])
    case Reopen => Event(EventKind.Reopen, me, now, [], [], [], [], [])
    case Merge(tip) => Event(EventKind.Merge, me, now, [], [], [], [], tip)
    case CiRun(result) => Event(EventKind.CiRun, me, now, [], [], [], [], result)
    case Label(add, remove) => Event(EventKind.Label, me, now, [], add, remove, [], [])
    case Assign(add, remove) => Event(EventKind.Assign, me, now, [], add, remove, [], [])
  }

  predicate CountLe(a: Count, b: Count) { a <= b }

  ghost predicate Updated(xs: seq<string>, add: seq<string>, remove: seq<string>, r: seq<string>) {
    OrderedSet(StrLe, r) && forall x :: x in r <==> (x in xs || x in add) && x !in remove
  }

  ghost predicate Mentioned(xs: seq<Count>, found: seq<Count>, self: Count, r: seq<Count>) {
    OrderedSet(CountLe, r) && forall x: Count :: x in r <==> x in xs || (x in found && x != self)
  }

  /** What a command that succeeds makes of the pull request it read. */
  ghost predicate Does(cmd: Command, me: string, now: Time, before: Pr, after: Pr) {
    match cmd
    case Comment(body, found) =>
      && Mentioned(before.mentions, found, before.number, after.mentions)
      && after == before.(mentions := after.mentions,
                          events := before.events + [Event(EventKind.Comment, me, now, body, [], [], "", "")])
    case Close(reason) =>
      && before.state == Open
      && after == before.(state := Closed,
                          events := before.events + [Event(EventKind.Close, me, now, "", [], [], reason, "")])
    case Reopen =>
      && before.state == Closed
      && after == before.(state := Open,
                          events := before.events + [Event(EventKind.Reopen, me, now, "", [], [], "", "")])
    case Merge(tip) =>
      after == before.(state := Merged,
                       events := before.events + [Event(EventKind.Merge, me, now, "", [], [], "", tip)])
    case CiRun(result) =>
      after == before.(events := before.events + [Event(EventKind.CiRun, me, now, "", [], [], "", result)])
    case Label(add, remove) =>
      && Updated(before.labels, add, remove, after.labels)
      && after == before.(labels := after.labels,
                          events := before.events + [Event(EventKind.Label, me, now, "", add, remove, "", "")])
    case Assign(add, remove) =>
      && Updated(before.assignees, add, remove, after.assignees)
      && after == before.(assignees := after.assignees,
                          events := before.events + [Event(EventKind.Assign, me, now, "", add, remove, "", "")])
  }

  /** The clock has not fallen behind the log. */
  predicate NotBefore(pr: Pr, now: Time) { pr.events == [] || pr.events[|pr.events| - 1].ts <= now }

  lemma {:induction false} MonotoneSnoc(events: seq<Event>, e: Event)
    ensures Monotone(events + [e])
       <==> Monotone(events) && (events == [] || events[|events| - 1].ts <= e.ts)
  {
    var n := |events|;
    var t := events + [e];
    assert t[n] == e && forall i :: 0 <= i < n ==> t[i] == events[i];
    if Monotone(t) {
      assert forall i :: 0 < i < n ==> t[i - 1].ts <= t[i].ts;
      assert n > 0 ==> t[n - 1].ts <= t[n].ts;
    }
  }

  lemma {:induction false} CommandFrame(cmd: Command, me: string, now: Time, before: Pr, after: Pr)
    requires Does(cmd, me, now, before, after)
    ensures SameTicket(before, after) && after.events == before.events + [EventOf(cmd, me, now)]
    ensures before.state == Merged ==> after.state == Merged
    ensures after.state == Merged && before.state != Merged ==> cmd.Merge?
  {
  }

  /** The gate takes a command's update exactly when the log is in order and the clock has kept up. */
  lemma {:induction false} CommandAccepted(cmd: Command, me: string, now: Time, before: Pr, after: Pr)
    requires Does(cmd, me, now, before, after)
    ensures Extends(before, after) <==> Monotone(before.events) && NotBefore(before, now)
  {
    CommandFrame(cmd, me, now, before, after);
    var e := EventOf(cmd, me, now);
    MonotoneSnoc(before.events, e);
    assert e.ts == now;
    assert after.events[|before.events|..] == [e];
    if cmd.Merge? {
      assert [e][0].kind == EventKind.Merge;
    }
  }

  // Runs of commands.

  datatype Turn = Turn(cmd: Command, me: string, now: Time)

  ghost predicate Turned(chain: seq<Pr>, turns: seq<Turn>, k: nat)
    requires k < |turns| && |chain| == |turns| + 1
  {
    Does(turns[k].cmd, turns[k].me, turns[k].now, chain[k], chain[k + 1])
  }

  /** The versions that a run of successful commands writes, one after the other. */
  ghost predicate History(chain: seq<Pr>, turns: seq<Turn>) {
    |chain| == |turns| + 1 && forall k: nat :: k < |turns| ==> Turned(chain, turns, k)
  }

  ghost predicate OnTime(chain: seq<Pr>, turns: seq<Turn>, k: nat)
    requires k < |turns| && |chain| == |turns| + 1
  {
    NotBefore(chain[k], turns[k].now)
  }

  lemma {:induction false} HistoryMonotone(chain: seq<Pr>, turns: seq<Turn>, k: nat)
    requires History(chain, turns) && Monotone(chain[0].events) && k < |chain|
    requires forall i: nat :: i < |turns| ==> OnTime(chain, turns, i)
    ensures Monotone(chain[k].events)
  {
    if k > 0 {
      HistoryMonotone(chain, turns, k - 1);
      assert Turned(chain, turns, k - 1) && OnTime(chain, turns, k - 1);
      var t := turns[k - 1];
      CommandAccepted(t.cmd, t.me, t.now, chain[k - 1], chain[k]);
    }
  }

  /** Every version of a run is taken exactly when no command's clock was behind the log. */
  lemma {:induction false} RunAcceptedIff(chain: seq<Pr>, turns: seq<Turn>)
    requires History(chain, turns) && Monotone(chain[0].events)
    ensures Accepted(chain) <==> forall i: nat :: i < |turns| ==> OnTime(chain, turns, i)
  {
    if forall i: nat :: i < |turns| ==> OnTime(chain, turns, i) {
      forall j: nat | 0 < j < |chain| ensures Linked(chain, j) {
        HistoryMonotone(chain, turns, j - 1);
        assert Turned(chain, turns, j - 1) && OnTime(chain, turns, j - 1);
        var t := turns[j - 1];
        CommandAccepted(t.cmd, t.me, t.now, chain[j - 1], chain[j]);
      }
    }
    if Accepted(chain) {
      forall i: nat | i < |turns| ensures OnTime(chain, turns, i) {
        assert Linked(chain, i + 1) && Turned(chain, turns, i);
        var t := turns[i];
        CommandAccepted(t.cmd, t.me, t.now, chain[i], chain[i + 1]);
      }
    }
  }

  /** With clocks that never run backwards, every command of a run is on time. */
  lemma {:induction false} SteadyClockOnTime(chain: seq<Pr>, turns: seq<Turn>, k: nat)
    requires History(chain, turns) && k < |turns| && NotBefore(chain[0], turns[0].now)
    requires forall i, j :: 0 <= i < j < |turns| ==> turns[i].now <= turns[j].now
    ensures OnTime(chain, turns, k)
  {
    if k > 0 {
      assert Turned(chain, turns, k - 1);
      var t := turns[k - 1];
      assert chain[k].events == chain[k - 1].events + [EventOf(t.cmd, t.me, t.now)];
    }
  }

  /** So every version of such a run is an accepted update of every earlier one. */
  lemma {:induction false} SteadyRunAccepted(chain: seq<Pr>, turns: seq<Turn>, i: nat, j: nat)
    requires History(chain, turns) && i < j < |chain| && Monotone(chain[0].events)
    requires NotBefore(chain[0], turns[0].now)
    requires forall a, b :: 0 <= a < b < |turns| ==> turns[a].now <= turns[b].now
    ensures Extends(chain[i], chain[j])
  {
    forall k: nat | k < |turns| ensures OnTime(chain, turns, k) {
      SteadyClockOnTime(chain, turns, k);
    }
    RunAcceptedIff(chain, turns);
    ChainExtends(chain, i, j);
  }

  /** The pull request that opening one writes: its log starts in order, at the time of opening. */
  function Opened(number: Count, title: string, source: string, target: string, me: string, now: Time,
                  body: string, mentions: seq<Count>): (pr: Pr)
    ensures Monotone(pr.events) && forall later: Time :: NotBefore(pr, later) <==> now <= later
  {
    Pr(number, title, Open, source, target, me, now, [], [], mentions,
       [Event(Opening, me, now, body, [], [], [], [])])
  }

  // The loops of the label, assign and comment commands.

  method UpdateList(xs: seq<string>, add: seq<string>, remove: seq<string>) returns (r: seq<string>)
    ensures Updated(xs, add, remove, r)
  {
    var ys := xs;
    for i := 0 to |add|
      invariant forall x :: x in ys <==> x in xs || x in add[..i]
    {
      assert add[..i + 1] == add[..i] + [add[i]];
      if add[i] !in ys {
        ys := ys + [add[i]];
      }
    }
    assert add[..|add|] == add;
    var kept: seq<string> := [];
    for i := 0 to |ys|
      invariant forall x :: x in kept <==> x in ys[..i] && x !in remove
    {
      assert ys[..i + 1] == ys[..i] + [ys[i]];
      if ys[i] !in remove {
        kept := kept + [ys[i]];
      }
    }
    assert ys[..|ys|] == ys;
    StrLePreorder();
    StrLeAntisymmetric();
    r := SortDedup(StrLe, kept);
  }

  lemma {:induction false} StrLeAntisymmetric()
    ensures Antisymmetric(StrLe)
  {
    forall a, b | StrLe(a, b) && StrLe(b, a) ensures a == b {
      StrLeTotal(a, b);
    }
  }

  method MergeMentions(xs: seq<Count>, found: seq<Count>, self: Count) returns (r: seq<Count>)
    ensures Mentioned(xs, found, self, r)
  {
    var ys := xs;
    for i := 0 to |found|
      invariant forall x: Count :: x in ys <==> x in xs || (x in found[..i] && x != self)
    {
      assert found[..i + 1] == found[..i] + [found[i]];
      if found[i] != self && found[i] !in ys {
        ys := ys + [found[i]];
      }
    }
    assert found[..|found|] == found;
    r := SortDedup(CountLe, ys);
  }

  /** The state or the arguments rule the command out. */
  predicate Refused(cmd: Command, pr: Pr) {
    match cmd
    case Comment(body, _) => Trim(body) == []
    case Close(_) => pr.state != Open
    case Reopen => pr.state != Closed
    case Label(add, remove) => add == [] && remove == []
    case Assign(add, remove) => add == [] && remove == []
    case _ => false
  }

  /** What the command makes of the pull request it has read. */
  method Apply(cmd: Command, me: string, now: Time, before: Pr) returns (r: Option<Pr>)
    ensures r.None? <==> Refused(cmd, before)
    ensures r.Some? ==> Does(cmd, me, now, before, r.value)
  {
    var pr := before;
    match cmd {
      case Comment(body, found) =>
        if Trim(body) == [] {
          return None;
        }
        var mentions := MergeMentions(pr.mentions, found, pr.number);
        pr := pr.(mentions := mentions);
      case Close(_) =>
        if pr.state == Closed || pr.state == Merged {
          return None;
        }
        pr := pr.(state := Closed);
      case Reopen =>
        if pr.state == Open || pr.state == Merged {
          return None;
        }
        pr := pr.(state := Open);
      case Merge(_) =>
        pr := pr.(state := Merged);
      case CiRun(_) =>
      case Label(add, remove) =>
        if add == [] && remove == [] {
          return None;
        }
        var labels := UpdateList(pr.labels, add, remove);
        pr := pr.(labels := labels);
      case Assign(add, remove) =>
        if add == [] && remove == [] {
          return None;
        }
        var assignees := UpdateList(pr.assignees, add, remove);
        pr := pr.(assignees := assignees);
    }
    return Some(pr.(events := pr.events + [EventOf(cmd, me, now)]));
  }

  /** What the merge and CI commands check before their long work, without the lock. */
  predicate MayStart(cmd: Command, pr: Pr) {
    match cmd
    case Merge(_) => pr.state == Open
    case CiRun(_) => pr.state != Closed
    case _ => true
  }

  lemma {:induction false} HistorySnoc(chain: seq<Pr>, turns: seq<Turn>, t: Turn, after: Pr)
    requires History(chain, turns) && Does(t.cmd, t.me, t.now, chain[|turns|], after)
    ensures History(chain + [after], turns + [t])
  {
    var longer, more := chain + [after], turns + [t];
    forall k: nat | k < |more| ensures Turned(longer, more, k) {
      if k < |turns| { assert Turned(chain, turns, k); }
    }
  }

  /** The blob reads as pr; only the last blob of a run may fail to, and only by being illegible. */
  ghost predicate ReadsAs(shown: Shown, read: string -> Option<Pr>, text: string, pr: Pr, last: bool) {
    read(text) == Some(pr) || (last && read(text).None? && !PrLegible(shown, pr))
  }

  /** A run so far: the blobs are those of the versions that its successful commands wrote. */
  ghost predicate Recorded(shown: Shown, read: string -> Option<Pr>, chain: seq<Pr>, done: seq<Turn>, blobs: seq<string>) {
    && |blobs| == |chain| && History(chain, done)
    && forall k: nat :: k < |chain| ==> ReadsAs(shown, read, blobs[k], chain[k], k + 1 == |chain|)
  }

  lemma {:induction false} RecordNext(shown: Shown, read: string -> Option<Pr>, chain: seq<Pr>, done: seq<Turn>,
                                      blobs: seq<string>, t: Turn, after: Pr, text: string)
    requires Recorded(shown, read, chain, done, blobs) && read(blobs[|done|]) == Some(chain[|done|])
    requires Does(t.cmd, t.me, t.now, chain[|done|], after) && ReadsAs(shown, read, text, after, true)
    ensures Recorded(shown, read, chain + [after], done + [t], blobs + [text])
  {
    HistorySnoc(chain, done, t, after);
    var longer, more := chain + [after], blobs + [text];
    forall k: nat | k < |longer| ensures ReadsAs(shown, read, more[k], longer[k], k + 1 == |longer|) {
      if k < |chain| { assert ReadsAs(shown, read, blobs[k], chain[k], k + 1 == |chain|); }
    }
  }

  /** A version that a command could read is the last one written. */
  lemma {:induction false} LastRead(shown: Shown, read: string -> Option<Pr>, chain: seq<Pr>, done: seq<Turn>,
                                    blobs: seq<string>, pr: Pr)
    requires Recorded(shown, read, chain, done, blobs) && read(blobs[|done|]) == Some(pr)
    ensures chain[|done|] == pr
  {
    assert ReadsAs(shown, read, blobs[|done|], chain[|done|], true);
  }

  /** What a run leaves: the versions, the commands that made them, and the blobs. */
  datatype Log = Log(chain: seq<Pr>, done: seq<Turn>, blobs: seq<string>)

  /** The log is that of a run that has come to the blob; it is empty if nothing ever read. */
  ghost predicate Follows(shown: Shown, read: string -> Option<Pr>, log: Log, blob: string) {
    if log.chain == [] then log.done == [] && read(blob).None?
    else Recorded(shown, read, log.chain, log.done, log.blobs) && log.blobs[|log.done|] == blob
  }

  ghost predicate AllOnTime(chain: seq<Pr>, turns: seq<Turn>)
    requires |chain| == |turns| + 1
  {
    forall i: nat :: i < |turns| ==> OnTime(chain, turns, i)
  }

  /** A command that succeeds extends the log of the run. */
  lemma {:induction false} FollowNext(shown: Shown, read: string -> Option<Pr>, log: Log, blob: string, t: Turn,
                                      before: Pr, after: Pr, text: string)
    requires Follows(shown, read, log, blob) && read(blob) == Some(before)
    requires Does(t.cmd, t.me, t.now, before, after) && read(text) == if PrLegible(shown, after) then Some(after) else None
    ensures log.chain != []
    ensures Follows(shown, read, Log(log.chain + [after], log.done + [t], log.blobs + [text]), text)
  {
    LastRead(shown, read, log.chain, log.done, log.blobs, before);
    RecordNext(shown, read, log.chain, log.done, log.blobs, t, after, text);
  }

  /** The log of a run that has not begun: the version the blob holds, if it reads. */
  ghost function FirstLog(read: string -> Option<Pr>, blob: string): Log {
    if read(blob).None? then Log([], [], []) else Log([read(blob).value], [], [blob])
  }

  lemma {:induction false} FollowsAccepted(shown: Shown, read: string -> Option<Pr>, log: Log, blob: string)
    requires Follows(shown, read, log, blob)
    ensures log.chain != [] && Monotone(log.chain[0].events) ==>
      (Accepted(log.chain) <==> AllOnTime(log.chain, log.done))
  {
    if log.chain != [] && Monotone(log.chain[0].events) {
      RunAcceptedIff(log.chain, log.done);
    }
  }

  // A command makes one thing of a pull request.

  lemma {:induction false} OrderedSetUnique<T(!new)>(le: (T, T) -> bool, r: seq<T>, s: seq<T>)
    requires TotalPreorder(le) && Antisymmetric(le) && OrderedSet(le, r) && OrderedSet(le, s)
    requires forall x :: x in r <==> x in s
    ensures r == s
    decreases |r|
  {
    if r == [] {
      if s != [] { FirstIn(s); }
    } else {
      FirstIn(r);
      SameFirst(le, r, s);
      TailSet(le, r);
      TailSet(le, s);
      OrderedSetUnique(le, r[1..], s[1..]);
      assert r == [r[0]] + r[1..] && s == [s[0]] + s[1..];
    }
  }

  lemma {:induction false} FirstIn<T>(s: seq<T>)
    requires s != []
    ensures s[0] in s
  {
  }

  lemma {:induction false} SameFirst<T(!new)>(le: (T, T) -> bool, r: seq<T>, s: seq<T>)
    requires TotalPreorder(le) && Antisymmetric(le) && OrderedSet(le, r) && OrderedSet(le, s)
    requires r != [] && s != [] && forall x :: x in r <==> x in s
    ensures r[0] == s[0]
  {
    assert r[0] in s && s[0] in r;
    var i :| 0 <= i < |s| && s[i] == r[0];
    var j :| 0 <= j < |r| && r[j] == s[0];
    assert forall k :: 0 < k < |s| ==> le(s[0], s[k]);
    assert forall k :: 0 < k < |r| ==> le(r[0], r[k]);
  }

  lemma {:induction false} TailSet<T(!new)>(le: (T, T) -> bool, r: seq<T>)
    requires OrderedSet(le, r) && r != []
    ensures OrderedSet(le, r[1..]) && forall x :: x in r[1..] <==> x in r && x != r[0]
  {
    assert forall i :: 0 <= i < |r[1..]| ==> r[1..][i] == r[i + 1];
    forall x | x in r && x != r[0] ensures x in r[1..] {
      var i :| 0 <= i < |r| && r[i] == x;
      assert r[1..][i - 1] == x;
    }
  }

  /** The version a command writes is determined by the one it read. */
  lemma {:induction false} DoesUnique(cmd: Command, me: string, now: Time, before: Pr, a: Pr, b: Pr)
    requires Does(cmd, me, now, before, a) && Does(cmd, me, now, before, b)
    ensures a == b
  {
    StrLePreorder();
    StrLeAntisymmetric();
    match cmd
    case Comment(_, _) => OrderedSetUnique(CountLe, a.mentions, b.mentions);
    case Label(_, _) => OrderedSetUnique(StrLe, a.labels, b.labels);
    case Assign(_, _) => OrderedSetUnique(StrLe, a.assignees, b.assignees);
    case _ =>
  }

  // Runs over the blobs of a ref.

  /** How the blobs of a ref are read and written, and what passes the gate on writing. */
  datatype Disk = Disk(number: Count, read: string -> Option<Pr>, write: Pr -> string, valid: Pr -> bool)

  /** What reads bears the number of the ref; what is valid reads back exactly when it is legible. */
  ghost predicate Reliable(d: Disk, shown: Shown) {
    && (forall b :: d.read(b).Some? ==> d.read(b).value.number == d.number)
    && forall pr :: d.valid(pr) && pr.number == d.number ==>
         d.read(d.write(pr)) == if PrLegible(shown, pr) then Some(pr) else None
  }

  /** On the blob b the command is not refused, and makes `after` of what b holds. */
  ghost predicate Makes(d: Disk, b: string, t: Turn, after: Pr) {
    d.read(b).Some? && !Refused(t.cmd, d.read(b).value) && Does(t.cmd, t.me, t.now, d.read(b).value, after)
  }

  /** One turn: the blob stays if it does not read, or the command is refused, or what it makes is
      not valid; otherwise it becomes what the command makes. */
  ghost predicate Steps(d: Disk, b: string, t: Turn, next: string) {
    if d.read(b).None? || Refused(t.cmd, d.read(b).value) then next == b
    else exists after :: Makes(d, b, t, after) && next == if d.valid(after) then d.write(after) else b
  }

  /** The turn succeeds on the blob b. */
  ghost predicate Did(d: Disk, b: string, t: Turn) { exists after :: Makes(d, b, t, after) && d.valid(after) }

  /** There is one thing that a turn can do. */
  lemma {:induction false} StepsIs(d: Disk, b: string, t: Turn, next: string, after: Pr)
    requires Steps(d, b, t, next) && Makes(d, b, t, after)
    ensures next == if d.valid(after) then d.write(after) else b
    ensures Did(d, b, t) <==> d.valid(after)
  {
    var one :| Makes(d, b, t, one) && next == if d.valid(one) then d.write(one) else b;
    DoesUnique(t.cmd, t.me, t.now, d.read(b).value, one, after);
    if Did(d, b, t) {
      var two :| Makes(d, b, t, two) && d.valid(two);
      DoesUnique(t.cmd, t.me, t.now, d.read(b).value, two, after);
    }
  }

  lemma {:induction false} IdleStays(d: Disk, b: string, t: Turn, next: string)
    requires Steps(d, b, t, next) && !Did(d, b, t)
    ensures next == b
  {
  }

  ghost predicate Stepped(d: Disk, states: seq<string>, turns: seq<Turn>, i: nat)
    requires i < |turns| && |states| == |turns| + 1
  {
    Steps(d, states[i], turns[i], states[i + 1])
  }

  /** The blobs before, between and after the turns of a run. */
  ghost predicate Ran(d: Disk, states: seq<string>, turns: seq<Turn>) {
    |states| == |turns| + 1 && forall i: nat :: i < |turns| ==> Stepped(d, states, turns, i)
  }

  ghost function Made(d: Disk, b: string, t: Turn): (after: Pr)
    requires Did(d, b, t)
    ensures Makes(d, b, t, after) && d.valid(after)
  {
    var after :| Makes(d, b, t, after) && d.valid(after);
    after
  }

  /** The log of the first i turns: one version and one blob more for each turn that succeeds. */
  ghost function LogAt(d: Disk, states: seq<string>, turns: seq<Turn>, i: nat): Log
    requires |states| == |turns| + 1 && i <= |turns|
  {
    if i == 0 then FirstLog(d.read, states[0])
    else
      var log := LogAt(d, states, turns, i - 1);
      var b, t := states[i - 1], turns[i - 1];
      if Did(d, b, t) then Log(log.chain + [Made(d, b, t)], log.done + [t], log.blobs + [states[i]]) else log
  }

  lemma {:induction false} StepFollows(d: Disk, shown: Shown, log: Log, b: string, t: Turn, next: string)
    requires Reliable(d, shown) && Follows(shown, d.read, log, b) && Steps(d, b, t, next) && Did(d, b, t)
    ensures log.chain != []
    ensures Follows(shown, d.read, Log(log.chain + [Made(d, b, t)], log.done + [t], log.blobs + [next]), next)
  {
    var before, after := d.read(b).value, Made(d, b, t);
    StepsIs(d, b, t, next, after);
    CommandFrame(t.cmd, t.me, t.now, before, after);
    FollowNext(shown, d.read, log, b, t, before, after, next);
  }

  lemma {:induction false} LogFollows(d: Disk, shown: Shown, states: seq<string>, turns: seq<Turn>, i: nat)
    requires Reliable(d, shown) && Ran(d, states, turns) && i <= |turns|
    ensures Follows(shown, d.read, LogAt(d, states, turns, i), states[i])
    ensures var first, log := FirstLog(d.read, states[0]), LogAt(d, states, turns, i);
      first.chain <= log.chain && first.blobs <= log.blobs && (first.chain == [] ==> log.chain == [])
  {
    if i > 0 {
      LogFollows(d, shown, states, turns, i - 1);
      assert Stepped(d, states, turns, i - 1);
      var b, t := states[i - 1], turns[i - 1];
      if Did(d, b, t) {
        StepFollows(d, shown, LogAt(d, states, turns, i - 1), b, t, states[i]);
      } else {
        IdleStays(d, b, t, states[i]);
      }
    }
  }

  /**
    * Any run of commands on a ref. Its log follows it: every blob of the log but the last reads as
    * its version, the last unless it is illegible, and each version is what the next successful
    * command made of the one before. The gate takes all of them exactly when no clock was behind.
    */
  lemma {:induction false} RunHistory(d: Disk, shown: Shown, states: seq<string>, turns: seq<Turn>)
    requires Reliable(d, shown) && Ran(d, states, turns)
    ensures var log := LogAt(d, states, turns, |turns|);
      && Follows(shown, d.read, log, states[|turns|])
      && (d.read(states[0]).None? ==> log.chain == [])
      && (d.read(states[0]).Some? ==>
          && log.chain != [] && log.chain[0] == d.read(states[0]).value && log.blobs[0] == states[0]
          && (Monotone(log.chain[0].events) ==> (Accepted(log.chain) <==> AllOnTime(log.chain, log.done))))
  {
    LogFollows(d, shown, states, turns, |turns|);
    FollowsAccepted(shown, d.read, LogAt(d, states, turns, |turns|), states[|turns|]);
  }

  // What may happen between a look and the command.

  /** Turn k shuts the pull request, and no later turn before n opens it again. */
  ghost predicate Shuts(d: Disk, states: seq<string>, turns: seq<Turn>, n: nat, k: nat)
    requires |states| == |turns| + 1 && n <= |turns|
  {
    && k < n && Did(d, states[k], turns[k]) && (turns[k].cmd.Close? || turns[k].cmd.Merge?)
    && forall j: nat :: k < j < n ==> !Reopens(d, states, turns, j)
  }

  ghost predicate Reopens(d: Disk, states: seq<string>, turns: seq<Turn>, j: nat)
    requires |states| == |turns| + 1 && j < |turns|
  {
    turns[j].cmd.Reopen? && Did(d, states[j], turns[j])
  }

  ghost predicate MergesAt(d: Disk, states: seq<string>, turns: seq<Turn>, j: nat)
    requires |states| == |turns| + 1 && j < |turns|
  {
    turns[j].cmd.Merge? && Did(d, states[j], turns[j])
  }

  /** A blob that reads was read by every turn before it. */
  lemma {:induction false} ReadBefore(d: Disk, states: seq<string>, turns: seq<Turn>, n: nat)
    requires Ran(d, states, turns) && 0 < n <= |turns| && d.read(states[n]).Some?
    ensures d.read(states[n - 1]).Some?
  {
    assert Stepped(d, states, turns, n - 1);
  }

  /** What one turn does to the state. */
  lemma {:induction false} StateStep(d: Disk, shown: Shown, b: string, t: Turn, next: string)
    requires Reliable(d, shown) && Steps(d, b, t, next) && d.read(b).Some? && d.read(next).Some?
    ensures d.read(next).value.state ==
      if !Did(d, b, t) then d.read(b).value.state
      else match t.cmd
        case Close(_) => Closed
        case Reopen => Open
        case Merge(_) => Merged
        case _ => d.read(b).value.state
    ensures Did(d, b, t) && t.cmd.Reopen? ==> d.read(b).value.state == Closed
    ensures Did(d, b, t) && t.cmd.Close? ==> d.read(b).value.state == Open
  {
    if Did(d, b, t) {
      var after := Made(d, b, t);
      StepsIs(d, b, t, next, after);
      CommandFrame(t.cmd, t.me, t.now, d.read(b).value, after);
    } else {
      IdleStays(d, b, t, next);
    }
  }

  /** Some turn before n shut the pull request for good. */
  ghost predicate ShutBy(d: Disk, states: seq<string>, turns: seq<Turn>, n: nat)
    requires |states| == |turns| + 1 && n <= |turns|
  {
    exists k: nat :: Shuts(d, states, turns, n, k)
  }

  ghost predicate ReopenedBy(d: Disk, states: seq<string>, turns: seq<Turn>, n: nat)
    requires |states| == |turns| + 1 && n <= |turns|
  {
    exists j: nat :: j < n && Reopens(d, states, turns, j)
  }

  ghost predicate MergedBy(d: Disk, states: seq<string>, turns: seq<Turn>, n: nat)
    requires |states| == |turns| + 1 && n <= |turns|
  {
    exists j: nat :: j < n && MergesAt(d, states, turns, j)
  }

  /**
    * The state after n turns of any run: no longer open exactly when some turn shut the pull request
    * for good or it was shut before and never reopened, and merged exactly when it was or some turn
    * merged it.
    */
  lemma {:induction false} StateAfter(d: Disk, shown: Shown, states: seq<string>, turns: seq<Turn>, n: nat)
    requires Reliable(d, shown) && Ran(d, states, turns) && n <= |turns| && d.read(states[n]).Some?
    ensures d.read(states[0]).Some?
    ensures d.read(states[n]).value.state != Open <==>
      ShutBy(d, states, turns, n) || (d.read(states[0]).value.state != Open && !ReopenedBy(d, states, turns, n))
    ensures d.read(states[n]).value.state == Merged <==>
      d.read(states[0]).value.state == Merged || MergedBy(d, states, turns, n)
  {
    if n > 0 {
      var m := n - 1;
      ReadBefore(d, states, turns, n);
      StateAfter(d, shown, states, turns, m);
      assert Stepped(d, states, turns, m);
      StateStep(d, shown, states[m], turns[m], states[n]);
      ShutNext(d, states, turns, m);
      ReopenedNext(d, states, turns, m);
      MergedNext(d, states, turns, m);
    }
  }

  /** One turn more: it shuts, it reopens, or what shut before still does. */
  lemma {:induction false} ShutNext(d: Disk, states: seq<string>, turns: seq<Turn>, m: nat)
    requires |states| == |turns| + 1 && m < |turns|
    ensures ShutBy(d, states, turns, m + 1) <==>
      || (Did(d, states[m], turns[m]) && (turns[m].cmd.Close? || turns[m].cmd.Merge?))
      || (!Reopens(d, states, turns, m) && ShutBy(d, states, turns, m))
  {
    var n := m + 1;
    if ShutBy(d, states, turns, n) {
      var k: nat :| Shuts(d, states, turns, n, k);
      if k < m {
        assert !Reopens(d, states, turns, m);
        assert Shuts(d, states, turns, m, k);
      }
    }
    if Did(d, states[m], turns[m]) && (turns[m].cmd.Close? || turns[m].cmd.Merge?) {
      assert Shuts(d, states, turns, n, m);
    }
    if !Reopens(d, states, turns, m) && ShutBy(d, states, turns, m) {
      var k: nat :| Shuts(d, states, turns, m, k);
      assert Shuts(d, states, turns, n, k);
    }
  }

  lemma {:induction false} ReopenedNext(d: Disk, states: seq<string>, turns: seq<Turn>, m: nat)
    requires |states| == |turns| + 1 && m < |turns|
    ensures ReopenedBy(d, states, turns, m + 1) <==> ReopenedBy(d, states, turns, m) || Reopens(d, states, turns, m)
  {
  }

  lemma {:induction false} MergedNext(d: Disk, states: seq<string>, turns: seq<Turn>, m: nat)
    requires |states| == |turns| + 1 && m < |turns|
    ensures MergedBy(d, states, turns, m + 1) <==> MergedBy(d, states, turns, m) || MergesAt(d, states, turns, m)
  {
  }

  /**
    * The merge command looks at an open pull request, others take their turns, and then the merge is
    * recorded without a second look. It is recorded on a pull request that is no longer open exactly
    * when one of those turns closed or merged it and none reopened it after; whatever the state, the
    * record makes it merged, and the gate takes it exactly when the log is in order and the clock is
    * not behind it.
    */
  lemma {:induction false} LateMerge(d: Disk, shown: Shown, states: seq<string>, turns: seq<Turn>, n: nat)
    requires Reliable(d, shown) && Ran(d, states, turns) && n < |turns| && turns[n].cmd.Merge?
    requires d.read(states[0]).Some? && MayStart(turns[n].cmd, d.read(states[0]).value)
    requires Did(d, states[n], turns[n])
    ensures d.read(states[n]).Some? && Made(d, states[n], turns[n]).state == Merged
    ensures d.read(states[n]).value.state != Open <==> ShutBy(d, states, turns, n)
    ensures Extends(d.read(states[n]).value, Made(d, states[n], turns[n])) <==>
      Monotone(d.read(states[n]).value.events) && NotBefore(d.read(states[n]).value, turns[n].now)
  {
    StateAfter(d, shown, states, turns, n);
    var t := turns[n];
    CommandAccepted(t.cmd, t.me, t.now, d.read(states[n]).value, Made(d, states[n], t));
  }

  /** The first i turns have been taken. */
  ghost predicate RanTo(d: Disk, states: seq<string>, turns: seq<Turn>, i: nat) {
    i <= |turns| && |states| == i + 1 && forall k: nat :: k < i ==> Steps(d, states[k], turns[k], states[k + 1])
  }

  lemma {:induction false} RanToNext(d: Disk, states: seq<string>, turns: seq<Turn>, i: nat, next: string)
    requires RanTo(d, states, turns, i) && i < |turns| && Steps(d, states[i], turns[i], next)
    ensures RanTo(d, states + [next], turns, i + 1)
  {
    var longer := states + [next];
    forall k: nat | k < i + 1 ensures Steps(d, longer[k], turns[k], longer[k + 1]) {
      if k < i { assert Steps(d, states[k], turns[k], states[k + 1]); }
    }
  }

  lemma {:induction false} RanToEnd(d: Disk, states: seq<string>, turns: seq<Turn>)
    requires RanTo(d, states, turns, |turns|)
    ensures Ran(d, states, turns)
  {
  }

  lemma {:induction false} RanNext(d: Disk, states: seq<string>, turns: seq<Turn>, t: Turn, next: string)
    requires Ran(d, states, turns) && Steps(d, states[|turns|], t, next)
    ensures Ran(d, states + [next], turns + [t])
  {
    var longer, more := states + [next], turns + [t];
    forall i: nat | i < |more| ensures Stepped(d, longer, more, i) {
      if i < |turns| { assert Stepped(d, states, turns, i); }
    }
  }

  /** A run, and then the record of a merge that was looked at before the run. */
  lemma {:induction false} MergeRecorded(d: Disk, shown: Shown, states: seq<string>, others: seq<Turn>, t: Turn, next: string)
    requires Reliable(d, shown) && Ran(d, states, others) && Steps(d, states[|others|], t, next) && t.cmd.Merge?
    requires d.read(states[0]).Some? && d.read(states[0]).value.state == Open
    ensures Ran(d, states + [next], others + [t])
    ensures Did(d, states[|others|], t) ==> d.read(states[|others|]).Some?
    ensures Did(d, states[|others|], t) ==>
      (d.read(states[|others|]).value.state != Open <==> ShutBy(d, states + [next], others + [t], |others|))
  {
    RanNext(d, states, others, t, next);
    if Did(d, states[|others|], t) {
      LateMerge(d, shown, states + [next], others + [t], |others|);
    }
  }

  /** It does happen: a close that comes between the look and the record of a merge. */
  lemma {:induction false} ClosedThenMerged(d: Disk, shown: Shown, b: string, close: Turn, merge: Turn, shut: Pr, after: Pr)
    returns (states: seq<string>)
    requires Reliable(d, shown) && close.cmd.Close? && merge.cmd.Merge?
    requires d.read(b).Some? && d.read(b).value.state == Open
    requires Does(close.cmd, close.me, close.now, d.read(b).value, shut) && d.valid(shut) && PrLegible(shown, shut)
    requires Does(merge.cmd, merge.me, merge.now, shut, after) && d.valid(after)
    ensures Ran(d, states, [close, merge]) && states[0] == b && states[2] == d.write(after)
    ensures ShutBy(d, states, [close, merge], 1) && d.read(states[1]) == Some(shut) && shut.state == Closed
  {
    var turns := [close, merge];
    states := [b, d.write(shut), d.write(after)];
    CommandFrame(close.cmd, close.me, close.now, d.read(b).value, shut);
    assert Makes(d, b, close, shut) && Makes(d, states[1], merge, after);
    assert Stepped(d, states, turns, 0) && Stepped(d, states, turns, 1);
    assert Shuts(d, states, turns, 1, 0);
  }

  lemma {:induction false} TurnTaken(d: Disk, b: string, t: Turn, ok: bool, after: Pr, next: string)
    requires d.read(b).Some? && !Refused(t.cmd, d.read(b).value) ==> Does(t.cmd, t.me, t.now, d.read(b).value, after)
    requires ok <==> d.read(b).Some? && !Refused(t.cmd, d.read(b).value) && d.valid(after)
    requires next == if ok then d.write(after) else b
    ensures Steps(d, b, t, next) && (ok <==> Did(d, b, t))
  {
    if d.read(b).Some? && !Refused(t.cmd, d.read(b).value) {
      assert Makes(d, b, t, after);
      StepsIs(d, b, t, next, after);
    }
  }

  /** The ref of one pull request, and the blob it points to. */
  class PrFile {
    const shown: Shown
    const refOk: string -> bool
    const number: Count
    var blob: string

    constructor (shown: Shown, refOk: string -> bool, number: Count, blob: string)
      ensures this.shown == shown && this.refOk == refOk && this.number == number && this.blob == blob
    {
      this.shown := shown;
      this.refOk := refOk;
      this.number := number;
      this.blob := blob;
    }

    /** Reading checks that the blob bears the number of the ref. */
    function Read(text: string): Option<Pr> {
      var pr := DecodePr(refOk, text);
      if pr.Some? && pr.value.number != number then None else pr
    }

    function Stored(): Option<Pr>
      reads this
    {
      Read(blob)
    }

    /** Writes the blob if the pull request passes the gate on writing; the ref that is written
        is the one of the pull request's own number. */
    method WriteLocked(pr: Pr) returns (ok: bool)
      modifies this
      ensures ok <==> Valid(refOk, pr)
      ensures blob == if ok && pr.number == number then EncodePr(shown, pr) else old(blob)
      ensures ok && pr.number == number ==> Stored() == if PrLegible(shown, pr) then Some(pr) else None
    {
      ok := Valid(refOk, pr);
      if ok && pr.number == number {
        PrRoundTrip(shown, refOk, pr);
        blob := EncodePr(shown, pr);
      }
    }

    function Write(pr: Pr): string { EncodePr(shown, pr) }

    predicate Passes(pr: Pr) { Valid(refOk, pr) }

    /** Reading and writing, as the runs below see them. */
    function AsDisk(): Disk { Disk(number, Read, Write, Passes) }

    lemma {:induction false} DiskIsReliable()
      ensures Reliable(AsDisk(), shown)
    {
      forall pr | Passes(pr) && pr.number == number
        ensures Read(Write(pr)) == if PrLegible(shown, pr) then Some(pr) else None
      {
        PrRoundTrip(shown, refOk, pr);
      }
    }

    /**
      * One command under the lock. It succeeds exactly on a blob that reads, if the command is not
      * refused and what it makes is valid; then it writes that, and otherwise it leaves the blob
      * alone. The merge and CI commands do not look at the state again here.
      */
    method Run(cmd: Command, me: string, now: Time) returns (ok: bool, ghost before: Pr, ghost after: Pr)
      modifies this
      ensures old(Stored()).Some? && !Refused(cmd, old(Stored()).value) ==>
        before == old(Stored()).value && Does(cmd, me, now, before, after)
      ensures ok <==> old(Stored()).Some? && !Refused(cmd, old(Stored()).value) && Valid(refOk, after)
      ensures blob == if ok then EncodePr(shown, after) else old(blob)
      ensures ok ==> Stored() == if PrLegible(shown, after) then Some(after) else None
    {
      var read := Stored();
      if read.None? {
        before := Opened(0, [], [], [], [], 0, [], []);
        after := before;
        return false, before, after;
      }
      before := read.value;
      after := before;
      var next := Apply(cmd, me, now, read.value);
      if next.None? {
        return false, before, after;
      }
      after := next.value;
      CommandFrame(cmd, me, now, before, after);
      ok := WriteLocked(next.value);
    }

    /** One turn of a run. */
    method RunNext(t: Turn) returns (ok: bool)
      modifies this
      ensures Steps(AsDisk(), old(blob), t, blob) && (ok <==> Did(AsDisk(), old(blob), t))
    {
      ghost var before, after;
      ok, before, after := Run(t.cmd, t.me, t.now);
      TurnTaken(AsDisk(), old(blob), t, ok, after, blob);
    }

    /** Any commands, one after the other: the blobs before, between and after them. */
    method RunAll(turns: seq<Turn>) returns (ghost states: seq<string>)
      modifies this
      ensures Ran(AsDisk(), states, turns) && states[0] == old(blob) && states[|turns|] == blob
    {
      states := [blob];
      ghost var d := AsDisk();
      for i := 0 to |turns|
        invariant RanTo(d, states, turns, i) && states[0] == old(blob) && states[i] == blob
      {
        var ok := RunNext(turns[i]);
        RanToNext(d, states, turns, i, blob);
        states := states + [blob];
      }
      RanToEnd(d, states, turns);
    }

    /** The look that the merge and CI commands take at the pull request first. */
    method Look(cmd: Command) returns (go: bool)
      requires cmd.Merge? || cmd.CiRun?
      ensures go <==> Stored().Some? && MayStart(cmd, Stored().value)
    {
      var read := Stored();
      return read.Some? && MayStart(cmd, read.value);
    }

    /**
      * A merge command from its look to its record, with the turns that other commands take in
      * between. If it is recorded, the pull request was no longer open exactly when one of those
      * turns shut it and none opened it again.
      */
    method MergeLate(t: Turn, others: seq<Turn>) returns (go: bool, ok: bool, ghost states: seq<string>)
      requires t.cmd.Merge?
      modifies this
      ensures go <==> old(Stored()).Some? && old(Stored()).value.state == Open
      ensures !go ==> !ok && blob == old(blob)
      ensures go ==> Ran(AsDisk(), states, others + [t]) && states[0] == old(blob) && states[|others| + 1] == blob
      ensures go ==> (ok <==> Did(AsDisk(), states[|others|], t))
      ensures go && ok ==> Read(states[|others|]).Some?
      ensures go && ok ==>
        (Read(states[|others|]).value.state != Open <==> ShutBy(AsDisk(), states, others + [t], |others|))
    {
      go := Look(t.cmd);
      ok, states := false, [];
      if go {
        states := RunAll(others);
        ok := RunNext(t);
        DiskIsReliable();
        MergeRecorded(AsDisk(), shown, states, others, t, blob);
        states := states + [blob];
      }
    }
  }
}
