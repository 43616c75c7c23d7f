/** The bounds every ticket is held to when it is written and when it is read. */
module TicketLimits {
  import opened Bytes
  import opened TicketText
  import opened TicketLists
  import opened TicketRecords

  type Count = U64

  type Time = I64

  const TS_MAX: int := 4_102_444_800
  const TITLE_MAX: nat := 1024
  const BODY_MAX: nat := 65_536
  const AUTHOR_MAX: nat := 256
  const REASON_MAX: nat := 1024
  const ENTRY_MAX: nat := 256
  const ENTRIES_MAX: nat := 256
  const MENTIONS_MAX: nat := 1024
  const EVENTS_MAX: nat := 100_000

  /** The length of a character in the encoded text. */
  function Width(c: char): nat {
    var n := c as int;
    if n < 0x80 then 1 else if n < 0x800 then 2 else if n < 0x1_0000 then 3 else 4
  }

  function ByteLength(s: string): nat { if s == [] then 0 else Width(s[0]) + ByteLength(s[1..]) }

  predicate Control(c: char) {
    c as int == 0x7F || (c as int < 0x20 && c != '\n' && c != '\r' && c != '\t')
  }

  predicate TextOk(s: string, max: nat) {
    ByteLength(s) <= max && forall i :: 0 <= i < |s| ==> !Control(s[i])
  }

  predicate TimeOk(t: int) { 0 <= t <= TS_MAX }

  predicate ArrayOk(xs: seq<string>) {
    |xs| <= ENTRIES_MAX && forall i :: 0 <= i < |xs| ==> TextOk(xs[i], ENTRY_MAX)
  }

  /** At most n bytes, and no control byte but tab, newline and carriage return. */
  predicate Short(s: string, n: nat) {
    && ByteLength(s) <= n
    && forall i :: 0 <= i < |s| ==>
         s[i] == '\t' || s[i] == '\n' || s[i] == '\r' || (0x20 <= s[i] as int && s[i] as int != 0x7F)
  }

  /** At most 256 entries of at most 256 bytes. */
  predicate ShortList(xs: seq<string>) { |xs| <= 256 && forall i :: 0 <= i < |xs| ==> Short(xs[i], 256) }

  lemma {:induction false} ShortIs(s: string, n: nat)
    ensures TextOk(s, n) <==> Short(s, n)
  {
  }

  lemma {:induction false} ShortListIs(xs: seq<string>)
    ensures ArrayOk(xs) <==> ShortList(xs)
  {
    forall i | 0 <= i < |xs| ensures TextOk(xs[i], 256) <==> Short(xs[i], 256) {
      ShortIs(xs[i], 256);
    }
  }

  /** Text that passes the gate is readable unless it holds a character beyond ASCII that is not shown. */
  lemma {:induction false} GateLetsThrough(shown: Shown, s: string, max: nat)
    requires TextOk(s, max)
    ensures AllReadable(shown, s) <==> forall i :: 0 <= i < |s| && s[i] as int >= 0x80 ==> shown(s[i])
  {
    if forall i :: 0 <= i < |s| && s[i] as int >= 0x80 ==> shown(s[i]) {
      forall i | 0 <= i < |s| ensures Readable(shown, s[i]) {
        assert !Control(s[i]);
      }
    }
    if AllReadable(shown, s) {
      forall i | 0 <= i < |s| && s[i] as int >= 0x80 ensures shown(s[i]) {
        assert Readable(shown, s[i]);
      }
    }
  }

  /** A zero-width space, for one, passes the gate; if it is not shown, its text does not read back. */
  lemma {:induction false} GateMisses(shown: Shown)
    requires !shown('\U{200B}')
    ensures var s: string := ['\U{200B}'];
            TextOk(s, TITLE_MAX) && ParseString(Quote(shown, s)) == None
  {
    var s: string := ['\U{200B}'];
    assert s[0] as int == 0x200B;
    assert ByteLength(s[1..]) == 0;
    assert !Readable(shown, s[0]);
    StringRoundTrip(shown, s);
  }

  // The keys of the records.

  lemma {:induction false} HeaderKeysOk()
    ensures KeyOk("schema_version") && KeyOk("kind") && KeyOk("number") && KeyOk("title") && KeyOk("state")
    ensures KeyOk("author") && KeyOk("created_ts") && KeyOk("labels") && KeyOk("assignees") && KeyOk("mentions")
  {
  }

  lemma {:induction false} EventKeysOk()
    ensures KeyOk("kind") && KeyOk("author") && KeyOk("ts") && KeyOk("body")
    ensures KeyOk("add") && KeyOk("remove") && KeyOk("reason")
  {
  }

  // The checks that every kind of ticket makes of an update's log.

  /** The old log is a prefix of the new one. */
  method SamePrefix<T(==)>(before: seq<T>, after: seq<T>) returns (same: bool)
    requires |before| <= |after|
    ensures same <==> before <= after
  {
    for i := 0 to |before|
      invariant forall j :: 0 <= j < i ==> after[j] == before[j]
    {
      if after[i] != before[i] {
        return false;
      }
    }
    return true;
  }

  predicate InOrder<T(!new)>(events: seq<T>, ts: T -> Time) {
    forall i :: 0 < i < |events| ==> ts(events[i - 1]) <= ts(events[i])
  }

  /** No event is older than the one before it. */
  method CheckTimes<T(!new)>(events: seq<T>, ts: T -> Time) returns (ok: bool)
    ensures ok <==> InOrder(events, ts)
  {
    if |events| > 1 {
      for i := 1 to |events|
        invariant forall j :: 0 < j < i ==> ts(events[j - 1]) <= ts(events[j])
      {
        if ts(events[i]) < ts(events[i - 1]) {
          return false;
        }
      }
    }
    return true;
  }

  // Values taken out of a record.

  function At(vals: seq<Value>, i: nat): Value { if i < |vals| then vals[i] else N(0) }

  function TextOf(v: Value): string { if v.T? then v.text else [] }

  function CountOf(v: Value): Count { if v.N? && v.number < U64_BOUND then v.number else 0 }

  function TimeOf(v: Value): Time { if v.I? && InI64(v.stamp) then v.stamp else 0 }

  function TextsOf(v: Value): seq<string> { if v.Ts? then v.texts else [] }

  function CountsOf(v: Value): seq<Count> {
    if v.Ns? && forall i :: 0 <= i < |v.numbers| ==> v.numbers[i] < U64_BOUND then v.numbers else []
  }
}
