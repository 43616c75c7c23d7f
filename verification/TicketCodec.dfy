/** Reading a ticket blob back, and what printing and reading amount to. */
module TicketCodec {
  import opened Bytes
  import opened TicketText
  import opened TicketLists
  import opened TicketTables
  import opened TicketRecords

  type Slots = seq<Option<Value>>

  /** The header, the closed events and the event being read, if there is one. */
  datatype State = State(header: Slots, events: seq<Slots>, cur: Option<Slots>)

  function Starts(fields: seq<Field>): Slots { seq(|fields|, i requires 0 <= i < |fields| => fields[i].start) }

  function Begin(schema: Schema): State { State(Starts(schema.header), [], None) }

  function Find(fields: seq<Field>, key: string): (i: nat)
    ensures i <= |fields|
  {
    if fields == [] || fields[0].key == key then 0 else Find(fields[1..], key) + 1
  }

  /** Setting the slot of a key; None for an unknown key or a value that does not parse. */
  function Assign(fields: seq<Field>, slots: Slots, key: string, val: string): (r: Option<Slots>)
    requires |slots| == |fields|
    ensures r.Some? ==> |r.value| == |fields|
  {
    var i := Find(fields, key);
    if i == |fields| then None
    else
      var v := Parse(fields[i].kind, val);
      if v.None? then None else Some(slots[i := v])
  }

  predicate StateOk(schema: Schema, st: State) {
    |st.header| == |schema.header| && (st.cur.Some? ==> |st.cur.value| == |schema.event|)
  }

  function Close(st: State): seq<Slots> { if st.cur.None? then st.events else st.events + [st.cur.value] }

  function Current(st: State): Slots { if st.cur.None? then st.header else st.cur.value }

  function CurrentFields(schema: Schema, st: State): seq<Field> {
    if st.cur.None? then schema.header else schema.event
  }

  function Put(st: State, slots: Slots): State {
    if st.cur.None? then st.(header := slots) else st.(cur := Some(slots))
  }

  function OpenEvent(schema: Schema, st: State): State {
    State(st.header, Close(st), Some(Starts(schema.event)))
  }

  function Step(schema: Schema, st: State, raw: string): (r: Option<State>)
    requires StateOk(schema, st)
    ensures r.Some? ==> StateOk(schema, r.value)
  {
    match ReadLine(raw)
    case Blank => Some(st)
    case Mark => Some(OpenEvent(schema, st))
    case Malformed => None
    case Pair(key, val) =>
      var slots := Assign(CurrentFields(schema, st), Current(st), key, val);
      if slots.None? then None else Some(Put(st, slots.value))
  }

  function Run(schema: Schema, st: State, lines: seq<string>): (r: Option<State>)
    requires StateOk(schema, st)
    ensures r.Some? ==> StateOk(schema, r.value)
    decreases |lines|
  {
    if lines == [] then Some(st)
    else
      var next := Step(schema, st, lines[0]);
      if next.None? then None else Run(schema, next.value, lines[1..])
  }

  function AllSet(slots: Slots): Option<seq<Value>> {
    if slots == [] then Some([])
    else
      var rest := AllSet(slots[1..]);
      if slots[0].None? || rest.None? then None else Some([slots[0].value] + rest.value)
  }

  function AllEvents(events: seq<Slots>): Option<seq<seq<Value>>> {
    if events == [] then Some([])
    else
      var e, rest := AllSet(events[0]), AllEvents(events[1..]);
      if e.None? || rest.None? then None else Some([e.value] + rest.value)
  }

  /** The record, if every slot is set. */
  function Finish(st: State): Option<Record> {
    var header, events := AllSet(st.header), AllEvents(Close(st));
    if header.None? || events.None? then None else Some(Record(header.value, events.value))
  }

  function Decode(schema: Schema, text: string): Option<Record> {
    var st := Run(schema, Begin(schema), BreakLines(text));
    if st.None? then None else Finish(st.value)
  }

  // Reading printed lines.

  lemma {:induction false} FindAt(fields: seq<Field>, i: nat)
    requires i < |fields| && FieldsOk(fields)
    ensures Find(fields, fields[i].key) == i
  {
    if i > 0 {
      assert fields[0].key != fields[i].key;
      assert forall j :: 0 <= j < |fields[1..]| ==> fields[1..][j] == fields[j + 1];
      FindAt(fields[1..], i - 1);
    }
  }

  lemma {:induction false} AssignPrinted(shown: Shown, fields: seq<Field>, slots: Slots, i: nat, v: Value)
    requires i < |fields| == |slots| && FieldsOk(fields) && Holds(fields[i].kind, v)
    ensures Assign(fields, slots, fields[i].key, Print(shown, v))
         == if Legible(shown, v) then Some(slots[i := Some(v)]) else None
  {
    FindAt(fields, i);
    ValueRoundTrip(shown, fields[i].kind, v);
  }

  lemma {:induction false} StepPrinted(shown: Shown, schema: Schema, st: State, i: nat, v: Value)
    requires StateOk(schema, st) && i < |CurrentFields(schema, st)|
    requires FieldsOk(CurrentFields(schema, st)) && Holds(CurrentFields(schema, st)[i].kind, v)
    ensures Step(schema, st, LineOf(CurrentFields(schema, st)[i].key, Print(shown, v)))
         == if Legible(shown, v) then Some(Put(st, Current(st)[i := Some(v)])) else None
  {
    var fields := CurrentFields(schema, st);
    PrintShape(shown, v);
    LineReads(fields[i].key, Print(shown, v));
    AssignPrinted(shown, fields, Current(st), i, v);
  }

  /** The first i values set, the rest as they start. */
  ghost function Mixed(fields: seq<Field>, vals: seq<Value>, i: nat): (slots: Slots)
    requires i <= |fields| == |vals|
    ensures |slots| == |fields|
  {
    seq(|fields|, j requires 0 <= j < |fields| => if j < i then Some(vals[j]) else fields[j].start)
  }

  ghost predicate LegibleFrom(shown: Shown, vals: seq<Value>, i: nat) {
    forall j :: i <= j < |vals| ==> Legible(shown, vals[j])
  }

  lemma {:induction false} RunCons(schema: Schema, st: State, line: string, tail: seq<string>)
    requires StateOk(schema, st)
    ensures var next := Step(schema, st, line);
            Run(schema, st, [line] + tail) == if next.None? then None else Run(schema, next.value, tail)
  {
    assert ([line] + tail)[1..] == tail;
  }

  lemma {:induction false} MixedStep(fields: seq<Field>, vals: seq<Value>, i: nat)
    requires i < |fields| == |vals|
    ensures Mixed(fields, vals, i)[i := Some(vals[i])] == Mixed(fields, vals, i + 1)
  {
  }

  lemma {:induction false} RunFields(shown: Shown, schema: Schema, st: State, fields: seq<Field>,
                                     vals: seq<Value>, i: nat, rest: seq<string>)
    requires StateOk(schema, st) && fields == CurrentFields(schema, st) && FieldsOk(fields)
    requires Fill(fields, vals) && i <= |fields| && Current(st) == Mixed(fields, vals, i)
    ensures Run(schema, st, FieldLines(shown, fields, vals, i) + rest) ==
      if LegibleFrom(shown, vals, i) then Run(schema, Put(st, Mixed(fields, vals, |fields|)), rest) else None
    decreases |fields| - i
  {
    if i == |fields| {
      assert [] + rest == rest;
      assert Put(st, Current(st)) == st;
    } else {
      var line := LineOf(fields[i].key, Print(shown, vals[i]));
      var tail := FieldLines(shown, fields, vals, i + 1) + rest;
      assert [line] + FieldLines(shown, fields, vals, i + 1) + rest == [line] + tail;
      RunCons(schema, st, line, tail);
      StepPrinted(shown, schema, st, i, vals[i]);
      MixedStep(fields, vals, i);
      if Legible(shown, vals[i]) {
        RunFields(shown, schema, Put(st, Mixed(fields, vals, i + 1)), fields, vals, i + 1, rest);
      }
    }
  }

  // Reading printed events.

  ghost function Set(vals: seq<Value>): (slots: Slots)
    ensures |slots| == |vals|
  {
    seq(|vals|, j requires 0 <= j < |vals| => Some(vals[j]))
  }

  lemma {:induction false} SetIsMixed(fields: seq<Field>, vals: seq<Value>)
    requires |fields| == |vals|
    ensures Mixed(fields, vals, |fields|) == Set(vals) && Mixed(fields, vals, 0) == Starts(fields)
  {
  }

  /** The state after a run of events. */
  ghost function After(st: State, events: seq<seq<Value>>): State
    decreases |events|
  {
    if events == [] then st
    else After(State(st.header, Close(st), Some(Set(events[0]))), events[1..])
  }

  ghost predicate EventsLegible(shown: Shown, events: seq<seq<Value>>) {
    forall i :: 0 <= i < |events| ==> LegibleFrom(shown, events[i], 0)
  }

  ghost predicate EventsFill(schema: Schema, events: seq<seq<Value>>) {
    forall i :: 0 <= i < |events| ==> Fill(schema.event, events[i])
  }

  lemma {:induction false} RunBlank(schema: Schema, st: State, tail: seq<string>)
    requires StateOk(schema, st)
    ensures Run(schema, st, [[]] + tail) == Run(schema, st, tail)
  {
    RunCons(schema, st, [], tail);
    assert Trim([]) == [];
  }

  /** One event block, from its mark to its blank line. */
  lemma {:induction false} RunEvent(shown: Shown, schema: Schema, st: State, vals: seq<Value>, rest: seq<string>)
    requires StateOk(schema, st) && SchemaOk(schema) && Fill(schema.event, vals)
    ensures Run(schema, st, [MARK] + (FieldLines(shown, schema.event, vals, 0) + ([[]] + rest))) ==
      if LegibleFrom(shown, vals, 0) then Run(schema, State(st.header, Close(st), Some(Set(vals))), rest) else None
  {
    MarkReads();
    var open := OpenEvent(schema, st);
    RunCons(schema, st, MARK, FieldLines(shown, schema.event, vals, 0) + ([[]] + rest));
    SetIsMixed(schema.event, vals);
    RunFields(shown, schema, open, schema.event, vals, 0, [[]] + rest);
    RunBlank(schema, Put(open, Set(vals)), rest);
  }

  lemma {:induction false} EventsHead(shown: Shown, schema: Schema, events: seq<seq<Value>>)
    requires events != [] && EventsFill(schema, events)
    ensures Fill(schema.event, events[0]) && EventsFill(schema, events[1..])
    ensures EventsLegible(shown, events) <==> LegibleFrom(shown, events[0], 0) && EventsLegible(shown, events[1..])
  {
    assert forall i :: 0 <= i < |events[1..]| ==> events[1..][i] == events[i + 1];
    if LegibleFrom(shown, events[0], 0) && EventsLegible(shown, events[1..]) {
      forall i | 0 <= i < |events| ensures LegibleFrom(shown, events[i], 0) {
        if i > 0 {
          assert events[i] == events[1..][i - 1];
        }
      }
    }
  }

  lemma {:induction false} Regroup(a: seq<string>, b: seq<string>, c: seq<string>, rest: seq<string>)
    ensures a + (b + ([[]] + c)) + rest == a + (b + ([[]] + (c + rest)))
  {
  }

  lemma {:induction false} RunEvents(shown: Shown, schema: Schema, st: State, events: seq<seq<Value>>,
                                     rest: seq<string>)
    requires StateOk(schema, st) && SchemaOk(schema) && EventsFill(schema, events)
    ensures StateOk(schema, After(st, events))
    ensures Run(schema, st, EventLines(shown, schema.event, events) + rest) ==
      if EventsLegible(shown, events) then Run(schema, After(st, events), rest) else None
    decreases |events|
  {
    if events == [] {
      assert [] + rest == rest;
    } else {
      EventsHead(shown, schema, events);
      var tail := EventLines(shown, schema.event, events[1..]);
      Regroup([MARK], FieldLines(shown, schema.event, events[0], 0), tail, rest);
      RunEvent(shown, schema, st, events[0], tail + rest);
      RunEvents(shown, schema, State(st.header, Close(st), Some(Set(events[0]))), events[1..], rest);
    }
  }

  lemma {:induction false} SetIsSet(vals: seq<Value>)
    ensures AllSet(Set(vals)) == Some(vals)
  {
    if vals != [] {
      assert Set(vals)[1..] == Set(vals[1..]);
      SetIsSet(vals[1..]);
      assert [vals[0]] + vals[1..] == vals;
    }
  }

  ghost function SetEvents(events: seq<seq<Value>>): seq<Slots> {
    if events == [] then [] else [Set(events[0])] + SetEvents(events[1..])
  }

  lemma {:induction false} CloseAfter(st: State, events: seq<seq<Value>>)
    ensures Close(After(st, events)) == Close(st) + SetEvents(events)
    ensures After(st, events).header == st.header
    decreases |events|
  {
    if events != [] {
      var next := State(st.header, Close(st), Some(Set(events[0])));
      CloseAfter(next, events[1..]);
      assert Close(st) + [Set(events[0])] + SetEvents(events[1..])
          == Close(st) + ([Set(events[0])] + SetEvents(events[1..]));
    }
  }

  lemma {:induction false} EventsSet(events: seq<seq<Value>>)
    ensures AllEvents(SetEvents(events)) == Some(events)
  {
    if events != [] {
      SetIsSet(events[0]);
      EventsSet(events[1..]);
      assert SetEvents(events)[1..] == SetEvents(events[1..]);
      assert [events[0]] + events[1..] == events;
    }
  }

  // The whole blob.

  ghost predicate RecordLegible(shown: Shown, r: Record) {
    LegibleFrom(shown, r.header, 0) && EventsLegible(shown, r.events)
  }

  lemma {:induction false} RunRecord(shown: Shown, schema: Schema, r: Record)
    requires SchemaOk(schema) && Fits(schema, r)
    ensures Run(schema, Begin(schema), RecordLines(shown, schema, r) + [[]]) ==
      if RecordLegible(shown, r) then Some(After(State(Set(r.header), [], None), r.events)) else None
  {
    var st := Begin(schema);
    var events := EventLines(shown, schema.event, r.events);
    Regroup([BANNER], FieldLines(shown, schema.header, r.header, 0), events, [[]]);
    BannerReads();
    RunCons(schema, st, BANNER, FieldLines(shown, schema.header, r.header, 0) + ([[]] + (events + [[]])));
    SetIsMixed(schema.header, r.header);
    RunFields(shown, schema, st, schema.header, r.header, 0, [[]] + (events + [[]]));
    var full := State(Set(r.header), [], None);
    RunBlank(schema, full, events + [[]]);
    RunEvents(shown, schema, full, r.events, [[]]);
    var last: seq<string> := [[]];
    assert last + [] == last;
    RunBlank(schema, After(full, r.events), []);
  }

  /** A printed record reads back as itself exactly when it is legible, and otherwise not at all. */
  lemma {:induction false} RoundTrip(shown: Shown, schema: Schema, r: Record)
    requires SchemaOk(schema) && Fits(schema, r)
    ensures Decode(schema, Encode(shown, schema, r)) == if RecordLegible(shown, r) then Some(r) else None
  {
    RecordLinesShape(shown, schema, r);
    BreakJoined(RecordLines(shown, schema, r));
    RunRecord(shown, schema, r);
    FinishRecord(r);
  }

  /** The state that a record's lines lead to gives the record back. */
  lemma {:induction false} FinishRecord(r: Record)
    ensures Finish(After(State(Set(r.header), [], None), r.events)) == Some(r)
  {
    var full := State(Set(r.header), [], None);
    CloseAfter(full, r.events);
    assert [] + SetEvents(r.events) == SetEvents(r.events);
    SetIsSet(r.header);
    EventsSet(r.events);
  }

  // The loops.

  method ReadValue(kind: Kind, val: string) returns (r: Option<Value>)
    ensures r == Parse(kind, val)
  {
    match kind
    case Text =>
      var s := ReadString(val);
      return if s.None? then None else Some(T(s.value));
    case Choice(words) =>
      var w := ReadString(val);
      if w.None? {
        return None;
      }
      var kept := Lookup(words, w.value);
      return if kept.None? then None else Some(T(kept.value));
    case Version(n) =>
      return if ParseNat(val, U32_BOUND) == Some(n) then Some(N(n)) else None;
    case Number =>
      var n := ParseNat(val, U64_BOUND);
      return if n.None? then None else Some(N(n.value));
    case Stamp =>
      var n := ParseInt(val);
      return if n.None? then None else Some(I(n.value));
    case Texts =>
      var xs := ReadStrings(val);
      return if xs.None? then None else Some(Ts(xs.value));
    case Numbers =>
      var xs := ReadNumbers(val);
      return if xs.None? then None else Some(Ns(xs.value));
    case Fields =>
      var t := ReadTable(val);
      return if t.None? then None else Some(Tb(t.value));
  }

  /** One line: nothing, a new event, or a slot set in the header or the open event. */
  method ReadOneLine(schema: Schema, st: State, raw: string) returns (r: Option<State>)
    requires StateOk(schema, st)
    ensures r == Step(schema, st, raw)
  {
    var line := ReadLine(raw);
    match line
    case Blank =>
      return Some(st);
    case Mark =>
      var events := st.events;
      if st.cur.Some? {
        events := events + [st.cur.value];
      }
      return Some(State(st.header, events, Some(Starts(schema.event))));
    case Malformed =>
      return None;
    case Pair(key, val) =>
      var fields := if st.cur.Some? then schema.event else schema.header;
      var i := Find(fields, key);
      if i == |fields| {
        return None;
      }
      var v := ReadValue(fields[i].kind, val);
      if v.None? {
        return None;
      }
      if st.cur.Some? {
        return Some(st.(cur := Some(st.cur.value[i := v])));
      }
      return Some(st.(header := st.header[i := v]));
  }

  /** The loop over the lines of a blob. */
  method ReadRecord(schema: Schema, text: string) returns (r: Option<Record>)
    ensures r == Decode(schema, text)
  {
    var lines := BreakLines(text);
    var st := Begin(schema);
    assert lines[0..] == lines;
    for i := 0 to |lines|
      invariant StateOk(schema, st)
      invariant Run(schema, st, lines[i..]) == Run(schema, Begin(schema), lines)
    {
      assert lines[i..][1..] == lines[i + 1..];
      var next := ReadOneLine(schema, st, lines[i]);
      if next.None? {
        return None;
      }
      st := next.value;
    }
    assert lines[|lines|..] == [];
    return Finish(st);
  }

  lemma {:induction false} JoinedAppend(a: seq<string>, b: seq<string>)
    ensures Joined(a + b) == Joined(a) + Joined(b)
  {
    if a == [] {
      assert a + b == b;
    } else {
      Uncons(a, b);
      JoinedAppend(a[1..], b);
      Assoc(['\n'], Joined(a[1..]), Joined(b));
      Assoc(a[0], ['\n'] + Joined(a[1..]), Joined(b));
    }
  }

  /** The loop that writes the lines of the fields. */
  method WriteFields(shown: Shown, fields: seq<Field>, vals: seq<Value>) returns (s: string)
    requires |fields| == |vals|
    ensures s == Joined(FieldLines(shown, fields, vals, 0))
  {
    s := [];
    ghost var lines := FieldLines(shown, fields, vals, 0);
    ghost var done: seq<string> := [];
    assert [] + lines == lines;
    for i := 0 to |fields|
      invariant s == Joined(done) && done + FieldLines(shown, fields, vals, i) == lines
    {
      var line := LineOf(fields[i].key, Print(shown, vals[i]));
      OneMore(done, line, FieldLines(shown, fields, vals, i + 1));
      s := s + (line + ['\n']);
      done := done + [line];
    }
    assert done + [] == done;
  }

  lemma {:induction false} OneMore(done: seq<string>, line: string, rest: seq<string>)
    ensures Joined(done + [line]) == Joined(done) + (line + ['\n'])
    ensures done + ([line] + rest) == done + [line] + rest
  {
    JoinedAppend(done, [line]);
    assert [line][1..] == [];
  }

  lemma {:induction false} JoinedFirst(line: string, rest: seq<string>)
    ensures Joined([line] + rest) == line + ['\n'] + Joined(rest)
  {
    assert ([line] + rest)[1..] == rest;
  }

  lemma {:induction false} JoinedBlock(shown: Shown, fields: seq<Field>, vals: seq<Value>, head: string,
                                       rest: seq<string>)
    requires |fields| == |vals|
    ensures Joined([head] + (FieldLines(shown, fields, vals, 0) + ([[]] + rest)))
         == head + ['\n'] + Joined(FieldLines(shown, fields, vals, 0)) + ['\n'] + Joined(rest)
  {
    JoinedFrame(head, FieldLines(shown, fields, vals, 0), rest);
  }

  /** A head line, a block of lines, and a blank line, joined. */
  lemma {:induction false} JoinedFrame(head: string, lines: seq<string>, rest: seq<string>)
    ensures Joined([head] + (lines + ([[]] + rest))) == head + ['\n'] + Joined(lines) + ['\n'] + Joined(rest)
  {
    JoinedFirst(head, lines + ([[]] + rest));
    JoinedAppend(lines, [[]] + rest);
    JoinedFirst([], rest);
    assert [] + ['\n'] == ['\n'];
    Assoc(head + ['\n'], Joined(lines), ['\n'] + Joined(rest));
    Assoc(head + ['\n'] + Joined(lines), ['\n'], Joined(rest));
  }

  /** The loop that writes a record. */
  method WriteRecord(shown: Shown, schema: Schema, r: Record) returns (s: string)
    requires Sized(schema, r)
    ensures s == Encode(shown, schema, r)
  {
    var header := WriteFields(shown, schema.header, r.header);
    s := BANNER + ['\n'] + header + ['\n'];
    JoinedBlock(shown, schema.header, r.header, BANNER, EventLines(shown, schema.event, r.events));
    assert r.events[0..] == r.events;
    for i := 0 to |r.events|
      invariant s + Joined(EventLines(shown, schema.event, r.events[i..])) == Encode(shown, schema, r)
    {
      ghost var rest := EventLines(shown, schema.event, r.events[i + 1..]);
      assert r.events[i..][1..] == r.events[i + 1..];
      JoinedBlock(shown, schema.event, r.events[i], MARK, rest);
      var fields := WriteFields(shown, schema.event, r.events[i]);
      var block := MARK + ['\n'] + fields + ['\n'];
      Assoc(s, block, Joined(rest));
      s := s + block;
    }
    assert r.events[|r.events|..] == [];
    assert s + [] == s;
  }
}
