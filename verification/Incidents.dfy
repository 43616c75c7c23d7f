/** Incidents: their blob with its table of fields, and the gate on updates. */
module Incidents {
  import opened Bytes
  import opened TicketText
  import opened TicketLists
  import opened TicketTables
  import opened TicketRecords
  import opened TicketCodec
  import opened TicketBlobs
  import opened TicketLimits

  datatype IncidentState = Detected | Investigating | Mitigated | Resolved

  datatype Severity = Sev1 | Sev2 | Sev3 | Sev4

  datatype EventKind = Opening | Comment | Transition | Severed | Label | Assign | SetField | Resolve | Reopen

  datatype Event = Event(kind: EventKind, author: string, ts: Time, body: string, add: seq<string>,
                         remove: seq<string>, reason: string, newState: string, newSeverity: string,
                         fieldKey: string, fieldValue: string)

  /** The field map is kept as its entries in key order. */
  datatype Incident = Incident(number: Count, title: string, state: IncidentState, severity: Severity,
                               incidentType: string, author: string, createdTs: Time, labels: seq<string>,
                               assignees: seq<string>, mentions: seq<Count>, fields: Table, events: seq<Event>)

  function StateWord(s: IncidentState): string {
    match s
    case Detected => "detected"
    case Investigating => "investigating"
    case Mitigated => "mitigated"
    case Resolved => "resolved"
  }

  function StateOf(w: string): IncidentState {
    if w == "investigating" then Investigating
    else if w == "mitigated" then Mitigated
    else if w == "resolved" then Resolved
    else Detected
  }

  function SeverityWord(s: Severity): string {
    match s
    case Sev1 => "sev1"
    case Sev2 => "sev2"
    case Sev3 => "sev3"
    case Sev4 => "sev4"
  }

  function SeverityOf(w: string): Severity {
    if w == "sev2" then Sev2 else if w == "sev3" then Sev3 else if w == "sev4" then Sev4 else Sev1
  }

  function KindWord(k: EventKind): string {
    match k
    case Opening => "open"
    case Comment => "comment"
    case Transition => "transition"
    case Severed => "severity"
    case Label => "label"
    case Assign => "assign"
    case SetField => "set_field"
    case Resolve => "resolve"
    case Reopen => "reopen"
  }

  function KindOf(w: string): EventKind {
    if w == "open" then Opening
    else if w == "transition" then Transition
    else if w == "severity" then Severed
    else if w == "label" then Label
    else if w == "assign" then Assign
    else if w == "set_field" then SetField
    else if w == "resolve" then Resolve
    else if w == "reopen" then Reopen
    else Comment
  }

  const KINDS := [("incident", "incident")]
  const STATES := [("detected", "detected"), ("investigating", "investigating"),
                   ("mitigated", "mitigated"), ("resolved", "resolved")]
  const SEVERITIES := [("sev1", "sev1"), ("SEV1", "sev1"), ("1", "sev1"), ("sev2", "sev2"), ("SEV2", "sev2"),
                       ("2", "sev2"), ("sev3", "sev3"), ("SEV3", "sev3"), ("3", "sev3"), ("sev4", "sev4"),
                       ("SEV4", "sev4"), ("4", "sev4")]
  const EVENT_KINDS := [("open", "open"), ("comment", "comment"), ("transition", "transition"),
                        ("severity", "severity"), ("label", "label"), ("assign", "assign"),
                        ("set_field", "set_field"), ("resolve", "resolve"), ("reopen", "reopen")]

  const TYPE_MAX: nat := 128
  const STATE_MAX: nat := 64
  const KEY_MAX: nat := 128
  const VALUE_MAX: nat := 4096
  const FIELDS_MAX: nat := 256

  const HEADER: seq<Field> := [
    Field("schema_version", Version(1), None),
    Field("kind", Choice(KINDS), None),
    Field("number", Number, None),
    Field("title", Text, Some(T(""))),
    Field("state", Choice(STATES), None),
    Field("severity", Choice(SEVERITIES), None),
    Field("incident_type", Text, Some(T(""))),
    Field("author", Text, Some(T(""))),
    Field("created_ts", Stamp, Some(I(0))),
    Field("labels", Texts, Some(Ts([]))),
    Field("assignees", Texts, Some(Ts([]))),
    Field("mentions", Numbers, Some(Ns([]))),
    Field("fields", Fields, Some(Tb([])))
  ]

  const EVENT: seq<Field> := [
    Field("kind", Choice(EVENT_KINDS), Some(T("comment"))),
    Field("author", Text, Some(T(""))),
    Field("ts", Stamp, Some(I(0))),
    Field("body", Text, Some(T(""))),
    Field("add", Texts, Some(Ts([]))),
    Field("remove", Texts, Some(Ts([]))),
    Field("reason", Text, Some(T(""))),
    Field("new_state", Text, Some(T(""))),
    Field("new_severity", Text, Some(T(""))),
    Field("field_key", Text, Some(T(""))),
    Field("field_value", Text, Some(T("")))
  ]

  const SCHEMA := Schema(HEADER, EVENT)

  function EventValues(e: Event): seq<Value> {
    [T(KindWord(e.kind)), T(e.author), I(e.ts), T(e.body), Ts(e.add), Ts(e.remove), T(e.reason),
     T(e.newState), T(e.newSeverity), T(e.fieldKey), T(e.fieldValue)]
  }

  function EventFrom(v: seq<Value>): Event {
    Event(KindOf(TextOf(At(v, 0))), TextOf(At(v, 1)), TimeOf(At(v, 2)), TextOf(At(v, 3)),
          TextsOf(At(v, 4)), TextsOf(At(v, 5)), TextOf(At(v, 6)), TextOf(At(v, 7)), TextOf(At(v, 8)),
          TextOf(At(v, 9)), TextOf(At(v, 10)))
  }

  function TableOf(v: Value): Table { if v.Tb? then v.table else [] }

  function RecordOf(x: Incident): Record {
    Record([N(1), T("incident"), N(x.number), T(x.title), T(StateWord(x.state)), T(SeverityWord(x.severity)),
            T(x.incidentType), T(x.author), I(x.createdTs), Ts(x.labels), Ts(x.assignees), Ns(x.mentions),
            Tb(x.fields)],
           seq(|x.events|, i requires 0 <= i < |x.events| => EventValues(x.events[i])))
  }

  function IncidentFrom(r: Record): Incident {
    var h := r.header;
    Incident(CountOf(At(h, 2)), TextOf(At(h, 3)), StateOf(TextOf(At(h, 4))), SeverityOf(TextOf(At(h, 5))),
             TextOf(At(h, 6)), TextOf(At(h, 7)), TimeOf(At(h, 8)), TextsOf(At(h, 9)), TextsOf(At(h, 10)),
             CountsOf(At(h, 11)), TableOf(At(h, 12)),
             seq(|r.events|, i requires 0 <= i < |r.events| => EventFrom(r.events[i])))
  }

  predicate EventValid(e: Event) {
    && TextOk(e.author, AUTHOR_MAX) && TextOk(e.body, BODY_MAX) && TextOk(e.reason, REASON_MAX)
    && TextOk(e.newState, STATE_MAX) && TextOk(e.newSeverity, STATE_MAX)
    && TextOk(e.fieldKey, KEY_MAX) && TextOk(e.fieldValue, VALUE_MAX)
    && TimeOk(e.ts) && ArrayOk(e.add) && ArrayOk(e.remove)
  }

  predicate Valid(x: Incident) {
    && TextOk(x.title, TITLE_MAX) && TextOk(x.incidentType, TYPE_MAX) && TextOk(x.author, AUTHOR_MAX)
    && TimeOk(x.createdTs) && ArrayOk(x.labels) && ArrayOk(x.assignees)
    && |x.mentions| <= MENTIONS_MAX && |x.fields| <= FIELDS_MAX && |x.events| <= EVENTS_MAX
    && (forall i :: 0 <= i < |x.fields| ==> TextOk(x.fields[i].0, KEY_MAX) && TextOk(x.fields[i].1, VALUE_MAX))
    && forall i :: 0 <= i < |x.events| ==> EventValid(x.events[i])
  }

  function EncodeIncident(shown: Shown, x: Incident): string { Encode(shown, SCHEMA, RecordOf(x)) }

  function DecodeIncident(text: string): Option<Incident> {
    var r := Decode(SCHEMA, text);
    if r.None? then None
    else
      var x := IncidentFrom(r.value);
      if Valid(x) then Some(x) else None
  }

  ghost predicate EventLegible(shown: Shown, e: Event) {
    && AllReadable(shown, e.author) && AllReadable(shown, e.body) && AllReadable(shown, e.reason)
    && AllReadable(shown, e.newState) && AllReadable(shown, e.newSeverity)
    && AllReadable(shown, e.fieldKey) && AllReadable(shown, e.fieldValue)
    && AllReadables(shown, e.add) && AllReadables(shown, e.remove)
  }

  ghost predicate HeaderLegible(shown: Shown, x: Incident) {
    && AllReadable(shown, x.title) && AllReadable(shown, x.incidentType) && AllReadable(shown, x.author)
    && AllReadables(shown, x.labels) && AllReadables(shown, x.assignees) && TableReadable(shown, x.fields)
  }

  /** No text is printed with a numeric escape, and no field key holds an equals sign. */
  ghost predicate IncidentLegible(shown: Shown, x: Incident) {
    HeaderLegible(shown, x) && forall i :: 0 <= i < |x.events| ==> EventLegible(shown, x.events[i])
  }

  lemma {:induction false} HeaderKeys()
    ensures forall i, j :: 0 <= i < j < |HEADER| ==> HEADER[i].key != HEADER[j].key
  {
  }

  lemma {:induction false} HeaderLetters()
    ensures forall i :: 0 <= i < |HEADER| ==> KeyOk(HEADER[i].key)
  {
    HeaderKeysOk();
    assert KeyOk("severity") && KeyOk("incident_type") && KeyOk("fields");
  }

  lemma {:induction false} EventKeys()
    ensures forall i, j :: 0 <= i < j < |EVENT| ==> EVENT[i].key != EVENT[j].key
  {
  }

  lemma {:induction false} EventLetters()
    ensures forall i :: 0 <= i < |EVENT| ==> KeyOk(EVENT[i].key) && EVENT[i].start.Some?
  {
    EventKeysOk();
    assert KeyOk("new_state") && KeyOk("new_severity") && KeyOk("field_key") && KeyOk("field_value");
  }

  lemma {:induction false} SchemaIsOk()
    ensures SchemaOk(SCHEMA)
  {
    HeaderKeys();
    HeaderLetters();
    EventKeys();
    EventLetters();
  }

  lemma {:induction false} EventWordKept(k: EventKind)
    ensures Lookup(EVENT_KINDS, KindWord(k)) == Some(KindWord(k))
  {
  }

  lemma {:induction false} EventWord(shown: Shown, k: EventKind)
    ensures AllReadable(shown, KindWord(k)) && KindOf(KindWord(k)) == k
  {
  }

  lemma {:induction false} StateKept(s: IncidentState)
    ensures Lookup(STATES, StateWord(s)) == Some(StateWord(s))
  {
  }

  lemma {:induction false} StateWords(shown: Shown, s: IncidentState)
    ensures AllReadable(shown, StateWord(s)) && AllReadable(shown, "incident") && StateOf(StateWord(s)) == s
  {
  }

  lemma {:induction false} SeverityKept(s: Severity)
    ensures Lookup(SEVERITIES, SeverityWord(s)) == Some(SeverityWord(s))
  {
    LookupAt(SEVERITIES, SeverityWord(s), match s case Sev1 => 0 case Sev2 => 3 case Sev3 => 6 case Sev4 => 9);
  }

  lemma {:induction false} SeverityWords(shown: Shown, s: Severity)
    ensures AllReadable(shown, SeverityWord(s)) && SeverityOf(SeverityWord(s)) == s
  {
  }

  lemma {:induction false} EventFills(e: Event)
    ensures Fill(EVENT, EventValues(e))
  {
    var v := EventValues(e);
    forall i | 0 <= i < |v| ensures Holds(EVENT[i].kind, v[i]) {
      if i == 0 { EventKindSlot(e.kind); } else { EventSlot(e, i); }
    }
  }

  lemma {:induction false} EventKindSlot(k: EventKind)
    ensures Holds(EVENT[0].kind, T(KindWord(k)))
  {
    EventWordKept(k);
    ChoiceHolds(EVENT_KINDS, KindWord(k));
  }

  lemma {:induction false} EventSlot(e: Event, i: nat)
    requires 0 < i < |EVENT|
    ensures Holds(EVENT[i].kind, EventValues(e)[i])
  {
  }

  lemma {:induction false} EventRestores(e: Event)
    ensures EventFrom(EventValues(e)) == e
  {
    EventWord(_ => true, e.kind);
  }

  lemma {:induction false} EventLegibility(shown: Shown, e: Event)
    ensures LegibleFrom(shown, EventValues(e), 0) <==> EventLegible(shown, e)
  {
    EventWord(shown, e.kind);
    var v := EventValues(e);
    assert v[1] == T(e.author) && v[3] == T(e.body) && v[4] == Ts(e.add) && v[5] == Ts(e.remove);
    assert v[6] == T(e.reason) && v[7] == T(e.newState) && v[8] == T(e.newSeverity);
    assert v[9] == T(e.fieldKey) && v[10] == T(e.fieldValue);
  }

  lemma {:induction false} HeaderFills(x: Incident)
    requires Ordered(x.fields)
    ensures Fill(HEADER, RecordOf(x).header)
  {
    var h := RecordOf(x).header;
    forall i | 0 <= i < |h| ensures Holds(HEADER[i].kind, h[i]) {
      if i == 1 || i == 4 || i == 5 { HeaderWordSlot(x, i); } else { HeaderSlot(x, i); }
    }
  }

  lemma {:induction false} HeaderWordSlot(x: Incident, i: nat)
    requires i == 1 || i == 4 || i == 5
    ensures Holds(HEADER[i].kind, RecordOf(x).header[i])
  {
    if i == 1 {
      ChoiceHolds(KINDS, "incident");
    } else if i == 4 {
      StateKept(x.state);
      ChoiceHolds(STATES, StateWord(x.state));
    } else {
      SeverityKept(x.severity);
      ChoiceHolds(SEVERITIES, SeverityWord(x.severity));
    }
  }

  lemma {:induction false} HeaderSlot(x: Incident, i: nat)
    requires i < |HEADER| && i != 1 && i != 4 && i != 5 && Ordered(x.fields)
    ensures Holds(HEADER[i].kind, RecordOf(x).header[i])
  {
  }

  lemma {:induction false} HeaderLegibility(shown: Shown, x: Incident)
    ensures LegibleFrom(shown, RecordOf(x).header, 0) <==> HeaderLegible(shown, x)
  {
    StateWords(shown, x.state);
    SeverityWords(shown, x.severity);
    var h := RecordOf(x).header;
    assert h[3] == T(x.title) && h[6] == T(x.incidentType) && h[7] == T(x.author);
    assert h[9] == Ts(x.labels) && h[10] == Ts(x.assignees) && h[12] == Tb(x.fields);
  }

  lemma {:induction false} RecordFits(shown: Shown, x: Incident)
    requires Ordered(x.fields)
    ensures Fits(SCHEMA, RecordOf(x))
    ensures RecordLegible(shown, RecordOf(x)) <==> IncidentLegible(shown, x)
  {
    HeaderFills(x);
    HeaderLegibility(shown, x);
    var r := RecordOf(x);
    forall i | 0 <= i < |x.events|
      ensures Fill(EVENT, r.events[i])
      ensures LegibleFrom(shown, r.events[i], 0) <==> EventLegible(shown, x.events[i])
    {
      EventFills(x.events[i]);
      EventLegibility(shown, x.events[i]);
    }
  }

  lemma {:induction false} RecordRestores(x: Incident)
    ensures IncidentFrom(RecordOf(x)) == x
  {
    HeaderRestores(x);
    EventsRestore(x);
  }

  lemma {:induction false} HeaderRestores(x: Incident)
    ensures IncidentFrom(RecordOf(x)).(events := x.events) == x
  {
    StateWords(_ => true, x.state);
    SeverityWords(_ => true, x.severity);
  }

  lemma {:induction false} EventsRestore(x: Incident)
    ensures IncidentFrom(RecordOf(x)).events == x.events
  {
    var y := IncidentFrom(RecordOf(x));
    forall i | 0 <= i < |x.events| ensures y.events[i] == x.events[i] {
      EventRestores(x.events[i]);
    }
  }

  /** An incident reads back as itself exactly when it passes the gate and is legible. */
  lemma {:induction false} IncidentRoundTrip(shown: Shown, x: Incident)
    requires Ordered(x.fields)
    ensures DecodeIncident(EncodeIncident(shown, x))
         == if Valid(x) && IncidentLegible(shown, x) then Some(x) else None
  {
    SchemaIsOk();
    RecordFits(shown, x);
    RoundTrip(shown, SCHEMA, RecordOf(x));
    RecordRestores(x);
  }

  // The text of the blob.

  function StateName(s: IncidentState): string {
    match s
    case Detected => "detected"
    case Investigating => "investigating"
    case Mitigated => "mitigated"
    case Resolved => "resolved"
  }

  /** The keys of the header and their values, in the order of their lines. */
  function HeaderPairs(x: Incident): seq<(string, Value)> {
    [ ("schema_version", N(1)),
      ("kind", T("incident")),
      ("number", N(x.number)),
      ("title", T(x.title)),
      ("state", T(StateName(x.state))),
      ("severity", T(match x.severity case Sev1 => "sev1" case Sev2 => "sev2" case Sev3 => "sev3" case Sev4 => "sev4")),
      ("incident_type", T(x.incidentType)),
      ("author", T(x.author)),
      ("created_ts", I(x.createdTs)),
      ("labels", Ts(x.labels)),
      ("assignees", Ts(x.assignees)),
      ("mentions", Ns(x.mentions)),
      ("fields", Tb(x.fields)) ]
  }

  function EventName(k: EventKind): string {
    match k
    case Opening => "open"
    case Comment => "comment"
    case Transition => "transition"
    case Severed => "severity"
    case Label => "label"
    case Assign => "assign"
    case SetField => "set_field"
    case Resolve => "resolve"
    case Reopen => "reopen"
  }

  function EventPairs(e: Event): seq<(string, Value)> {
    [ ("kind", T(EventName(e.kind))),
      ("author", T(e.author)),
      ("ts", I(e.ts)),
      ("body", T(e.body)),
      ("add", Ts(e.add)),
      ("remove", Ts(e.remove)),
      ("reason", T(e.reason)),
      ("new_state", T(e.newState)),
      ("new_severity", T(e.newSeverity)),
      ("field_key", T(e.fieldKey)),
      ("field_value", T(e.fieldValue)) ]
  }

  function LogPairs(events: seq<Event>): (pairs: seq<seq<(string, Value)>>)
    ensures |pairs| == |events|
  {
    seq(|events|, i requires 0 <= i < |events| => EventPairs(events[i]))
  }

  lemma {:induction false} HeaderPaired(x: Incident)
    ensures PairsOf(HEADER, RecordOf(x).header, HeaderPairs(x))
  {
  }

  lemma {:induction false} EventPaired(e: Event)
    ensures PairsOf(EVENT, EventValues(e), EventPairs(e))
  {
  }

  lemma {:induction false} Paired(x: Incident)
    ensures PairsOf(HEADER, RecordOf(x).header, HeaderPairs(x))
    ensures AllPairsOf(EVENT, RecordOf(x).events, LogPairs(x.events))
  {
    HeaderPaired(x);
    forall i | 0 <= i < |x.events| ensures PairsOf(EVENT, RecordOf(x).events[i], LogPairs(x.events)[i]) {
      EventPaired(x.events[i]);
    }
  }

  /** The blob, line by line: each key stands beside its own field. */
  lemma {:induction false} IncidentText(shown: Shown, x: Incident)
    ensures EncodeIncident(shown, x) == Blob(shown, HeaderPairs(x), LogPairs(x.events))
  {
    Paired(x);
    BlobIs(shown, SCHEMA, RecordOf(x), HeaderPairs(x), LogPairs(x.events));
  }

  // What any text is read as.

  /** The gate's bounds, in numbers. */
  predicate EventBounded(e: Event) {
    && Short(e.author, 256)
    && Short(e.body, 65_536)
    && Short(e.reason, 1024)
    && Short(e.newState, 64)
    && Short(e.newSeverity, 64)
    && Short(e.fieldKey, 128)
    && Short(e.fieldValue, 4096)
    && 0 <= e.ts <= 4_102_444_800 && ShortList(e.add) && ShortList(e.remove)
  }

  predicate Bounded(x: Incident) {
    && Short(x.title, 1024)
    && Short(x.incidentType, 128)
    && Short(x.author, 256)
    && 0 <= x.createdTs <= 4_102_444_800 && ShortList(x.labels) && ShortList(x.assignees)
    && |x.mentions| <= 1024 && |x.events| <= 100_000 && |x.fields| <= 256
    && (forall i :: 0 <= i < |x.fields| ==> Short(x.fields[i].0, 128) && Short(x.fields[i].1, 4096))
    && forall i :: 0 <= i < |x.events| ==> EventBounded(x.events[i])
  }

  lemma {:induction false} EventBoundedIs(e: Event)
    ensures EventValid(e) <==> EventBounded(e)
  {
    ShortIs(e.author, 256);
    ShortIs(e.body, 65_536);
    ShortIs(e.reason, 1024);
    ShortIs(e.newState, 64);
    ShortIs(e.newSeverity, 64);
    ShortIs(e.fieldKey, 128);
    ShortIs(e.fieldValue, 4096);
    ShortListIs(e.add);
    ShortListIs(e.remove);
  }

  lemma {:induction false} BoundedIs(x: Incident)
    ensures Valid(x) <==> Bounded(x)
  {
    ShortIs(x.title, 1024);
    ShortIs(x.incidentType, 128);
    ShortIs(x.author, 256);
    ShortListIs(x.labels);
    ShortListIs(x.assignees);
    forall i | 0 <= i < |x.fields|
      ensures TextOk(x.fields[i].0, 128) <==> Short(x.fields[i].0, 128)
      ensures TextOk(x.fields[i].1, 4096) <==> Short(x.fields[i].1, 4096)
    {
      ShortIs(x.fields[i].0, 128);
      ShortIs(x.fields[i].1, 4096);
    }
    forall i | 0 <= i < |x.events| ensures EventValid(x.events[i]) <==> EventBounded(x.events[i]) {
      EventBoundedIs(x.events[i]);
    }
  }

  lemma {:induction false} HeaderPlain()
    ensures PlainFields(HEADER)
  {
    WordFieldsPlain();
    SeverityPlain();
    forall i | 0 <= i < |HEADER| && i != 1 && i != 4 && i != 5 ensures PlainField(HEADER[i]) {
      HeaderFieldPlain(i);
    }
  }

  lemma {:induction false} WordFieldsPlain()
    ensures PlainField(HEADER[1]) && PlainField(HEADER[4])
  {
    SameWords("kind", KINDS);
    SameWords("state", STATES);
    NoEmptyWord(STATES);
  }

  lemma {:induction false} HeaderFieldPlain(i: nat)
    requires i < |HEADER| && i != 1 && i != 4 && i != 5
    ensures PlainField(HEADER[i])
  {
  }

  lemma {:induction false} EventPlain()
    ensures PlainFields(EVENT)
  {
    EventKindPlain();
    forall i | 0 < i < |EVENT| ensures PlainField(EVENT[i]) {
      EventFieldPlain(i);
    }
  }

  lemma {:induction false} EventKindPlain()
    ensures PlainField(EVENT[0])
  {
    SameWords("kind", EVENT_KINDS);
    NoEmptyWord(EVENT_KINDS);
    EventWordKept(Comment);
  }

  lemma {:induction false} EventFieldPlain(i: nat)
    requires 0 < i < |EVENT|
    ensures PlainField(EVENT[i])
  {
  }

  /** A word of the list stands for what the list says. */
  lemma {:induction false} LookupIff(words: seq<(string, string)>, w: string, s: string)
    requires forall i, j :: 0 <= i < j < |words| ==> words[i].0 != words[j].0
    ensures Lookup(words, w) == Some(s) <==> (w, s) in words
  {
    if words != [] {
      assert forall i :: 0 <= i < |words[1..]| ==> words[1..][i] == words[i + 1];
      LookupIff(words[1..], w, s);
      assert words == [words[0]] + words[1..];
    }
  }

  lemma {:induction false} SeverityPlain()
    ensures PlainField(HEADER[5])
  {
    SeverityNotEmpty();
    SeverityWordsPlain();
    SeverityField();
    ChoicePlain(HEADER[5], "severity", SEVERITIES);
  }

  lemma {:induction false} SeverityField()
    ensures HEADER[5] == Field("severity", Choice(SEVERITIES), None)
  {
  }

  lemma {:induction false} SeverityNotEmpty()
    ensures Lookup(SEVERITIES, "").None?
  {
    forall i | 0 <= i < |SEVERITIES| ensures SEVERITIES[i].0 != "" {
      SeverityLetters(i);
    }
    NoEmptyWord(SEVERITIES);
  }

  lemma {:induction false} SeverityLetters(i: nat)
    requires i < |SEVERITIES|
    ensures |SEVERITIES[i].0| > 0
  {
  }

  lemma {:induction false} SeverityWordsPlain()
    ensures PlainWords("severity", SEVERITIES)
  {
    forall w, s
      ensures Lookup(SEVERITIES, w) == Some(s) <==>
        Lookup(SEVERITIES, s) == Some(s) && (w == s || Alias("severity", w, s))
    {
      SeverityAlias(w, s);
    }
  }

  lemma {:induction false} SeverityAlias(w: string, s: string)
    ensures Lookup(SEVERITIES, w) == Some(s) <==>
      Lookup(SEVERITIES, s) == Some(s) && (w == s || Alias("severity", w, s))
  {
    LookupIff(SEVERITIES, w, s);
    LookupIff(SEVERITIES, s, s);
  }

  lemma {:induction false} StateSpelled(w: string)
    requires Lookup(STATES, w).Some?
    ensures StateWord(StateOf(w)) == w
  {
    LookupIn(STATES, w);
  }

  lemma {:induction false} SeveritySpelled(w: string)
    requires Lookup(SEVERITIES, w) == Some(w)
    ensures SeverityWord(SeverityOf(w)) == w
  {
    LookupIff(SEVERITIES, w, w);
    var i :| 0 <= i < |SEVERITIES| && SEVERITIES[i] == (w, w);
    var s := SeverityMeant(i);
    SeverityWords(_ => true, s);
  }

  lemma {:induction false} SeverityMeant(i: nat) returns (s: Severity)
    requires i < |SEVERITIES|
    ensures SEVERITIES[i].1 == SeverityWord(s)
  {
    s := if i < 3 then Sev1 else if i < 6 then Sev2 else if i < 9 then Sev3 else Sev4;
  }

  lemma {:induction false} KindKept(w: string)
    requires Lookup(EVENT_KINDS, w).Some?
    ensures KindWord(KindOf(w)) == w
  {
    LookupIn(EVENT_KINDS, w);
  }

  /** The header's values, each in the form of its field. */
  predicate HeaderForm(h: seq<Value>) {
    && |h| == 13 && h[0] == N(1) && h[1] == T("incident") && h[2] == N(CountOf(h[2])) && h[3] == T(TextOf(h[3]))
    && h[4] == T(StateWord(StateOf(TextOf(h[4])))) && h[5] == T(SeverityWord(SeverityOf(TextOf(h[5]))))
    && h[6] == T(TextOf(h[6])) && h[7] == T(TextOf(h[7])) && h[8] == I(TimeOf(h[8])) && h[9] == Ts(TextsOf(h[9]))
    && h[10] == Ts(TextsOf(h[10])) && h[11] == Ns(CountsOf(h[11])) && h[12] == Tb(TableOf(h[12]))
  }

  lemma {:induction false} HeaderRebuilt(h: seq<Value>)
    requires HeaderForm(h)
    ensures RecordOf(IncidentFrom(Record(h, []))).header == h
  {
  }

  lemma {:induction false} HeaderFormed(h: seq<Value>)
    requires Fill(HEADER, h)
    ensures HeaderForm(h)
  {
    HeaderShaped(h);
    WordsFormed(h);
  }

  lemma {:induction false} HeaderShaped(h: seq<Value>)
    requires Fill(HEADER, h)
    ensures h[0] == N(1) && h[2] == N(CountOf(h[2])) && h[3] == T(TextOf(h[3])) && h[6] == T(TextOf(h[6]))
    ensures h[7] == T(TextOf(h[7])) && h[8] == I(TimeOf(h[8])) && h[9] == Ts(TextsOf(h[9]))
    ensures h[10] == Ts(TextsOf(h[10])) && h[11] == Ns(CountsOf(h[11])) && h[12] == Tb(TableOf(h[12]))
  {
    HeldShaped(HEADER, h);
  }

  lemma {:induction false} WordsFormed(h: seq<Value>)
    requires Fill(HEADER, h)
    ensures h[1] == T("incident") && h[4] == T(StateWord(StateOf(TextOf(h[4]))))
    ensures h[5] == T(SeverityWord(SeverityOf(TextOf(h[5]))))
  {
    assert Holds(HEADER[1].kind, h[1]) && Holds(HEADER[4].kind, h[4]) && Holds(HEADER[5].kind, h[5]);
    LookupIn(KINDS, h[1].text);
    StateSpelled(h[4].text);
    SeveritySpelled(h[5].text);
  }

  predicate EventForm(v: seq<Value>) {
    && |v| == 11 && v[0] == T(KindWord(KindOf(TextOf(v[0])))) && v[1] == T(TextOf(v[1])) && v[2] == I(TimeOf(v[2]))
    && v[3] == T(TextOf(v[3])) && v[4] == Ts(TextsOf(v[4])) && v[5] == Ts(TextsOf(v[5])) && v[6] == T(TextOf(v[6]))
    && v[7] == T(TextOf(v[7])) && v[8] == T(TextOf(v[8])) && v[9] == T(TextOf(v[9])) && v[10] == T(TextOf(v[10]))
  }

  lemma {:induction false} EventRebuilt(v: seq<Value>)
    requires EventForm(v)
    ensures EventValues(EventFrom(v)) == v
  {
  }

  lemma {:induction false} EventFormed(v: seq<Value>)
    requires Fill(EVENT, v)
    ensures EventForm(v)
  {
    EventShaped(v);
    assert Holds(EVENT[0].kind, v[0]);
    KindKept(v[0].text);
  }

  lemma {:induction false} EventShaped(v: seq<Value>)
    requires Fill(EVENT, v)
    ensures v[1] == T(TextOf(v[1])) && v[2] == I(TimeOf(v[2])) && v[3] == T(TextOf(v[3])) && v[4] == Ts(TextsOf(v[4]))
    ensures v[5] == Ts(TextsOf(v[5])) && v[6] == T(TextOf(v[6])) && v[7] == T(TextOf(v[7])) && v[8] == T(TextOf(v[8]))
    ensures v[9] == T(TextOf(v[9])) && v[10] == T(TextOf(v[10]))
  {
    HeldShaped(EVENT, v);
  }

  lemma {:induction false} RecordRebuilt(r: Record)
    requires Fits(SCHEMA, r)
    ensures RecordOf(IncidentFrom(r)) == r
  {
    HeaderFormed(r.header);
    HeaderRebuilt(r.header);
    forall i | 0 <= i < |r.events| ensures EventValues(EventFrom(r.events[i])) == r.events[i] {
      EventFormed(r.events[i]);
      EventRebuilt(r.events[i]);
    }
  }

  /** Reading any text: it gives exactly the incident that its lines tell, key by key, with its
      fields in key order, if that passes the gate. */
  lemma {:induction false} IncidentReads(text: string, x: Incident)
    ensures DecodeIncident(text) == Some(x) <==>
      Bounded(x) && Ordered(x.fields) && Tale(SCHEMA, text, HeaderPairs(x), LogPairs(x.events))
  {
    RecordRestores(x);
    BoundedIs(x);
    Told(text, x);
    if Decode(SCHEMA, text).Some? {
      DecodedRebuilt(text);
    }
  }

  lemma {:induction false} Told(text: string, x: Incident)
    ensures Decode(SCHEMA, text) == Some(RecordOf(x)) <==>
      Ordered(x.fields) && Tale(SCHEMA, text, HeaderPairs(x), LogPairs(x.events))
  {
    SchemaIsOk();
    HeaderPlain();
    EventPlain();
    Paired(x);
    FitsIff(x);
    TaleIff(SCHEMA, text, RecordOf(x), HeaderPairs(x), LogPairs(x.events));
  }

  lemma {:induction false} DecodedRebuilt(text: string)
    requires Decode(SCHEMA, text).Some?
    ensures RecordOf(IncidentFrom(Decode(SCHEMA, text).value)) == Decode(SCHEMA, text).value
  {
    SchemaIsOk();
    HeaderPlain();
    EventPlain();
    DecodeFits(SCHEMA, text);
    RecordRebuilt(Decode(SCHEMA, text).value);
  }

  lemma {:induction false} FitsIff(x: Incident)
    ensures Fits(SCHEMA, RecordOf(x)) <==> Ordered(x.fields)
  {
    if Ordered(x.fields) {
      RecordFits(_ => true, x);
    }
    if Fits(SCHEMA, RecordOf(x)) {
      assert Holds(HEADER[12].kind, RecordOf(x).header[12]);
    }
  }

  // The gate on updates.

  predicate Allowed(before: IncidentState, after: IncidentState) {
    match before
    case Detected => after != Detected
    case Investigating => after != Investigating
    case Mitigated => after == Investigating || after == Resolved
    case Resolved => after == Investigating
  }

  function When(e: Event): Time { e.ts }

  predicate Monotone(events: seq<Event>) { InOrder(events, When) }

  ghost predicate SameLog(before: Incident, after: Incident) {
    && after.number == before.number && after.createdTs == before.createdTs && after.author == before.author
    && after.title == before.title && after.incidentType == before.incidentType
    && before.events <= after.events && Monotone(after.events)
  }

  ghost predicate Extends(before: Incident, after: Incident) {
    SameLog(before, after) && (before.state == after.state || Allowed(before.state, after.state))
  }

  /** The checks on an update, in the order they are made. */
  method ValidateExtends(before: Incident, after: Incident) returns (ok: bool)
    ensures ok <==> Extends(before, after)
  {
    if after.number != before.number || after.createdTs != before.createdTs || after.author != before.author
       || after.title != before.title || after.incidentType != before.incidentType
       || |after.events| < |before.events| {
      return false;
    }
    var same := SamePrefix(before.events, after.events);
    if !same {
      return false;
    }
    var sorted := CheckTimes(after.events, When);
    if !sorted {
      return false;
    }
    return before.state == after.state || Allowed(before.state, after.state);
  }

  ghost predicate Linked(chain: seq<Incident>, j: nat)
    requires 0 < j < |chain|
  {
    Extends(chain[j - 1], chain[j])
  }

  /** The log only grows along a chain of accepted updates. */
  lemma {:induction false} ChainKeepsLog(chain: seq<Incident>, i: nat, j: nat)
    requires i < j < |chain| && forall k: nat :: 0 < k < |chain| ==> Linked(chain, k)
    ensures SameLog(chain[i], chain[j])
    decreases j
  {
    assert Linked(chain, j);
    if i < j - 1 {
      ChainKeepsLog(chain, i, j - 1);
    }
  }

  /** States that accepted updates can go back to, but no one update can. */
  predicate Backward(before: IncidentState, after: IncidentState) {
    (before == Mitigated && after == Detected) || (before == Resolved && (after == Detected || after == Mitigated))
  }

  /** An accepted chain is one accepted update exactly when its ends are not a forbidden step back. */
  lemma {:induction false} ChainExtendsIff(chain: seq<Incident>, i: nat, j: nat)
    requires i < j < |chain| && forall k: nat :: 0 < k < |chain| ==> Linked(chain, k)
    ensures Extends(chain[i], chain[j]) <==> !Backward(chain[i].state, chain[j].state)
  {
    ChainKeepsLog(chain, i, j);
  }

  /** Two accepted updates lead from mitigated to detected, which no accepted update does. */
  lemma {:induction false} BackwardExample(x: Incident)
    requires Monotone(x.events)
    ensures var a, b, c := x.(state := Mitigated), x.(state := Investigating), x.(state := Detected);
            Extends(a, b) && Extends(b, c) && !Extends(a, c)
  {
  }
}
