/** Pull requests: their blob, and the gate an update of it must pass. */
module PullRequests {
  import opened Bytes
  import opened TicketText
  import opened TicketLists
  import opened TicketRecords
  import opened TicketCodec
  import opened TicketBlobs
  import opened TicketLimits

  datatype PrState = Open | Closed | Merged

  datatype EventKind = Opening | Comment | Close | Reopen | Label | Assign | Merge | CiRun

  datatype Event = Event(kind: EventKind, author: string, ts: Time, body: string,
                         add: seq<string>, remove: seq<string>, reason: string, result: string)

  datatype Pr = Pr(number: Count, title: string, state: PrState, sourceRef: string, targetRef: string,
                   author: string, createdTs: Time, labels: seq<string>, assignees: seq<string>,
                   mentions: seq<Count>, events: seq<Event>)

  function StateWord(s: PrState): string {
    if s.Open? then "open" else if s.Closed? then "closed" else "merged"
  }

  function StateOf(w: string): PrState {
    if w == "closed" then Closed else if w == "merged" then Merged else Open
  }

  function KindWord(k: EventKind): string {
    match k
    case Opening => "open"
    case Comment => "comment"
    case Close => "close"
    case Reopen => "reopen"
    case Label => "label"
    case Assign => "assign"
    case Merge => "merge"
    case CiRun => "ci_run"
  }

  function KindOf(w: string): EventKind {
    if w == "open" then Opening
    else if w == "close" then Close
    else if w == "reopen" then Reopen
    else if w == "label" then Label
    else if w == "assign" then Assign
    else if w == "merge" then Merge
    else if w == "ci_run" then CiRun
    else Comment
  }

  const KINDS := [("pr", "pr")]
  const STATES := [("open", "open"), ("closed", "closed"), ("merged", "merged")]
  const EVENT_KINDS := [("open", "open"), ("comment", "comment"), ("close", "close"), ("reopen", "reopen"),
                        ("label", "label"), ("assign", "assign"), ("merge", "merge"), ("ci_run", "ci_run")]

  const RESULT_MAX: nat := 4096
  const REF_MAX: nat := 255

  const HEADER: seq<Field> := [
    Field("schema_version", Version(1), None),
    Field("kind", Choice(KINDS), None),
    Field("number", Number, None),
    Field("title", Text, Some(T(""))),
    Field("state", Choice(STATES), None),
    Field("source_ref", Text, Some(T(""))),
    Field("target_ref", Text, Some(T(""))),
    Field("author", Text, Some(T(""))),
    Field("created_ts", Stamp, Some(I(0))),
    Field("labels", Texts, Some(Ts([]))),
    Field("assignees", Texts, Some(Ts([]))),
    Field("mentions", Numbers, Some(Ns([])))
  ]

  const EVENT: seq<Field> := [
    Field("kind", Choice(EVENT_KINDS), Some(T("comment"))),
    Field("author", Text, Some(T(""))),
    Field("ts", Stamp, Some(I(0))),
    Field("body", Text, Some(T(""))),
    Field("add", Texts, Some(Ts([]))),
    Field("remove", Texts, Some(Ts([]))),
    Field("reason", Text, Some(T(""))),
    Field("result", Text, Some(T("")))
  ]

  const SCHEMA := Schema(HEADER, EVENT)

  function EventValues(e: Event): seq<Value> {
    [T(KindWord(e.kind)), T(e.author), I(e.ts), T(e.body), Ts(e.add), Ts(e.remove), T(e.reason), T(e.result)]
  }

  function EventFrom(v: seq<Value>): Event {
    Event(KindOf(TextOf(At(v, 0))), TextOf(At(v, 1)), TimeOf(At(v, 2)), TextOf(At(v, 3)),
          TextsOf(At(v, 4)), TextsOf(At(v, 5)), TextOf(At(v, 6)), TextOf(At(v, 7)))
  }

  function RecordOf(x: Pr): Record {
    Record([N(1), T("pr"), N(x.number), T(x.title), T(StateWord(x.state)), T(x.sourceRef), T(x.targetRef),
            T(x.author), I(x.createdTs), Ts(x.labels), Ts(x.assignees), Ns(x.mentions)],
           seq(|x.events|, i requires 0 <= i < |x.events| => EventValues(x.events[i])))
  }

  function PrFrom(r: Record): Pr {
    var h := r.header;
    Pr(CountOf(At(h, 2)), TextOf(At(h, 3)), StateOf(TextOf(At(h, 4))), TextOf(At(h, 5)), TextOf(At(h, 6)),
       TextOf(At(h, 7)), TimeOf(At(h, 8)), TextsOf(At(h, 9)), TextsOf(At(h, 10)), CountsOf(At(h, 11)),
       seq(|r.events|, i requires 0 <= i < |r.events| => EventFrom(r.events[i])))
  }

  predicate EventValid(e: Event) {
    && TextOk(e.author, AUTHOR_MAX) && TextOk(e.body, BODY_MAX) && TextOk(e.reason, REASON_MAX)
    && TextOk(e.result, RESULT_MAX) && TimeOk(e.ts) && ArrayOk(e.add) && ArrayOk(e.remove)
  }

  /** The gate on writing and reading; which ref names are well formed is a parameter. */
  predicate Valid(refOk: string -> bool, x: Pr) {
    && TextOk(x.title, TITLE_MAX) && TextOk(x.author, AUTHOR_MAX)
    && TextOk(x.sourceRef, REF_MAX) && TextOk(x.targetRef, REF_MAX)
    && refOk(x.sourceRef) && refOk(x.targetRef)
    && TimeOk(x.createdTs) && ArrayOk(x.labels) && ArrayOk(x.assignees)
    && |x.mentions| <= MENTIONS_MAX && |x.events| <= EVENTS_MAX
    && forall i :: 0 <= i < |x.events| ==> EventValid(x.events[i])
  }

  function EncodePr(shown: Shown, x: Pr): string { Encode(shown, SCHEMA, RecordOf(x)) }

  function DecodePr(refOk: string -> bool, text: string): Option<Pr> {
    var r := Decode(SCHEMA, text);
    if r.None? then None
    else
      var x := PrFrom(r.value);
      if Valid(refOk, x) then Some(x) else None
  }

  ghost predicate EventLegible(shown: Shown, e: Event) {
    && AllReadable(shown, e.author) && AllReadable(shown, e.body) && AllReadable(shown, e.reason)
    && AllReadable(shown, e.result) && AllReadables(shown, e.add) && AllReadables(shown, e.remove)
  }

  ghost predicate HeaderLegible(shown: Shown, x: Pr) {
    && AllReadable(shown, x.title) && AllReadable(shown, x.sourceRef) && AllReadable(shown, x.targetRef)
    && AllReadable(shown, x.author) && AllReadables(shown, x.labels) && AllReadables(shown, x.assignees)
  }

  /** No text of the pull request is printed with a numeric escape. */
  ghost predicate PrLegible(shown: Shown, x: Pr) {
    HeaderLegible(shown, x) && forall i :: 0 <= i < |x.events| ==> EventLegible(shown, x.events[i])
  }

  lemma {:induction false} HeaderKeys()
    ensures forall i, j :: 0 <= i < j < |HEADER| ==> HEADER[i].key != HEADER[j].key
  {
  }

  lemma {:induction false} HeaderLetters()
    ensures forall i :: 0 <= i < |HEADER| ==> KeyOk(HEADER[i].key)
  {
    HeaderKeysOk();
    assert KeyOk("source_ref") && KeyOk("target_ref");
  }

  lemma {:induction false} EventKeys()
    ensures forall i, j :: 0 <= i < j < |EVENT| ==> EVENT[i].key != EVENT[j].key
  {
  }

  lemma {:induction false} EventLetters()
    ensures forall i :: 0 <= i < |EVENT| ==> KeyOk(EVENT[i].key) && EVENT[i].start.Some?
  {
    EventKeysOk();
    assert KeyOk("result");
  }

  lemma {:induction false} SchemaIsOk()
    ensures SchemaOk(SCHEMA)
  {
    HeaderKeys();
    HeaderLetters();
    EventKeys();
    EventLetters();
  }

  lemma {:induction false} EventWordKept(k: EventKind)
    ensures Lookup(EVENT_KINDS, KindWord(k)) == Some(KindWord(k))
  {
  }

  lemma {:induction false} EventKindSlot(k: EventKind)
    ensures Holds(EVENT[0].kind, T(KindWord(k)))
  {
    EventWordKept(k);
    ChoiceHolds(EVENT_KINDS, KindWord(k));
  }

  lemma {:induction false} EventWord(shown: Shown, k: EventKind)
    ensures AllReadable(shown, KindWord(k)) && KindOf(KindWord(k)) == k
  {
  }

  lemma {:induction false} StateWords(shown: Shown, s: PrState)
    ensures Lookup(STATES, StateWord(s)) == Some(StateWord(s)) && Lookup(KINDS, "pr") == Some("pr")
    ensures AllReadable(shown, StateWord(s)) && AllReadable(shown, "pr") && StateOf(StateWord(s)) == s
  {
  }

  lemma {:induction false} EventFills(e: Event)
    ensures Fill(EVENT, EventValues(e))
  {
    var v := EventValues(e);
    forall i | 0 <= i < |v| ensures Holds(EVENT[i].kind, v[i]) {
      if i == 0 { EventKindSlot(e.kind); } else { EventSlot(e, i); }
    }
  }

  lemma {:induction false} EventSlot(e: Event, i: nat)
    requires 0 < i < |EVENT|
    ensures Holds(EVENT[i].kind, EventValues(e)[i])
  {
  }

  lemma {:induction false} EventRestores(e: Event)
    ensures EventFrom(EventValues(e)) == e
  {
    EventWord(_ => true, e.kind);
  }

  lemma {:induction false} EventLegibility(shown: Shown, e: Event)
    ensures LegibleFrom(shown, EventValues(e), 0) <==> EventLegible(shown, e)
  {
    EventWord(shown, e.kind);
    var v := EventValues(e);
    assert v[1] == T(e.author) && v[3] == T(e.body) && v[4] == Ts(e.add) && v[5] == Ts(e.remove);
    assert v[6] == T(e.reason) && v[7] == T(e.result);
  }

  lemma {:induction false} HeaderFills(x: Pr)
    ensures Fill(HEADER, RecordOf(x).header)
  {
    StateWords(_ => true, x.state);
    ChoiceHolds(STATES, StateWord(x.state));
    ChoiceHolds(KINDS, "pr");
    var h := RecordOf(x).header;
    forall i | 0 <= i < |h| ensures Holds(HEADER[i].kind, h[i]) {
      if i != 1 && i != 4 { HeaderSlot(x, i); }
    }
  }

  lemma {:induction false} HeaderSlot(x: Pr, i: nat)
    requires i < |HEADER| && i != 1 && i != 4
    ensures Holds(HEADER[i].kind, RecordOf(x).header[i])
  {
  }

  lemma {:induction false} HeaderLegibility(shown: Shown, x: Pr)
    ensures LegibleFrom(shown, RecordOf(x).header, 0) <==> HeaderLegible(shown, x)
  {
    StateWords(shown, x.state);
    var h := RecordOf(x).header;
    assert h[3] == T(x.title) && h[5] == T(x.sourceRef) && h[6] == T(x.targetRef) && h[7] == T(x.author);
    assert h[9] == Ts(x.labels) && h[10] == Ts(x.assignees);
  }

  lemma {:induction false} RecordFits(shown: Shown, x: Pr)
    ensures Fits(SCHEMA, RecordOf(x))
    ensures RecordLegible(shown, RecordOf(x)) <==> PrLegible(shown, x)
  {
    HeaderFills(x);
    HeaderLegibility(shown, x);
    var r := RecordOf(x);
    forall i | 0 <= i < |x.events|
      ensures Fill(EVENT, r.events[i])
      ensures LegibleFrom(shown, r.events[i], 0) <==> EventLegible(shown, x.events[i])
    {
      EventFills(x.events[i]);
      EventLegibility(shown, x.events[i]);
    }
  }

  lemma {:induction false} RecordRestores(x: Pr)
    ensures PrFrom(RecordOf(x)) == x
  {
    HeaderRestores(x);
    EventsRestore(x);
  }

  lemma {:induction false} HeaderRestores(x: Pr)
    ensures PrFrom(RecordOf(x)).(events := x.events) == x
  {
    StateWords(_ => true, x.state);
  }

  lemma {:induction false} EventsRestore(x: Pr)
    ensures PrFrom(RecordOf(x)).events == x.events
  {
    var y := PrFrom(RecordOf(x));
    forall i | 0 <= i < |x.events| ensures y.events[i] == x.events[i] {
      EventRestores(x.events[i]);
    }
  }

  /** A pull request reads back as itself exactly when it passes the gate and is legible. */
  lemma {:induction false} PrRoundTrip(shown: Shown, refOk: string -> bool, x: Pr)
    ensures DecodePr(refOk, EncodePr(shown, x))
         == if Valid(refOk, x) && PrLegible(shown, x) then Some(x) else None
  {
    SchemaIsOk();
    RecordFits(shown, x);
    RoundTrip(shown, SCHEMA, RecordOf(x));
    RecordRestores(x);
  }

  // The text of the blob.

  /** The keys of the header and their values, in the order of their lines. */
  function HeaderPairs(x: Pr): seq<(string, Value)> {
    [ ("schema_version", N(1)),
      ("kind", T("pr")),
      ("number", N(x.number)),
      ("title", T(x.title)),
      ("state", T(match x.state case Open => "open" case Closed => "closed" case Merged => "merged")),
      ("source_ref", T(x.sourceRef)),
      ("target_ref", T(x.targetRef)),
      ("author", T(x.author)),
      ("created_ts", I(x.createdTs)),
      ("labels", Ts(x.labels)),
      ("assignees", Ts(x.assignees)),
      ("mentions", Ns(x.mentions)) ]
  }

  function EventName(k: EventKind): string {
    match k
    case Opening => "open"
    case Comment => "comment"
    case Close => "close"
    case Reopen => "reopen"
    case Label => "label"
    case Assign => "assign"
    case Merge => "merge"
    case CiRun => "ci_run"
  }

  function EventPairs(e: Event): seq<(string, Value)> {
    [ ("kind", T(EventName(e.kind))),
      ("author", T(e.author)),
      ("ts", I(e.ts)),
      ("body", T(e.body)),
      ("add", Ts(e.add)),
      ("remove", Ts(e.remove)),
      ("reason", T(e.reason)),
      ("result", T(e.result)) ]
  }

  function LogPairs(events: seq<Event>): (pairs: seq<seq<(string, Value)>>)
    ensures |pairs| == |events|
  {
    seq(|events|, i requires 0 <= i < |events| => EventPairs(events[i]))
  }

  lemma {:induction false} HeaderPaired(x: Pr)
    ensures PairsOf(HEADER, RecordOf(x).header, HeaderPairs(x))
  {
  }

  lemma {:induction false} EventPaired(e: Event)
    ensures PairsOf(EVENT, EventValues(e), EventPairs(e))
  {
  }

  /** The blob, line by line: each key stands beside its own field. */
  lemma {:induction false} PrText(shown: Shown, x: Pr)
    ensures EncodePr(shown, x) == Blob(shown, HeaderPairs(x), LogPairs(x.events))
  {
    Paired(x);
    BlobIs(shown, SCHEMA, RecordOf(x), HeaderPairs(x), LogPairs(x.events));
  }

  // What any text is read as.

  /** The gate's bounds, in numbers. */
  predicate EventBounded(e: Event) {
    && Short(e.author, 256)
    && Short(e.body, 65_536)
    && Short(e.reason, 1024)
    && Short(e.result, 4096)
    && 0 <= e.ts <= 4_102_444_800 && ShortList(e.add) && ShortList(e.remove)
  }

  predicate Bounded(x: Pr) {
    && Short(x.title, 1024)
    && Short(x.author, 256)
    && Short(x.sourceRef, 255)
    && Short(x.targetRef, 255)
    && 0 <= x.createdTs <= 4_102_444_800 && ShortList(x.labels) && ShortList(x.assignees)
    && |x.mentions| <= 1024 && |x.events| <= 100_000
    && forall i :: 0 <= i < |x.events| ==> EventBounded(x.events[i])
  }

  lemma {:induction false} EventBoundedIs(e: Event)
    ensures EventValid(e) <==> EventBounded(e)
  {
    ShortIs(e.author, 256);
    ShortIs(e.body, 65_536);
    ShortIs(e.reason, 1024);
    ShortIs(e.result, 4096);
    ShortListIs(e.add);
    ShortListIs(e.remove);
  }

  lemma {:induction false} BoundedIs(refOk: string -> bool, x: Pr)
    ensures Valid(refOk, x) <==> Bounded(x) && refOk(x.sourceRef) && refOk(x.targetRef)
  {
    ShortIs(x.title, 1024);
    ShortIs(x.author, 256);
    ShortIs(x.sourceRef, 255);
    ShortIs(x.targetRef, 255);
    ShortListIs(x.labels);
    ShortListIs(x.assignees);
    forall i | 0 <= i < |x.events| ensures EventValid(x.events[i]) <==> EventBounded(x.events[i]) {
      EventBoundedIs(x.events[i]);
    }
  }

  lemma {:induction false} HeaderPlain()
    ensures PlainFields(HEADER)
  {
    SameWords("kind", KINDS);
    SameWords("state", STATES);
  }

  lemma {:induction false} EventPlain()
    ensures PlainFields(EVENT)
  {
    EventKindPlain();
    forall i | 0 < i < |EVENT| ensures PlainField(EVENT[i]) {
      EventFieldPlain(i);
    }
  }

  lemma {:induction false} EventKindPlain()
    ensures PlainField(EVENT[0])
  {
    SameWords("kind", EVENT_KINDS);
    NoEmptyWord(EVENT_KINDS);
    EventWordKept(Comment);
  }

  lemma {:induction false} EventFieldPlain(i: nat)
    requires 0 < i < |EVENT|
    ensures PlainField(EVENT[i])
  {
  }

  lemma {:induction false} StateKept(w: string)
    requires Lookup(STATES, w).Some?
    ensures StateWord(StateOf(w)) == w
  {
    LookupIn(STATES, w);
  }

  lemma {:induction false} KindKept(w: string)
    requires Lookup(EVENT_KINDS, w).Some?
    ensures KindWord(KindOf(w)) == w
  {
    LookupIn(EVENT_KINDS, w);
  }

  lemma {:induction false} HeaderRebuilt(h: seq<Value>)
    requires Fill(HEADER, h)
    ensures RecordOf(PrFrom(Record(h, []))).header == h
  {
    HeaderShaped(h);
    HeaderWords(h);
  }

  lemma {:induction false} HeaderShaped(h: seq<Value>)
    requires Fill(HEADER, h)
    ensures h[0] == N(1) && h[2] == N(CountOf(h[2])) && h[3] == T(TextOf(h[3])) && h[5] == T(TextOf(h[5]))
    ensures h[6] == T(TextOf(h[6])) && h[7] == T(TextOf(h[7])) && h[8] == I(TimeOf(h[8]))
    ensures h[9] == Ts(TextsOf(h[9])) && h[10] == Ts(TextsOf(h[10])) && h[11] == Ns(CountsOf(h[11]))
  {
    HeldShaped(HEADER, h);
  }

  lemma {:induction false} HeaderWords(h: seq<Value>)
    requires Fill(HEADER, h)
    ensures h[1] == T("pr") && h[4] == T(StateWord(StateOf(TextOf(h[4]))))
  {
    assert Holds(HEADER[1].kind, h[1]) && Holds(HEADER[4].kind, h[4]);
    LookupIn(KINDS, h[1].text);
    StateKept(h[4].text);
  }

  lemma {:induction false} EventRebuilt(v: seq<Value>)
    requires Fill(EVENT, v)
    ensures EventValues(EventFrom(v)) == v
  {
    HeldShaped(EVENT, v);
    assert Holds(EVENT[0].kind, v[0]);
    KindKept(v[0].text);
  }

  lemma {:induction false} RecordRebuilt(r: Record)
    requires Fits(SCHEMA, r)
    ensures RecordOf(PrFrom(r)) == r
  {
    HeaderRebuilt(r.header);
    forall i | 0 <= i < |r.events| ensures EventValues(EventFrom(r.events[i])) == r.events[i] {
      EventRebuilt(r.events[i]);
    }
  }

  lemma {:induction false} Paired(x: Pr)
    ensures PairsOf(HEADER, RecordOf(x).header, HeaderPairs(x))
    ensures AllPairsOf(EVENT, RecordOf(x).events, LogPairs(x.events))
  {
    HeaderPaired(x);
    forall i | 0 <= i < |x.events| ensures PairsOf(EVENT, RecordOf(x).events[i], LogPairs(x.events)[i]) {
      EventPaired(x.events[i]);
    }
  }

  /** Reading any text: it gives exactly the pull request that its lines tell, key by key, if that
      passes the gate. */
  lemma {:induction false} PrReads(refOk: string -> bool, text: string, x: Pr)
    ensures DecodePr(refOk, text) == Some(x) <==>
      && Bounded(x) && refOk(x.sourceRef) && refOk(x.targetRef)
      && Tale(SCHEMA, text, HeaderPairs(x), LogPairs(x.events))
  {
    RecordRestores(x);
    BoundedIs(refOk, x);
    Told(text, x);
    if Decode(SCHEMA, text).Some? {
      DecodedRebuilt(text);
    }
  }

  /** A line that quotes a text gives it: for one, the last header line of `source_ref`. */
  lemma {:induction false} SourceRead(shown: Shown, refOk: string -> bool, text: string, x: Pr, s: string)
    requires DecodePr(refOk, text) == Some(x) && AllReadable(shown, s)
    requires LastVal(Block(BreakLines(text)), "source_ref") == Some(Str(shown, s))
    ensures x.sourceRef == s
  {
    PrReads(refOk, text, x);
    HeaderTold(Block(BreakLines(text)), x);
    QuotedTold(shown, Block(BreakLines(text)), "source_ref", s, x.sourceRef);
  }

  lemma {:induction false} HeaderTold(block: seq<string>, x: Pr)
    requires TellsAll(block, HeaderPairs(x))
    ensures Tells(block, ("source_ref", T(x.sourceRef))) && Tells(block, ("target_ref", T(x.targetRef)))
  {
    assert HeaderPairs(x)[5] == ("source_ref", T(x.sourceRef)) && HeaderPairs(x)[6] == ("target_ref", T(x.targetRef));
  }

  lemma {:induction false} Told(text: string, x: Pr)
    ensures Decode(SCHEMA, text) == Some(RecordOf(x)) <==>
      Tale(SCHEMA, text, HeaderPairs(x), LogPairs(x.events))
  {
    SchemaIsOk();
    HeaderPlain();
    EventPlain();
    Paired(x);
    RecordFits(_ => true, x);
    TaleIff(SCHEMA, text, RecordOf(x), HeaderPairs(x), LogPairs(x.events));
  }

  lemma {:induction false} DecodedRebuilt(text: string)
    requires Decode(SCHEMA, text).Some?
    ensures RecordOf(PrFrom(Decode(SCHEMA, text).value)) == Decode(SCHEMA, text).value
  {
    SchemaIsOk();
    HeaderPlain();
    EventPlain();
    DecodeFits(SCHEMA, text);
    RecordRebuilt(Decode(SCHEMA, text).value);
  }

  // The gate on updates.

  function When(e: Event): Time { e.ts }

  predicate Monotone(events: seq<Event>) { InOrder(events, When) }

  predicate HasMerge(events: seq<Event>) { exists i :: 0 <= i < |events| && events[i].kind == Merge }

  /** Merged is final, and is entered only together with a new merge event. */
  predicate Transition(before: Pr, after: Pr)
    requires |before.events| <= |after.events|
  {
    if before.state == Merged then after.state == Merged
    else after.state == Merged ==> HasMerge(after.events[|before.events|..])
  }

  ghost predicate SameTicket(before: Pr, after: Pr) {
    && after.number == before.number && after.createdTs == before.createdTs && after.author == before.author
    && after.title == before.title && after.sourceRef == before.sourceRef && after.targetRef == before.targetRef
  }

  /** What an update may do. */
  ghost predicate Extends(before: Pr, after: Pr) {
    && SameTicket(before, after)
    && before.events <= after.events
    && Monotone(after.events)
    && Transition(before, after)
  }

  method AnyMerge(events: seq<Event>) returns (found: bool)
    ensures found <==> HasMerge(events)
  {
    for i := 0 to |events|
      invariant forall j :: 0 <= j < i ==> events[j].kind != Merge
    {
      if events[i].kind == Merge {
        return true;
      }
    }
    return false;
  }

  /** The checks on an update, in the order they are made. */
  method ValidateExtends(before: Pr, after: Pr) returns (ok: bool)
    ensures ok <==> Extends(before, after)
  {
    if after.number != before.number || after.createdTs != before.createdTs || after.author != before.author
       || after.title != before.title || after.sourceRef != before.sourceRef
       || after.targetRef != before.targetRef || |after.events| < |before.events| {
      return false;
    }
    var same := SamePrefix(before.events, after.events);
    if !same {
      return false;
    }
    var sorted := CheckTimes(after.events, When);
    if !sorted {
      return false;
    }
    match (before.state, after.state)
    case (Merged, Merged) => return true;
    case (Merged, _) => return false;
    case (_, Merged) => ok := AnyMerge(after.events[|before.events|..]);
    case (_, _) => return true;
  }

  // Chains of updates.

  ghost predicate Linked(chain: seq<Pr>, j: nat)
    requires 0 < j < |chain|
  {
    Extends(chain[j - 1], chain[j])
  }

  ghost predicate Accepted(chain: seq<Pr>) { forall j: nat :: 0 < j < |chain| ==> Linked(chain, j) }

  lemma {:induction false} MergeStays(a: seq<Event>, b: seq<Event>, c: seq<Event>)
    requires a <= b <= c && (HasMerge(b[|a|..]) || HasMerge(c[|b|..]))
    ensures HasMerge(c[|a|..])
  {
    if HasMerge(b[|a|..]) {
      var i :| 0 <= i < |b[|a|..]| && b[|a|..][i].kind == Merge;
      assert c[|a|..][i] == b[|a|..][i];
    } else {
      var i :| 0 <= i < |c[|b|..]| && c[|b|..][i].kind == Merge;
      assert c[|a|..][|b| - |a| + i] == c[|b|..][i];
    }
  }

  lemma {:induction false} ExtendsTwice(a: Pr, b: Pr, c: Pr)
    requires Extends(a, b) && Extends(b, c)
    ensures Extends(a, c)
  {
    if a.state != Merged && c.state == Merged {
      MergeStays(a.events, b.events, c.events);
    }
  }

  /** Any later version of an accepted chain is an accepted update of any earlier one. */
  lemma {:induction false} ChainExtends(chain: seq<Pr>, i: nat, j: nat)
    requires i < j < |chain| && Accepted(chain)
    ensures Extends(chain[i], chain[j])
    decreases j
  {
    assert Linked(chain, j);
    if i < j - 1 {
      ChainExtends(chain, i, j - 1);
      ExtendsTwice(chain[i], chain[j - 1], chain[j]);
    }
  }

  /** Once merged, always merged; and the version that became merged brought its merge event. */
  lemma {:induction false} MergedForGood(chain: seq<Pr>, i: nat, j: nat)
    requires i < j < |chain| && Accepted(chain)
    ensures chain[i].state == Merged ==> chain[j].state == Merged
    ensures chain[i].state != Merged && chain[j].state == Merged ==>
      exists k: nat :: i < k <= j && BecameMerged(chain, k)
    decreases j - i
  {
    ChainExtends(chain, i, j);
    assert Linked(chain, i + 1);
    if chain[i].state != Merged && chain[j].state == Merged {
      if chain[i + 1].state == Merged {
        assert BecameMerged(chain, i + 1);
      } else {
        MergedForGood(chain, i + 1, j);
        var k: nat :| i + 1 < k <= j && BecameMerged(chain, k);
      }
    }
  }

  ghost predicate BecameMerged(chain: seq<Pr>, k: nat) {
    && 0 < k < |chain|
    && chain[k - 1].state != Merged && chain[k].state == Merged
    && |chain[k - 1].events| <= |chain[k].events|
    && HasMerge(chain[k].events[|chain[k - 1].events|..])
  }
}
