/** Issues and discussions: their blob and the append-only gate on its updates. */
module Issues {
  import opened Bytes
  import opened TicketText
  import opened TicketLists
  import opened TicketRecords
  import opened TicketCodec
  import opened TicketBlobs
  import opened TicketLimits

  datatype Category = IssueKind | Discussion

  datatype Status = Open | Closed

  datatype EventKind = Opening | Comment | Close | Reopen | Label | Assign

  datatype Event = Event(kind: EventKind, author: string, ts: Time, body: string,
                         add: seq<string>, remove: seq<string>, reason: string)

  datatype Issue = Issue(number: Count, kind: Category, title: string, state: Status, author: string,
                         createdTs: Time, labels: seq<string>, assignees: seq<string>,
                         mentions: seq<Count>, events: seq<Event>)

  function CategoryWord(k: Category): string { if k.IssueKind? then "issue" else "discussion" }

  function StatusWord(s: Status): string { if s.Open? then "open" else "closed" }

  function KindWord(k: EventKind): string {
    match k
    case Opening => "open"
    case Comment => "comment"
    case Close => "close"
    case Reopen => "reopen"
    case Label => "label"
    case Assign => "assign"
  }

  function CategoryOf(w: string): Category { if w == "discussion" then Discussion else IssueKind }

  function StatusOf(w: string): Status { if w == "closed" then Closed else Open }

  function KindOf(w: string): EventKind {
    if w == "open" then Opening
    else if w == "close" then Close
    else if w == "reopen" then Reopen
    else if w == "label" then Label
    else if w == "assign" then Assign
    else Comment
  }

  const CATEGORIES := [("issue", "issue"), ("discussion", "discussion")]
  const STATUSES := [("open", "open"), ("closed", "closed")]
  const EVENT_KINDS := [("open", "open"), ("comment", "comment"), ("close", "close"),
                        ("reopen", "reopen"), ("label", "label"), ("assign", "assign")]

  const HEADER: seq<Field> := [
    Field("schema_version", Version(1), None),
    Field("kind", Choice(CATEGORIES), None),
    Field("number", Number, None),
    Field("title", Text, Some(T(""))),
    Field("state", Choice(STATUSES), None),
    Field("author", Text, Some(T(""))),
    Field("created_ts", Stamp, Some(I(0))),
    Field("labels", Texts, Some(Ts([]))),
    Field("assignees", Texts, Some(Ts([]))),
    Field("mentions", Numbers, Some(Ns([])))
  ]

  const EVENT: seq<Field> := [
    Field("kind", Choice(EVENT_KINDS), Some(T("comment"))),
    Field("author", Text, Some(T(""))),
    Field("ts", Stamp, Some(I(0))),
    Field("body", Text, Some(T(""))),
    Field("add", Texts, Some(Ts([]))),
    Field("remove", Texts, Some(Ts([]))),
    Field("reason", Text, Some(T("")))
  ]

  const SCHEMA := Schema(HEADER, EVENT)

  function EventValues(e: Event): seq<Value> {
    [T(KindWord(e.kind)), T(e.author), I(e.ts), T(e.body), Ts(e.add), Ts(e.remove), T(e.reason)]
  }

  function EventFrom(v: seq<Value>): Event {
    Event(KindOf(TextOf(At(v, 0))), TextOf(At(v, 1)), TimeOf(At(v, 2)), TextOf(At(v, 3)),
          TextsOf(At(v, 4)), TextsOf(At(v, 5)), TextOf(At(v, 6)))
  }

  function RecordOf(x: Issue): Record {
    Record([N(1), T(CategoryWord(x.kind)), N(x.number), T(x.title), T(StatusWord(x.state)), T(x.author),
            I(x.createdTs), Ts(x.labels), Ts(x.assignees), Ns(x.mentions)],
           seq(|x.events|, i requires 0 <= i < |x.events| => EventValues(x.events[i])))
  }

  function IssueFrom(r: Record): Issue {
    var h := r.header;
    Issue(CountOf(At(h, 2)), CategoryOf(TextOf(At(h, 1))), TextOf(At(h, 3)), StatusOf(TextOf(At(h, 4))),
          TextOf(At(h, 5)), TimeOf(At(h, 6)), TextsOf(At(h, 7)), TextsOf(At(h, 8)), CountsOf(At(h, 9)),
          seq(|r.events|, i requires 0 <= i < |r.events| => EventFrom(r.events[i])))
  }

  predicate EventValid(e: Event) {
    && TextOk(e.author, AUTHOR_MAX) && TextOk(e.body, BODY_MAX) && TextOk(e.reason, REASON_MAX)
    && TimeOk(e.ts) && ArrayOk(e.add) && ArrayOk(e.remove)
  }

  predicate Valid(x: Issue) {
    && TextOk(x.title, TITLE_MAX) && TextOk(x.author, AUTHOR_MAX) && TimeOk(x.createdTs)
    && ArrayOk(x.labels) && ArrayOk(x.assignees)
    && |x.mentions| <= MENTIONS_MAX && |x.events| <= EVENTS_MAX
    && forall i :: 0 <= i < |x.events| ==> EventValid(x.events[i])
  }

  function EncodeIssue(shown: Shown, x: Issue): string { Encode(shown, SCHEMA, RecordOf(x)) }

  /** A blob that reads as a record and passes the gate. */
  function DecodeIssue(text: string): Option<Issue> {
    var r := Decode(SCHEMA, text);
    if r.None? then None
    else
      var x := IssueFrom(r.value);
      if Valid(x) then Some(x) else None
  }

  ghost predicate EventLegible(shown: Shown, e: Event) {
    && AllReadable(shown, e.author) && AllReadable(shown, e.body) && AllReadable(shown, e.reason)
    && AllReadables(shown, e.add) && AllReadables(shown, e.remove)
  }

  /** No text of the issue is printed with a numeric escape. */
  ghost predicate IssueLegible(shown: Shown, x: Issue) {
    && AllReadable(shown, x.title) && AllReadable(shown, x.author)
    && AllReadables(shown, x.labels) && AllReadables(shown, x.assignees)
    && forall i :: 0 <= i < |x.events| ==> EventLegible(shown, x.events[i])
  }

  lemma {:induction false} HeaderKeys()
    ensures forall i, j :: 0 <= i < j < |HEADER| ==> HEADER[i].key != HEADER[j].key
  {
  }

  lemma {:induction false} HeaderLetters()
    ensures forall i :: 0 <= i < |HEADER| ==> KeyOk(HEADER[i].key)
  {
    HeaderKeysOk();
  }

  lemma {:induction false} EventKeys()
    ensures forall i, j :: 0 <= i < j < |EVENT| ==> EVENT[i].key != EVENT[j].key
  {
  }

  lemma {:induction false} EventLetters()
    ensures forall i :: 0 <= i < |EVENT| ==> KeyOk(EVENT[i].key) && EVENT[i].start.Some?
  {
    EventKeysOk();
  }

  lemma {:induction false} SchemaIsOk()
    ensures SchemaOk(SCHEMA)
  {
    HeaderKeys();
    HeaderLetters();
    EventKeys();
    EventLetters();
  }

  lemma {:induction false} EventFills(e: Event)
    ensures Fill(EVENT, EventValues(e))
  {
    var v := EventValues(e);
    forall i | 0 <= i < |v| ensures Holds(EVENT[i].kind, v[i]) {
      if i == 0 { EventKindSlot(e.kind); } else { EventSlot(e, i); }
    }
  }

  lemma {:induction false} EventSlot(e: Event, i: nat)
    requires 0 < i < |EVENT|
    ensures Holds(EVENT[i].kind, EventValues(e)[i])
  {
  }

  lemma {:induction false} EventRestores(e: Event)
    ensures EventFrom(EventValues(e)) == e
  {
    EventWord(_ => true, e.kind);
  }

  lemma {:induction false} EventLegibility(shown: Shown, e: Event)
    ensures LegibleFrom(shown, EventValues(e), 0) <==> EventLegible(shown, e)
  {
    EventWord(shown, e.kind);
    var v := EventValues(e);
    assert v[1] == T(e.author) && v[3] == T(e.body) && v[4] == Ts(e.add) && v[5] == Ts(e.remove) && v[6] == T(e.reason);
  }

  lemma {:induction false} EventWordKept(k: EventKind)
    ensures Lookup(EVENT_KINDS, KindWord(k)) == Some(KindWord(k))
  {
  }

  lemma {:induction false} EventKindSlot(k: EventKind)
    ensures Holds(EVENT[0].kind, T(KindWord(k)))
  {
    EventWordKept(k);
    ChoiceHolds(EVENT_KINDS, KindWord(k));
  }

  lemma {:induction false} EventWord(shown: Shown, k: EventKind)
    ensures AllReadable(shown, KindWord(k)) && KindOf(KindWord(k)) == k
  {
  }

  lemma {:induction false} HeaderFills(x: Issue)
    ensures Fill(HEADER, RecordOf(x).header)
  {
    HeaderWords(_ => true, x);
    ChoiceHolds(CATEGORIES, CategoryWord(x.kind));
    ChoiceHolds(STATUSES, StatusWord(x.state));
    var h := RecordOf(x).header;
    forall i | 0 <= i < |h| ensures Holds(HEADER[i].kind, h[i]) {
      if i != 1 && i != 4 { HeaderSlot(x, i); }
    }
  }

  lemma {:induction false} HeaderSlot(x: Issue, i: nat)
    requires i < |HEADER| && i != 1 && i != 4
    ensures Holds(HEADER[i].kind, RecordOf(x).header[i])
  {
  }

  lemma {:induction false} HeaderLegibility(shown: Shown, x: Issue)
    ensures LegibleFrom(shown, RecordOf(x).header, 0) <==>
      AllReadable(shown, x.title) && AllReadable(shown, x.author)
      && AllReadables(shown, x.labels) && AllReadables(shown, x.assignees)
  {
    HeaderWords(shown, x);
    var h := RecordOf(x).header;
    assert h[3] == T(x.title) && h[5] == T(x.author) && h[7] == Ts(x.labels) && h[8] == Ts(x.assignees);
  }

  lemma {:induction false} HeaderWords(shown: Shown, x: Issue)
    ensures Lookup(CATEGORIES, CategoryWord(x.kind)) == Some(CategoryWord(x.kind))
    ensures Lookup(STATUSES, StatusWord(x.state)) == Some(StatusWord(x.state))
    ensures AllReadable(shown, CategoryWord(x.kind)) && AllReadable(shown, StatusWord(x.state))
    ensures CategoryOf(CategoryWord(x.kind)) == x.kind && StatusOf(StatusWord(x.state)) == x.state
  {
  }

  lemma {:induction false} RecordFits(shown: Shown, x: Issue)
    ensures Fits(SCHEMA, RecordOf(x))
    ensures RecordLegible(shown, RecordOf(x)) <==> IssueLegible(shown, x)
  {
    HeaderFills(x);
    HeaderLegibility(shown, x);
    var r := RecordOf(x);
    forall i | 0 <= i < |x.events|
      ensures Fill(EVENT, r.events[i])
      ensures LegibleFrom(shown, r.events[i], 0) <==> EventLegible(shown, x.events[i])
    {
      EventFills(x.events[i]);
      EventLegibility(shown, x.events[i]);
    }
  }

  lemma {:induction false} RecordRestores(x: Issue)
    ensures IssueFrom(RecordOf(x)) == x
  {
    HeaderRestores(x);
    EventsRestore(x);
  }

  lemma {:induction false} HeaderRestores(x: Issue)
    ensures IssueFrom(RecordOf(x)).(events := x.events) == x
  {
    HeaderWords(_ => true, x);
  }

  lemma {:induction false} EventsRestore(x: Issue)
    ensures IssueFrom(RecordOf(x)).events == x.events
  {
    var y := IssueFrom(RecordOf(x));
    forall i | 0 <= i < |x.events| ensures y.events[i] == x.events[i] {
      EventRestores(x.events[i]);
    }
  }

  /**
    * An issue written to a blob reads back as itself exactly when it passes the gate and holds no
    * character that is printed as a numeric escape; otherwise the blob does not read at all.
    */
  lemma {:induction false} IssueRoundTrip(shown: Shown, x: Issue)
    ensures DecodeIssue(EncodeIssue(shown, x)) == if Valid(x) && IssueLegible(shown, x) then Some(x) else None
  {
    SchemaIsOk();
    RecordFits(shown, x);
    RoundTrip(shown, SCHEMA, RecordOf(x));
    RecordRestores(x);
  }

  // The text of the blob.

  /** The keys of the header and their values, in the order of their lines. */
  function HeaderPairs(x: Issue): seq<(string, Value)> {
    [ ("schema_version", N(1)),
      ("kind", T(match x.kind case IssueKind => "issue" case Discussion => "discussion")),
      ("number", N(x.number)),
      ("title", T(x.title)),
      ("state", T(match x.state case Open => "open" case Closed => "closed")),
      ("author", T(x.author)),
      ("created_ts", I(x.createdTs)),
      ("labels", Ts(x.labels)),
      ("assignees", Ts(x.assignees)),
      ("mentions", Ns(x.mentions)) ]
  }

  function EventName(k: EventKind): string {
    match k
    case Opening => "open"
    case Comment => "comment"
    case Close => "close"
    case Reopen => "reopen"
    case Label => "label"
    case Assign => "assign"
  }

  function EventPairs(e: Event): seq<(string, Value)> {
    [ ("kind", T(EventName(e.kind))),
      ("author", T(e.author)),
      ("ts", I(e.ts)),
      ("body", T(e.body)),
      ("add", Ts(e.add)),
      ("remove", Ts(e.remove)),
      ("reason", T(e.reason)) ]
  }

  function LogPairs(events: seq<Event>): (pairs: seq<seq<(string, Value)>>)
    ensures |pairs| == |events|
  {
    seq(|events|, i requires 0 <= i < |events| => EventPairs(events[i]))
  }

  lemma {:induction false} HeaderPaired(x: Issue)
    ensures PairsOf(HEADER, RecordOf(x).header, HeaderPairs(x))
  {
  }

  lemma {:induction false} EventPaired(e: Event)
    ensures PairsOf(EVENT, EventValues(e), EventPairs(e))
  {
  }

  lemma {:induction false} Paired(x: Issue)
    ensures PairsOf(HEADER, RecordOf(x).header, HeaderPairs(x))
    ensures AllPairsOf(EVENT, RecordOf(x).events, LogPairs(x.events))
  {
    HeaderPaired(x);
    forall i | 0 <= i < |x.events| ensures PairsOf(EVENT, RecordOf(x).events[i], LogPairs(x.events)[i]) {
      EventPaired(x.events[i]);
    }
  }

  /** The blob, line by line: each key stands beside its own field. */
  lemma {:induction false} IssueText(shown: Shown, x: Issue)
    ensures EncodeIssue(shown, x) == Blob(shown, HeaderPairs(x), LogPairs(x.events))
  {
    Paired(x);
    BlobIs(shown, SCHEMA, RecordOf(x), HeaderPairs(x), LogPairs(x.events));
  }

  // What any text is read as.

  /** The gate's bounds, in numbers. */
  predicate EventBounded(e: Event) {
    && Short(e.author, 256)
    && Short(e.body, 65_536)
    && Short(e.reason, 1024)
    && 0 <= e.ts <= 4_102_444_800 && ShortList(e.add) && ShortList(e.remove)
  }

  predicate Bounded(x: Issue) {
    && Short(x.title, 1024)
    && Short(x.author, 256)
    && 0 <= x.createdTs <= 4_102_444_800 && ShortList(x.labels) && ShortList(x.assignees)
    && |x.mentions| <= 1024 && |x.events| <= 100_000
    && forall i :: 0 <= i < |x.events| ==> EventBounded(x.events[i])
  }

  lemma {:induction false} EventBoundedIs(e: Event)
    ensures EventValid(e) <==> EventBounded(e)
  {
    ShortIs(e.author, 256);
    ShortIs(e.body, 65_536);
    ShortIs(e.reason, 1024);
    ShortListIs(e.add);
    ShortListIs(e.remove);
  }

  lemma {:induction false} BoundedIs(x: Issue)
    ensures Valid(x) <==> Bounded(x)
  {
    ShortIs(x.title, 1024);
    ShortIs(x.author, 256);
    ShortListIs(x.labels);
    ShortListIs(x.assignees);
    forall i | 0 <= i < |x.events| ensures EventValid(x.events[i]) <==> EventBounded(x.events[i]) {
      EventBoundedIs(x.events[i]);
    }
  }

  lemma {:induction false} HeaderPlain()
    ensures PlainFields(HEADER)
  {
    SameWords("kind", CATEGORIES);
    SameWords("state", STATUSES);
  }

  lemma {:induction false} EventPlain()
    ensures PlainFields(EVENT)
  {
    EventKindPlain();
    forall i | 0 < i < |EVENT| ensures PlainField(EVENT[i]) {
      EventFieldPlain(i);
    }
  }

  lemma {:induction false} EventKindPlain()
    ensures PlainField(EVENT[0])
  {
    SameWords("kind", EVENT_KINDS);
    NoEmptyWord(EVENT_KINDS);
    EventWordKept(Comment);
  }

  lemma {:induction false} EventFieldPlain(i: nat)
    requires 0 < i < |EVENT|
    ensures PlainField(EVENT[i])
  {
  }

  lemma {:induction false} KindKept(w: string)
    requires Lookup(EVENT_KINDS, w).Some?
    ensures KindWord(KindOf(w)) == w
  {
    LookupIn(EVENT_KINDS, w);
  }

  lemma {:induction false} HeaderRebuilt(h: seq<Value>)
    requires Fill(HEADER, h)
    ensures RecordOf(IssueFrom(Record(h, []))).header == h
  {
    HeldShaped(HEADER, h);
    WordsRebuilt(h);
  }

  lemma {:induction false} WordsRebuilt(h: seq<Value>)
    requires Fill(HEADER, h)
    ensures h[1] == T(CategoryWord(CategoryOf(TextOf(h[1])))) && h[4] == T(StatusWord(StatusOf(TextOf(h[4]))))
  {
    assert Holds(HEADER[1].kind, h[1]) && Holds(HEADER[4].kind, h[4]);
    LookupIn(CATEGORIES, h[1].text);
    LookupIn(STATUSES, h[4].text);
  }

  lemma {:induction false} EventRebuilt(v: seq<Value>)
    requires Fill(EVENT, v)
    ensures EventValues(EventFrom(v)) == v
  {
    HeldShaped(EVENT, v);
    assert Holds(EVENT[0].kind, v[0]);
    KindKept(v[0].text);
  }

  lemma {:induction false} RecordRebuilt(r: Record)
    requires Fits(SCHEMA, r)
    ensures RecordOf(IssueFrom(r)) == r
  {
    HeaderRebuilt(r.header);
    forall i | 0 <= i < |r.events| ensures EventValues(EventFrom(r.events[i])) == r.events[i] {
      EventRebuilt(r.events[i]);
    }
  }

  /** Reading any text: it gives exactly the issue that its lines tell, key by key, if that passes
      the gate. */
  lemma {:induction false} IssueReads(text: string, x: Issue)
    ensures DecodeIssue(text) == Some(x) <==> Bounded(x) && Tale(SCHEMA, text, HeaderPairs(x), LogPairs(x.events))
  {
    RecordRestores(x);
    BoundedIs(x);
    Told(text, x);
    if Decode(SCHEMA, text).Some? {
      DecodedRebuilt(text);
    }
  }

  lemma {:induction false} Told(text: string, x: Issue)
    ensures Decode(SCHEMA, text) == Some(RecordOf(x)) <==>
      Tale(SCHEMA, text, HeaderPairs(x), LogPairs(x.events))
  {
    SchemaIsOk();
    HeaderPlain();
    EventPlain();
    Paired(x);
    RecordFits(_ => true, x);
    TaleIff(SCHEMA, text, RecordOf(x), HeaderPairs(x), LogPairs(x.events));
  }

  lemma {:induction false} DecodedRebuilt(text: string)
    requires Decode(SCHEMA, text).Some?
    ensures RecordOf(IssueFrom(Decode(SCHEMA, text).value)) == Decode(SCHEMA, text).value
  {
    SchemaIsOk();
    HeaderPlain();
    EventPlain();
    DecodeFits(SCHEMA, text);
    RecordRebuilt(Decode(SCHEMA, text).value);
  }

  // The gate on updates.

  function When(e: Event): Time { e.ts }

  predicate Monotone(events: seq<Event>) { InOrder(events, When) }

  /** What stays the same, and how the log may grow. */
  ghost predicate Extends(before: Issue, after: Issue) {
    && after.number == before.number && after.kind == before.kind && after.createdTs == before.createdTs
    && after.author == before.author && after.title == before.title
    && before.events <= after.events && Monotone(after.events)
  }

  /** The checks on an update, in the order they are made. */
  method ValidateExtends(before: Issue, after: Issue) returns (ok: bool)
    ensures ok <==> Extends(before, after)
  {
    if after.number != before.number || after.kind != before.kind || after.createdTs != before.createdTs
       || after.author != before.author || after.title != before.title || |after.events| < |before.events| {
      return false;
    }
    var same := SamePrefix(before.events, after.events);
    if !same {
      return false;
    }
    var sorted := CheckTimes(after.events, When);
    if !sorted {
      return false;
    }
    return true;
  }

  ghost predicate Linked(chain: seq<Issue>, j: nat)
    requires 0 < j < |chain|
  {
    Extends(chain[j - 1], chain[j])
  }

  /** Accepted updates compose: any later version is itself an accepted update of any earlier one. */
  lemma {:induction false} ChainExtends(chain: seq<Issue>, i: nat, j: nat)
    requires i < j < |chain| && forall k: nat :: 0 < k < |chain| ==> Linked(chain, k)
    ensures Extends(chain[i], chain[j])
    decreases j
  {
    assert Linked(chain, j);
    if i < j - 1 {
      ChainExtends(chain, i, j - 1);
    }
  }
}
