/** The line format that issues, pull requests and incidents share. */
module TicketRecords {
  // One `key = value` line per header field, then one block per event. The program
  // carries a copy of this printer and parser for each kind of ticket; what differs is the list of
  // fields, here a parameter.

  import opened Bytes
  import opened TicketText
  import opened TicketLists
  import opened TicketTables

  // Values.

  /** How a field is read. A choice names its words, each with the word it is kept as. */
  datatype Kind =
    | Text
    | Choice(words: seq<(string, string)>)
    | Version(number: nat)
    | Number
    | Stamp
    | Texts
    | Numbers
    | Fields

  datatype Value =
    | T(text: string)
    | N(number: nat)
    | I(stamp: int)
    | Ts(texts: seq<string>)
    | Ns(numbers: seq<nat>)
    | Tb(table: Table)

  function Lookup(words: seq<(string, string)>, w: string): Option<string> {
    if words == [] then None
    else if words[0].0 == w then Some(words[0].1)
    else Lookup(words[1..], w)
  }

  /** A value the field can hold. */
  ghost predicate Holds(kind: Kind, v: Value) {
    match kind
    case Text => v.T?
    case Choice(words) => v.T? && Lookup(words, v.text) == Some(v.text)
    case Version(n) => v == N(n) && n < U32_BOUND
    case Number => v.N? && InU64(v.number)
    case Stamp => v.I? && InI64(v.stamp)
    case Texts => v.Ts?
    case Numbers => v.Ns? && forall i :: 0 <= i < |v.numbers| ==> InU64(v.numbers[i])
    case Fields => v.Tb? && Ordered(v.table)
  }

  lemma {:induction false} ChoiceHolds(words: seq<(string, string)>, w: string)
    requires Lookup(words, w) == Some(w)
    ensures Holds(Choice(words), T(w))
  {
  }

  /** The first entry for a word gives its spelling. */
  lemma {:induction false} LookupAt(words: seq<(string, string)>, w: string, i: nat)
    requires i < |words| && words[i] == (w, w) && forall j :: 0 <= j < i ==> words[j].0 != w
    ensures Lookup(words, w) == Some(w)
    decreases i
  {
    if i > 0 {
      assert forall j :: 0 <= j < i - 1 ==> words[1..][j] == words[j + 1];
      LookupAt(words[1..], w, i - 1);
    }
  }

  function Print(shown: Shown, v: Value): string {
    match v
    case T(s) => Quote(shown, s)
    case N(n) => Digits(n)
    case I(n) => PrintInt(n)
    case Ts(xs) => PrintStrings(shown, xs)
    case Ns(xs) => PrintNumbers(xs)
    case Tb(t) => PrintTable(shown, t)
  }

  function ParseChoice(words: seq<(string, string)>, s: string): Option<Value> {
    var w := ParseString(s);
    if w.None? then None
    else
      var kept := Lookup(words, w.value);
      if kept.None? then None else Some(T(kept.value))
  }

  function Parse(kind: Kind, s: string): Option<Value> {
    match kind
    case Text => (var r := ParseString(s); if r.None? then None else Some(T(r.value)))
    case Choice(words) => ParseChoice(words, s)
    case Version(n) => if ParseNat(s, U32_BOUND) == Some(n) then Some(N(n)) else None
    case Number => (var r := ParseNat(s, U64_BOUND); if r.None? then None else Some(N(r.value)))
    case Stamp => (var r := ParseInt(s); if r.None? then None else Some(I(r.value)))
    case Texts => (var r := ParseStrings(s); if r.None? then None else Some(Ts(r.value)))
    case Numbers => (var r := ParseNumbers(s); if r.None? then None else Some(Ns(r.value)))
    case Fields => (var r := ParseTable(s); if r.None? then None else Some(Tb(r.value)))
  }

  /** The texts in the value hold no numeric escape, and no key an equals sign. */
  ghost predicate Legible(shown: Shown, v: Value) {
    match v
    case T(s) => AllReadable(shown, s)
    case Ts(xs) => AllReadables(shown, xs)
    case Tb(t) => TableReadable(shown, t)
    case _ => true
  }

  lemma {:induction false} ValueRoundTrip(shown: Shown, kind: Kind, v: Value)
    requires Holds(kind, v)
    ensures Parse(kind, Print(shown, v)) == if Legible(shown, v) then Some(v) else None
  {
    match v
    case T(s) => StringRoundTrip(shown, s);
    case N(n) => NatRoundTrip(n, if kind.Version? then U32_BOUND else U64_BOUND);
    case I(n) => IntRoundTrip(n);
    case Ts(xs) => StringsRoundTrip(shown, xs);
    case Ns(xs) => NumbersRoundTrip(xs);
    case Tb(t) => TableRoundTrip(shown, t);
  }

  predicate OneLine(s: string) { forall i :: 0 <= i < |s| ==> s[i] != '\n' }

  lemma {:induction false} EscapedOneLine(shown: Shown, s: string)
    ensures OneLine(Escaped(shown, s))
  {
    if s != [] {
      EscapedOneLine(shown, s[1..]);
      HexOneLine(s[0] as int);
    }
  }

  lemma {:induction false} HexOneLine(n: nat)
    ensures OneLine(Hex(n))
  {
    if n >= 16 {
      HexOneLine(n / 16);
    }
  }

  lemma {:induction false} QuoteOneLine(shown: Shown, s: string)
    ensures OneLine(Quote(shown, s))
  {
    EscapedOneLine(shown, s);
  }

  ghost predicate AllOneLine(parts: seq<string>) { forall i :: 0 <= i < |parts| ==> OneLine(parts[i]) }

  lemma {:induction false} JoinOneLine(parts: seq<string>)
    requires AllOneLine(parts)
    ensures OneLine(Join(parts))
  {
    if |parts| > 1 {
      assert forall i :: 0 <= i < |parts[1..]| ==> parts[1..][i] == parts[i + 1];
      JoinOneLine(parts[1..]);
      assert OneLine(parts[0]);
    } else if |parts| == 1 {
      assert OneLine(parts[0]);
    }
  }

  lemma {:induction false} QuotesOneLine(shown: Shown, xs: seq<string>)
    ensures AllOneLine(Quotes(shown, xs))
  {
    if xs != [] {
      QuoteOneLine(shown, xs[0]);
      QuotesOneLine(shown, xs[1..]);
    }
  }

  lemma {:induction false} NumeralsOneLine(xs: seq<nat>)
    ensures AllOneLine(Numerals(xs))
  {
    if xs != [] {
      NumeralsOneLine(xs[1..]);
    }
  }

  lemma {:induction false} EntryOneLine(shown: Shown, k: string, v: string)
    ensures OneLine(Entry(shown, k, v))
  {
    QuoteOneLine(shown, k);
    QuoteOneLine(shown, v);
  }

  lemma {:induction false} EntriesOneLine(shown: Shown, t: Table)
    ensures AllOneLine(Entries(shown, t))
  {
    if t != [] {
      EntryOneLine(shown, t[0].0, t[0].1);
      EntriesOneLine(shown, t[1..]);
    }
  }

  lemma {:induction false} BracketShape(body: string, open: char, close: char)
    requires OneLine(body) && !White(open) && !White(close)
    ensures Tight([open] + (body + [close])) && OneLine([open] + (body + [close]))
  {
  }

  lemma {:induction false} TableShape(shown: Shown, t: Table)
    ensures Tight(PrintTable(shown, t)) && OneLine(PrintTable(shown, t))
  {
    if t != [] {
      EntriesOneLine(shown, t);
      JoinOneLine(Entries(shown, t));
      BracketShape([' '] + (Join(Entries(shown, t)) + [' ']), '{', '}');
    }
  }

  lemma {:induction false} StringsShape(shown: Shown, xs: seq<string>)
    ensures Tight(PrintStrings(shown, xs)) && OneLine(PrintStrings(shown, xs))
  {
    QuotesOneLine(shown, xs);
    JoinOneLine(Quotes(shown, xs));
    BracketShape(Join(Quotes(shown, xs)), '[', ']');
  }

  lemma {:induction false} NumbersShape(xs: seq<nat>)
    ensures Tight(PrintNumbers(xs)) && OneLine(PrintNumbers(xs))
  {
    NumeralsOneLine(xs);
    JoinOneLine(Numerals(xs));
    BracketShape(Join(Numerals(xs)), '[', ']');
  }

  /** A printed value is one line without blanks at its ends. */
  lemma {:induction false} PrintShape(shown: Shown, v: Value)
    ensures Tight(Print(shown, v)) && OneLine(Print(shown, v))
  {
    match v
    case T(s) =>
      QuoteTight(shown, s);
      QuoteOneLine(shown, s);
    case N(n) =>
    case I(n) =>
    case Ts(xs) => StringsShape(shown, xs);
    case Ns(xs) => NumbersShape(xs);
    case Tb(t) => TableShape(shown, t);
  }

  // Lines.

  /** Keys are written in small letters and underscores. */
  predicate KeyOk(key: string) {
    key != [] && forall i :: 0 <= i < |key| ==> 'a' <= key[i] <= 'z' || key[i] == '_'
  }

  const MARK: string := "[[event]]"
  // The first line of every blob, in pieces short enough for the verifier to look through.
  const BANNER: string := "# generat" + "ed by gyt" + "; canonic" + "al orderi" + "ng matters"

  function LineOf(key: string, text: string): string { key + (EQUALS + text) }

  datatype Line = Blank | Mark | Pair(key: string, val: string) | Malformed

  function ReadLine(raw: string): Line {
    var line := Trim(raw);
    if line == [] || line[0] == '#' then Blank
    else if line == MARK then Mark
    else
      var f := FirstOf(line, '=');
      if f == |line| then Malformed else Pair(Trim(line[..f]), Trim(line[f + 1..]))
  }

  lemma {:induction false} TrimmedSides(key: string, text: string)
    requires KeyOk(key) && Tight(text)
    ensures Trim(key + [' ']) == key && Trim([' '] + text) == text
  {
    TrimTight([], key, [' ']);
    assert [] + key + [' '] == key + [' '];
    TrimTight([' '], text, []);
    assert [' '] + text + [] == [' '] + text;
  }

  lemma {:induction false} LineCut(w: string, u: string, v: string)
    requires w == u + (['='] + v) && Keyable(u) && Tight(w) && w[0] != '#' && w[0] != '['
    ensures ReadLine(w) == Pair(Trim(u), Trim(v))
  {
    TrimAlone(w);
    assert forall i :: 0 <= i < |u| ==> w[i] == u[i];
    assert w[|u|] == '=';
    assert FirstOf(w, '=') == |u|;
    assert w[..|u|] == u && w[|u| + 1..] == v;
  }

  lemma {:induction false} LineReads(key: string, text: string)
    requires KeyOk(key) && Tight(text)
    ensures ReadLine(LineOf(key, text)) == Pair(key, text)
  {
    var w := LineOf(key, text);
    SpreadEquals(key, text);
    LineShape(key, text);
    LineCut(w, key + [' '], [' '] + text);
    TrimmedSides(key, text);
  }

  lemma {:induction false} LineShape(key: string, text: string)
    requires KeyOk(key) && Tight(text)
    ensures var w := LineOf(key, text);
            Tight(w) && w[0] != '#' && w[0] != '[' && Keyable(key + [' ']) && (OneLine(text) ==> OneLine(w))
  {
    var w := LineOf(key, text);
    assert w[0] == key[0] && w[|w| - 1] == text[|text| - 1];
  }

  lemma {:induction false} BannerReads()
    ensures ReadLine(BANNER) == Blank
  {
    assert BANNER[0] == "# generat"[0] == '#';
    assert BANNER[|BANNER| - 1] == "ng matters"[9] == 's';
    TrimAlone(BANNER);
  }

  lemma {:induction false} BannerOneLine()
    ensures OneLine(BANNER)
  {
    assert OneLine("# generat") && OneLine("ed by gyt") && OneLine("; canonic");
    assert OneLine("al orderi") && OneLine("ng matters");
  }

  lemma {:induction false} MarkReads()
    ensures ReadLine(MARK) == Mark && OneLine(MARK)
  {
    assert |MARK| == 9;
    assert MARK[0] == '[';
    assert MARK[8] == ']';
    TrimAlone(MARK);
  }

  // Records.

  /** A field, and the value it has if no line sets it; None if a line must. */
  datatype Field = Field(key: string, kind: Kind, start: Option<Value>)

  datatype Schema = Schema(header: seq<Field>, event: seq<Field>)

  datatype Record = Record(header: seq<Value>, events: seq<seq<Value>>)

  ghost predicate FieldsOk(fields: seq<Field>) {
    && (forall i :: 0 <= i < |fields| ==> KeyOk(fields[i].key))
    && forall i, j :: 0 <= i < j < |fields| ==> fields[i].key != fields[j].key
  }

  ghost predicate SchemaOk(schema: Schema) {
    && FieldsOk(schema.header) && FieldsOk(schema.event)
    && forall i :: 0 <= i < |schema.event| ==> schema.event[i].start.Some?
  }

  ghost predicate Fill(fields: seq<Field>, vals: seq<Value>) {
    |vals| == |fields| && forall i :: 0 <= i < |vals| ==> Holds(fields[i].kind, vals[i])
  }

  ghost predicate Fits(schema: Schema, r: Record) {
    Fill(schema.header, r.header) && forall i :: 0 <= i < |r.events| ==> Fill(schema.event, r.events[i])
  }

  /** The lines of the fields from the i-th on. */
  function FieldLines(shown: Shown, fields: seq<Field>, vals: seq<Value>, i: nat): (lines: seq<string>)
    requires i <= |fields| == |vals|
    ensures |lines| == |fields| - i
    decreases |fields| - i
  {
    if i == |fields| then []
    else [LineOf(fields[i].key, Print(shown, vals[i]))] + FieldLines(shown, fields, vals, i + 1)
  }

  function EventLines(shown: Shown, fields: seq<Field>, events: seq<seq<Value>>): seq<string>
    requires forall i :: 0 <= i < |events| ==> |events[i]| == |fields|
  {
    if events == [] then []
    else [MARK] + (FieldLines(shown, fields, events[0], 0) + ([[]] + EventLines(shown, fields, events[1..])))
  }

  ghost predicate Sized(schema: Schema, r: Record) {
    && |r.header| == |schema.header|
    && forall i :: 0 <= i < |r.events| ==> |r.events[i]| == |schema.event|
  }

  function RecordLines(shown: Shown, schema: Schema, r: Record): seq<string>
    requires Sized(schema, r)
  {
    [BANNER] + (FieldLines(shown, schema.header, r.header, 0) + ([[]] + EventLines(shown, schema.event, r.events)))
  }

  /** The lines, each closed by a newline. */
  function Joined(lines: seq<string>): string {
    if lines == [] then [] else lines[0] + (['\n'] + Joined(lines[1..]))
  }

  function Encode(shown: Shown, schema: Schema, r: Record): string
    requires Sized(schema, r)
  {
    Joined(RecordLines(shown, schema, r))
  }

  lemma {:induction false} FieldLinesShape(shown: Shown, fields: seq<Field>, vals: seq<Value>, i: nat)
    requires i <= |fields| == |vals| && FieldsOk(fields)
    ensures AllOneLine(FieldLines(shown, fields, vals, i))
    decreases |fields| - i
  {
    if i < |fields| {
      FieldLineShape(shown, fields[i].key, vals[i]);
      FieldLinesShape(shown, fields, vals, i + 1);
      OneMoreLine(LineOf(fields[i].key, Print(shown, vals[i])), FieldLines(shown, fields, vals, i + 1));
    }
  }

  lemma {:induction false} FieldLineShape(shown: Shown, key: string, v: Value)
    requires KeyOk(key)
    ensures OneLine(LineOf(key, Print(shown, v)))
  {
    PrintShape(shown, v);
    LineShape(key, Print(shown, v));
  }

  lemma {:induction false} OneMoreLine(line: string, rest: seq<string>)
    requires OneLine(line) && AllOneLine(rest)
    ensures AllOneLine([line] + rest)
  {
  }

  lemma {:induction false} EventLinesShape(shown: Shown, fields: seq<Field>, events: seq<seq<Value>>)
    requires FieldsOk(fields) && forall i :: 0 <= i < |events| ==> |events[i]| == |fields|
    ensures AllOneLine(EventLines(shown, fields, events))
  {
    if events != [] {
      MarkReads();
      FieldLinesShape(shown, fields, events[0], 0);
      EventLinesShape(shown, fields, events[1..]);
    }
  }

  lemma {:induction false} RecordLinesShape(shown: Shown, schema: Schema, r: Record)
    requires Sized(schema, r) && SchemaOk(schema)
    ensures AllOneLine(RecordLines(shown, schema, r))
  {
    BannerOneLine();
    FieldLinesShape(shown, schema.header, r.header, 0);
    EventLinesShape(shown, schema.event, r.events);
  }

  /** The pieces between newlines; trimming a line takes care of a carriage return. */
  function BreakLines(s: string): seq<string>
    decreases |s|
  {
    var f := FirstOf(s, '\n');
    if f == |s| then [s] else [s[..f]] + BreakLines(s[f + 1..])
  }

  lemma {:induction false} FirstNewlineIs(u: string, v: string)
    requires OneLine(u)
    ensures FirstOf(u + (['\n'] + v), '\n') == |u|
  {
    var w := u + (['\n'] + v);
    var f := FirstOf(w, '\n');
    assert forall i :: 0 <= i < |u| ==> w[i] == u[i];
    assert w[|u|] == '\n';
    assert forall i :: 0 <= i < f ==> w[..f][i] == w[i];
  }

  lemma {:induction false} SplitOne(u: string, v: string)
    requires OneLine(u)
    ensures BreakLines(u + (['\n'] + v)) == [u] + BreakLines(v)
  {
    FirstNewlineIs(u, v);
    var w := u + (['\n'] + v);
    assert w[..|u|] == u && w[|u| + 1..] == v;
  }

  lemma {:induction false} OneLineTail(lines: seq<string>)
    requires AllOneLine(lines) && lines != []
    ensures OneLine(lines[0]) && AllOneLine(lines[1..])
    ensures [lines[0]] + (lines[1..] + [[]]) == lines + [[]]
  {
    assert forall i :: 0 <= i < |lines[1..]| ==> lines[1..][i] == lines[i + 1];
  }

  lemma {:induction false} BreakJoined(lines: seq<string>)
    requires AllOneLine(lines)
    ensures BreakLines(Joined(lines)) == lines + [[]]
  {
    if lines == [] {
      assert BreakLines([]) == [[]];
    } else {
      OneLineTail(lines);
      SplitOne(lines[0], Joined(lines[1..]));
      BreakJoined(lines[1..]);
    }
  }
}
