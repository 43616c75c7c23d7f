/** The text of a ticket blob, written out, and what reading any text amounts to. */
module TicketBlobs {
  // The definitions down to the next heading are the format itself: nothing of the printer enters
  // them, and the printer is shown to produce it.

  import opened Bytes
  import opened TicketText
  import opened TicketLists
  import opened TicketTables
  import opened TicketRecords
  import opened TicketCodec
  import opened TicketLimits

  function Hexadecimal(n: nat): string {
    var d := n % 16;
    (if n < 16 then "" else Hexadecimal(n / 16)) + [if d < 10 then '0' + d as char else 'a' + (d - 10) as char]
  }

  function Decimal(n: nat): string {
    (if n < 10 then "" else Decimal(n / 10)) + ['0' + (n % 10) as char]
  }

  function Signed(n: int): string { if n < 0 then "-" + Decimal(-n) else Decimal(n) }

  /** A character between quotes. */
  function Spelling(shown: Shown, c: char): string {
    if c == '\n' then "\\n"
    else if c == '\t' then "\\t"
    else if c == '\r' then "\\r"
    else if c == '\"' then "\\\""
    else if c == '\\' then "\\\\"
    else if c == '\0' then "\\0"
    else if 0x20 <= c as int < 0x7F || (0x80 <= c as int && shown(c)) then [c]
    else "\\u{" + Hexadecimal(c as int) + "}"
  }

  function Spellings(shown: Shown, s: string): string {
    if s == "" then "" else Spelling(shown, s[0]) + Spellings(shown, s[1..])
  }

  function Str(shown: Shown, s: string): string { "\"" + Spellings(shown, s) + "\"" }

  function Commas(parts: seq<string>): string {
    if |parts| == 0 then "" else if |parts| == 1 then parts[0] else parts[0] + ", " + Commas(parts[1..])
  }

  function Strs(shown: Shown, xs: seq<string>): string {
    "[" + Commas(seq(|xs|, i requires 0 <= i < |xs| => Str(shown, xs[i]))) + "]"
  }

  function Nats(xs: seq<nat>): string {
    "[" + Commas(seq(|xs|, i requires 0 <= i < |xs| => Decimal(xs[i]))) + "]"
  }

  function Inline(shown: Shown, t: Table): string {
    if t == [] then "{}"
    else "{ " + Commas(seq(|t|, i requires 0 <= i < |t| => Str(shown, t[i].0) + " = " + Str(shown, t[i].1))) + " }"
  }

  function Setting(key: string, val: string): string { key + " = " + val }

  /** Every line closed by a newline. */
  function Page(lines: seq<string>): string {
    if lines == [] then "" else lines[0] + "\n" + Page(lines[1..])
  }

  function Written(shown: Shown, v: Value): string {
    match v
    case T(s) => Str(shown, s)
    case N(n) => Decimal(n)
    case I(n) => Signed(n)
    case Ts(xs) => Strs(shown, xs)
    case Ns(xs) => Nats(xs)
    case Tb(t) => Inline(shown, t)
  }

  function Settings(shown: Shown, pairs: seq<(string, Value)>): seq<string> {
    seq(|pairs|, i requires 0 <= i < |pairs| => Setting(pairs[i].0, Written(shown, pairs[i].1)))
  }

  /** Every event under its mark, a blank line behind it. */
  function EventPages(shown: Shown, events: seq<seq<(string, Value)>>): seq<string> {
    if events == [] then []
    else ["[[event]]"] + Settings(shown, events[0]) + [""] + EventPages(shown, events[1..])
  }

  /** The first line of every blob, a line for each field of the header, a blank line, and the
      events. */
  function Blob(shown: Shown, header: seq<(string, Value)>, events: seq<seq<(string, Value)>>): string {
    var banner := "# generat" + "ed by gyt" + "; canonic" + "al orderi" + "ng matters";
    Page([banner] + Settings(shown, header) + [""] + EventPages(shown, events))
  }

  // The printer prints that.

  lemma {:induction false} HexIs(n: nat)
    ensures Hex(n) == Hexadecimal(n)
  {
    HexDigitIs(n % 16);
    if n >= 16 {
      HexIs(n / 16);
    }
  }

  lemma {:induction false} HexDigitIs(d: nat)
    requires d < 16
    ensures HexDigit(d) == if d < 10 then '0' + d as char else 'a' + (d - 10) as char
  {
  }

  lemma {:induction false} DigitsAre(n: nat)
    ensures Digits(n) == Decimal(n)
  {
    if n >= 10 {
      DigitsAre(n / 10);
    }
  }

  lemma {:induction false} SignedIs(n: int)
    ensures PrintInt(n) == Signed(n)
  {
    DigitsAre(if n < 0 then -n else n);
  }

  lemma {:induction false} SpellingIs(shown: Shown, c: char)
    ensures EscapeChar(shown, c) == Spelling(shown, c)
  {
    HexIs(c as int);
  }

  lemma {:induction false} SpellingsAre(shown: Shown, s: string)
    ensures Escaped(shown, s) == Spellings(shown, s)
  {
    if s != [] {
      SpellingIs(shown, s[0]);
      SpellingsAre(shown, s[1..]);
    }
  }

  lemma {:induction false} StrIs(shown: Shown, s: string)
    ensures Quote(shown, s) == Str(shown, s)
  {
    SpellingsAre(shown, s);
  }

  lemma {:induction false} CommasAre(parts: seq<string>)
    ensures Join(parts) == Commas(parts)
  {
    if |parts| > 1 {
      CommasAre(parts[1..]);
    }
  }

  lemma {:induction false} QuotesAt(shown: Shown, xs: seq<string>, i: nat)
    requires i < |xs|
    ensures Quotes(shown, xs)[i] == Str(shown, xs[i])
  {
    StrIs(shown, xs[0]);
    if i > 0 {
      QuotesAt(shown, xs[1..], i - 1);
    }
  }

  lemma {:induction false} StrsAre(shown: Shown, xs: seq<string>)
    ensures PrintStrings(shown, xs) == Strs(shown, xs)
  {
    var parts := seq(|xs|, i requires 0 <= i < |xs| => Str(shown, xs[i]));
    forall i | 0 <= i < |xs| ensures Quotes(shown, xs)[i] == parts[i] {
      QuotesAt(shown, xs, i);
    }
    assert Quotes(shown, xs) == parts;
    CommasAre(parts);
  }

  lemma {:induction false} NumeralsAt(xs: seq<nat>, i: nat)
    requires i < |xs|
    ensures Numerals(xs)[i] == Decimal(xs[i])
  {
    DigitsAre(xs[0]);
    if i > 0 {
      NumeralsAt(xs[1..], i - 1);
    }
  }

  lemma {:induction false} NatsAre(xs: seq<nat>)
    ensures PrintNumbers(xs) == Nats(xs)
  {
    var parts := seq(|xs|, i requires 0 <= i < |xs| => Decimal(xs[i]));
    forall i | 0 <= i < |xs| ensures Numerals(xs)[i] == parts[i] {
      NumeralsAt(xs, i);
    }
    assert Numerals(xs) == parts;
    CommasAre(parts);
  }

  lemma {:induction false} EntriesAt(shown: Shown, t: Table, i: nat)
    requires i < |t|
    ensures Entries(shown, t)[i] == Str(shown, t[i].0) + " = " + Str(shown, t[i].1)
  {
    StrIs(shown, t[0].0);
    StrIs(shown, t[0].1);
    if i > 0 {
      EntriesAt(shown, t[1..], i - 1);
    }
  }

  lemma {:induction false} InlineIs(shown: Shown, t: Table)
    ensures PrintTable(shown, t) == Inline(shown, t)
  {
    var parts := seq(|t|, i requires 0 <= i < |t| => Str(shown, t[i].0) + " = " + Str(shown, t[i].1));
    forall i | 0 <= i < |t| ensures Entries(shown, t)[i] == parts[i] {
      EntriesAt(shown, t, i);
    }
    assert Entries(shown, t) == parts;
    CommasAre(parts);
  }

  lemma {:induction false} WrittenIs(shown: Shown, v: Value)
    ensures Print(shown, v) == Written(shown, v)
  {
    match v
    case T(s) => StrIs(shown, s);
    case N(n) => DigitsAre(n);
    case I(n) => SignedIs(n);
    case Ts(xs) => StrsAre(shown, xs);
    case Ns(xs) => NatsAre(xs);
    case Tb(t) => InlineIs(shown, t);
  }

  lemma {:induction false} SetIs(key: string, text: string)
    ensures LineOf(key, text) == Setting(key, text)
  {
  }

  lemma {:induction false} PageIs(lines: seq<string>)
    ensures Joined(lines) == Page(lines)
  {
    if lines != [] {
      PageIs(lines[1..]);
    }
  }

  /** The lines of a field list, one by one. */
  lemma {:induction false} FieldLineAt(shown: Shown, fields: seq<Field>, vals: seq<Value>, i: nat, k: nat)
    requires i <= k < |fields| == |vals|
    ensures var lines := FieldLines(shown, fields, vals, i);
      |lines| == |fields| - i && lines[k - i] == LineOf(fields[k].key, Print(shown, vals[k]))
    decreases |fields| - i
  {
    Behind(LineOf(fields[i].key, Print(shown, vals[i])), FieldLines(shown, fields, vals, i + 1), k - i);
    if i < k {
      FieldLineAt(shown, fields, vals, i + 1, k);
    }
  }

  lemma {:induction false} Behind(line: string, rest: seq<string>, k: nat)
    requires k <= |rest|
    ensures ([line] + rest)[k] == if k == 0 then line else rest[k - 1]
  {
  }

  lemma {:induction false} FieldLineIs(shown: Shown, key: string, v: Value)
    ensures LineOf(key, Print(shown, v)) == Setting(key, Written(shown, v))
  {
    SetIs(key, Print(shown, v));
    WrittenIs(shown, v);
  }

  /** The pairs are the keys and the values of the fields. */
  ghost predicate PairsOf(fields: seq<Field>, vals: seq<Value>, pairs: seq<(string, Value)>) {
    && |pairs| == |fields| == |vals|
    && forall k :: 0 <= k < |pairs| ==> pairs[k] == (fields[k].key, vals[k])
  }

  lemma {:induction false} SettingsAre(shown: Shown, fields: seq<Field>, vals: seq<Value>, pairs: seq<(string, Value)>)
    requires PairsOf(fields, vals, pairs)
    ensures FieldLines(shown, fields, vals, 0) == Settings(shown, pairs)
  {
    var lines := FieldLines(shown, fields, vals, 0);
    forall k | 0 <= k < |lines| ensures lines[k] == Settings(shown, pairs)[k] {
      SettingAt(shown, fields, vals, pairs[k], k);
    }
  }

  lemma {:induction false} SettingAt(shown: Shown, fields: seq<Field>, vals: seq<Value>, pair: (string, Value), k: nat)
    requires k < |fields| == |vals| && pair == (fields[k].key, vals[k])
    ensures FieldLines(shown, fields, vals, 0)[k] == Setting(pair.0, Written(shown, pair.1))
  {
    FieldLineAt(shown, fields, vals, 0, k);
    FieldLineIs(shown, fields[k].key, vals[k]);
  }

  ghost predicate AllPairsOf(fields: seq<Field>, events: seq<seq<Value>>, pairs: seq<seq<(string, Value)>>) {
    |pairs| == |events| && forall i :: 0 <= i < |events| ==> PairsOf(fields, events[i], pairs[i])
  }

  lemma {:induction false} EventPagesAre(shown: Shown, fields: seq<Field>, events: seq<seq<Value>>,
                                         pairs: seq<seq<(string, Value)>>)
    requires AllPairsOf(fields, events, pairs)
    ensures forall i :: 0 <= i < |events| ==> |events[i]| == |fields|
    ensures EventLines(shown, fields, events) == EventPages(shown, pairs)
  {
    if events != [] {
      assert forall i :: 0 <= i < |events[1..]| ==> events[1..][i] == events[i + 1] && pairs[1..][i] == pairs[i + 1];
      EventPagesAre(shown, fields, events[1..], pairs[1..]);
      SettingsAre(shown, fields, events[0], pairs[0]);
      Regrouped(Settings(shown, pairs[0]), EventPages(shown, pairs[1..]));
    }
  }

  lemma {:induction false} Regrouped(lines: seq<string>, rest: seq<string>)
    ensures [MARK] + (lines + ([[]] + rest)) == ["[[event]]"] + lines + [""] + rest
  {
  }

  /** The blob of a record. */
  lemma {:induction false} BlobIs(shown: Shown, schema: Schema, r: Record, header: seq<(string, Value)>,
                                  events: seq<seq<(string, Value)>>)
    requires PairsOf(schema.header, r.header, header) && AllPairsOf(schema.event, r.events, events)
    ensures Sized(schema, r) && Encode(shown, schema, r) == Blob(shown, header, events)
  {
    SettingsAre(shown, schema.header, r.header, header);
    EventPagesAre(shown, schema.event, r.events, events);
    var lines := RecordLines(shown, schema, r);
    assert lines == [BANNER] + Settings(shown, header) + [""] + EventPages(shown, events);
    PageIs(lines);
  }

  // Reading any text.

  /** The lines up to the first event mark. */
  function Block(lines: seq<string>): seq<string> {
    if lines == [] || ReadLine(lines[0]).Mark? then [] else [lines[0]] + Block(lines[1..])
  }

  /** The lines behind each event mark, up to the next. */
  function Blocks(lines: seq<string>): seq<seq<string>> {
    if lines == [] then []
    else if ReadLine(lines[0]).Mark? then [Block(lines[1..])] + Blocks(lines[1..])
    else Blocks(lines[1..])
  }

  /** What the last line of a block that sets the key sets it to. */
  function LastVal(block: seq<string>, key: string): Option<string> {
    if block == [] then None
    else
      var rest, line := LastVal(block[1..], key), ReadLine(block[0]);
      if rest.Some? then rest
      else if line.Pair? && line.key == key then Some(line.val)
      else None
  }

  /** The line sets a field of the list to a value that parses. */
  ghost predicate SetsField(fields: seq<Field>, i: nat, line: TicketRecords.Line) {
    i < |fields| && line.Pair? && fields[i].key == line.key && Parse(fields[i].kind, line.val).Some?
  }

  ghost predicate LineOk(fields: seq<Field>, line: TicketRecords.Line) {
    line.Blank? || exists i: nat :: SetsField(fields, i, line)
  }

  ghost predicate Lawful(fields: seq<Field>, block: seq<string>) {
    forall j :: 0 <= j < |block| ==> LineOk(fields, ReadLine(block[j]))
  }

  /** The field's value is what its last line sets it to, or what it starts with. */
  ghost predicate FieldIs(f: Field, block: seq<string>, v: Value) {
    if LastVal(block, f.key).Some? then Parse(f.kind, LastVal(block, f.key).value) == Some(v) else f.start == Some(v)
  }

  ghost predicate Filled(fields: seq<Field>, block: seq<string>, vals: seq<Value>) {
    |vals| == |fields| && forall i :: 0 <= i < |fields| ==> FieldIs(fields[i], block, vals[i])
  }

  ghost predicate BlockReads(fields: seq<Field>, block: seq<string>, vals: seq<Value>) {
    Lawful(fields, block) && Filled(fields, block, vals)
  }

  /** The lines say the record: one block for the header, one for each event. */
  ghost predicate Says(schema: Schema, lines: seq<string>, r: Record) {
    && BlockReads(schema.header, Block(lines), r.header)
    && EventsSay(schema.event, Blocks(lines), r.events)
  }

  ghost predicate EventsSay(fields: seq<Field>, blocks: seq<seq<string>>, events: seq<seq<Value>>) {
    |events| == |blocks| && forall k :: 0 <= k < |events| ==> BlockReads(fields, blocks[k], events[k])
  }

  // One block.

  /** The slots after a block's lines. */
  function Sweep(fields: seq<Field>, slots: Slots, block: seq<string>): (r: Option<Slots>)
    requires |slots| == |fields|
    ensures r.Some? ==> |r.value| == |fields|
    decreases |block|
  {
    if block == [] then Some(slots)
    else
      match ReadLine(block[0])
      case Blank => Sweep(fields, slots, block[1..])
      case Pair(key, val) =>
        var next := Assign(fields, slots, key, val);
        if next.None? then None else Sweep(fields, next.value, block[1..])
      case _ => None
  }

  lemma {:induction false} FindIs(fields: seq<Field>, key: string)
    ensures var i := Find(fields, key);
      (i < |fields| ==> fields[i].key == key) && forall j :: 0 <= j < i ==> fields[j].key != key
  {
    if fields != [] && fields[0].key != key {
      FindIs(fields[1..], key);
    }
  }

  lemma {:induction false} AssignIff(fields: seq<Field>, slots: Slots, line: TicketRecords.Line)
    requires FieldsOk(fields) && |slots| == |fields| && line.Pair?
    ensures var r := Assign(fields, slots, line.key, line.val);
      && (r.Some? <==> LineOk(fields, line))
      && (r.Some? ==> forall i :: 0 <= i < |fields| ==>
            r.value[i] == if fields[i].key == line.key then Parse(fields[i].kind, line.val) else slots[i])
  {
    var f := Find(fields, line.key);
    FindIs(fields, line.key);
    if Assign(fields, slots, line.key, line.val).Some? {
      assert SetsField(fields, f, line);
    }
    if LineOk(fields, line) {
      var i: nat :| SetsField(fields, i, line);
      assert i == f;
    }
  }

  /** The slot of one field after a block, by its last line. */
  ghost predicate Swept(f: Field, before: Option<Value>, block: seq<string>, after: Option<Value>) {
    after == if LastVal(block, f.key).Some? then Parse(f.kind, LastVal(block, f.key).value) else before
  }

  lemma {:induction false} SweepIff(fields: seq<Field>, slots: Slots, block: seq<string>)
    requires FieldsOk(fields) && |slots| == |fields| && forall j :: 0 <= j < |block| ==> !ReadLine(block[j]).Mark?
    ensures var r := Sweep(fields, slots, block);
      && (r.Some? <==> Lawful(fields, block))
      && (r.Some? ==> forall i :: 0 <= i < |fields| ==> Swept(fields[i], slots[i], block, r.value[i]))
    decreases |block|
  {
    if block != [] {
      var line := ReadLine(block[0]);
      assert forall j :: 0 <= j < |block[1..]| ==> block[1..][j] == block[j + 1];
      LawfulStep(fields, block);
      if line.Blank? {
        SweepIff(fields, slots, block[1..]);
      } else if line.Pair? {
        AssignIff(fields, slots, line);
        var next := Assign(fields, slots, line.key, line.val);
        if next.Some? {
          SweepIff(fields, next.value, block[1..]);
          SweptStep(fields, slots, next.value, block);
        }
      }
    }
  }

  lemma {:induction false} LawfulStep(fields: seq<Field>, block: seq<string>)
    requires block != []
    ensures Lawful(fields, block) <==> LineOk(fields, ReadLine(block[0])) && Lawful(fields, block[1..])
  {
    assert forall j :: 0 <= j < |block[1..]| ==> block[1..][j] == block[j + 1];
    if LineOk(fields, ReadLine(block[0])) && Lawful(fields, block[1..]) {
      forall j | 0 <= j < |block| ensures LineOk(fields, ReadLine(block[j])) {
        if j > 0 { assert block[j] == block[1..][j - 1]; }
      }
    }
  }

  lemma {:induction false} SweptStep(fields: seq<Field>, slots: Slots, next: Slots, block: seq<string>)
    requires |fields| == |slots| == |next| && block != [] && ReadLine(block[0]).Pair?
    requires var line := ReadLine(block[0]);
      forall i :: 0 <= i < |fields| ==>
        next[i] == if fields[i].key == line.key then Parse(fields[i].kind, line.val) else slots[i]
    ensures forall i, after :: 0 <= i < |fields| && Swept(fields[i], next[i], block[1..], after) ==>
      Swept(fields[i], slots[i], block, after)
  {
  }

  // All blocks.

  function SweepAll(fields: seq<Field>, blocks: seq<seq<string>>): Option<seq<Slots>> {
    if blocks == [] then Some([])
    else
      var first, rest := Sweep(fields, Starts(fields), blocks[0]), SweepAll(fields, blocks[1..]);
      if first.None? || rest.None? then None else Some([first.value] + rest.value)
  }

  /** The state after the lines, told by their blocks. */
  lemma {:induction false} RunIs(schema: Schema, st: State, lines: seq<string>)
    requires StateOk(schema, st)
    ensures var r, here, more :=
        Run(schema, st, lines), Sweep(CurrentFields(schema, st), Current(st), Block(lines)),
        SweepAll(schema.event, Blocks(lines));
      && (r.Some? <==> here.Some? && more.Some?)
      && (r.Some? ==>
          && r.value.header == Put(st, here.value).header
          && Close(r.value) == Close(Put(st, here.value)) + more.value)
    decreases |lines|
  {
    if lines == [] {
      assert Put(st, Current(st)) == st;
    } else if ReadLine(lines[0]).Mark? {
      assert Put(st, Current(st)) == st;
      var open := OpenEvent(schema, st);
      RunIs(schema, open, lines[1..]);
      RunMark(schema, st, lines);
    } else {
      var next := Step(schema, st, lines[0]);
      var b := Block(lines);
      assert b[0] == lines[0] && b[1..] == Block(lines[1..]);
      if next.Some? {
        RunIs(schema, next.value, lines[1..]);
      }
    }
  }

  lemma {:induction false} RunMark(schema: Schema, st: State, lines: seq<string>)
    requires StateOk(schema, st) && lines != [] && ReadLine(lines[0]).Mark?
    ensures var open, b := OpenEvent(schema, st), Block(lines[1..]);
      var here, more := Sweep(schema.event, Starts(schema.event), b), SweepAll(schema.event, Blocks(lines[1..]));
      && Run(schema, st, lines) == Run(schema, open, lines[1..])
      && (SweepAll(schema.event, Blocks(lines)).Some? <==> here.Some? && more.Some?)
      && (here.Some? && more.Some? ==>
          Close(Put(open, here.value)) + more.value == Close(st) + SweepAll(schema.event, Blocks(lines)).value)
  {
    var bs := Blocks(lines);
    assert bs[1..] == Blocks(lines[1..]);
    var b := Block(lines[1..]);
    var here, more := Sweep(schema.event, Starts(schema.event), b), SweepAll(schema.event, Blocks(lines[1..]));
    if here.Some? && more.Some? {
      Assoc(Close(st), [here.value], more.value);
    }
  }

  // The record.

  lemma {:induction false} BlockNoMarks(lines: seq<string>)
    ensures forall j :: 0 <= j < |Block(lines)| ==> !ReadLine(Block(lines)[j]).Mark?
  {
    if lines != [] && !ReadLine(lines[0]).Mark? {
      BlockNoMarks(lines[1..]);
    }
  }

  lemma {:induction false} AllSetIff(slots: Slots, vals: seq<Value>)
    ensures AllSet(slots) == Some(vals) <==>
      |vals| == |slots| && forall i :: 0 <= i < |slots| ==> slots[i] == Some(vals[i])
  {
    if slots != [] {
      var rest := AllSet(slots[1..]);
      if |vals| > 0 {
        AllSetIff(slots[1..], vals[1..]);
        assert forall i :: 0 <= i < |slots[1..]| ==> slots[1..][i] == slots[i + 1];
        assert forall i :: 0 <= i < |vals[1..]| ==> vals[1..][i] == vals[i + 1];
        assert vals == [vals[0]] + vals[1..];
        assert forall i :: 0 < i < |slots| ==> slots[i] == slots[1..][i - 1];
        assert forall i :: 0 < i < |vals| ==> vals[i] == vals[1..][i - 1];
      }
    }
  }

  /** A block gives the values exactly when it reads as them. */
  lemma {:induction false} BlockIff(fields: seq<Field>, lines: seq<string>, vals: seq<Value>)
    requires FieldsOk(fields)
    ensures var r := Sweep(fields, Starts(fields), Block(lines));
      r.Some? && AllSet(r.value) == Some(vals) <==> BlockReads(fields, Block(lines), vals)
  {
    var b := Block(lines);
    BlockNoMarks(lines);
    SweepIff(fields, Starts(fields), b);
    var r := Sweep(fields, Starts(fields), b);
    if r.Some? {
      AllSetIff(r.value, vals);
      FilledIff(fields, b, r.value, vals);
    }
  }

  lemma {:induction false} FilledIff(fields: seq<Field>, block: seq<string>, slots: Slots, vals: seq<Value>)
    requires |slots| == |fields|
    requires forall i :: 0 <= i < |fields| ==> Swept(fields[i], Starts(fields)[i], block, slots[i])
    ensures Filled(fields, block, vals) <==>
      |vals| == |slots| && forall i :: 0 <= i < |slots| ==> slots[i] == Some(vals[i])
  {
    assert forall i :: 0 <= i < |fields| ==> Starts(fields)[i] == fields[i].start;
    forall i | 0 <= i < |fields| && |vals| == |fields|
      ensures FieldIs(fields[i], block, vals[i]) <==> slots[i] == Some(vals[i])
    {
      assert Swept(fields[i], Starts(fields)[i], block, slots[i]);
    }
  }

  lemma {:induction false} EventsSayStep(fields: seq<Field>, blocks: seq<seq<string>>, events: seq<seq<Value>>)
    requires blocks != []
    ensures EventsSay(fields, blocks, events) <==>
      events != [] && BlockReads(fields, blocks[0], events[0]) && EventsSay(fields, blocks[1..], events[1..])
  {
    if events != [] {
      assert forall k :: 0 <= k < |events[1..]| ==> events[1..][k] == events[k + 1];
      assert forall k :: 0 <= k < |blocks[1..]| ==> blocks[1..][k] == blocks[k + 1];
      if BlockReads(fields, blocks[0], events[0]) && EventsSay(fields, blocks[1..], events[1..]) {
        forall k | 0 <= k < |events| ensures BlockReads(fields, blocks[k], events[k]) {
          if k > 0 { assert BlockReads(fields, blocks[1..][k - 1], events[1..][k - 1]); }
        }
      }
    }
  }

  /** The events that the blocks give are those they read as. */
  lemma {:induction false} BlocksIff(fields: seq<Field>, lines: seq<string>, events: seq<seq<Value>>)
    requires FieldsOk(fields)
    ensures var r := SweepAll(fields, Blocks(lines));
      r.Some? && AllEvents(r.value) == Some(events) <==> EventsSay(fields, Blocks(lines), events)
    decreases |lines|
  {
    if lines != [] {
      if ReadLine(lines[0]).Mark? {
        var bs := Blocks(lines);
        assert bs[0] == Block(lines[1..]) && bs[1..] == Blocks(lines[1..]);
        EventsSayStep(fields, bs, events);
        if events != [] {
          BlockIff(fields, lines[1..], events[0]);
          BlocksIff(fields, lines[1..], events[1..]);
        }
        AllEventsStep(fields, bs, events);
      } else {
        BlocksIff(fields, lines[1..], events);
      }
    }
  }

  lemma {:induction false} AllEventsStep(fields: seq<Field>, blocks: seq<seq<string>>, events: seq<seq<Value>>)
    requires blocks != []
    ensures var r, first, rest :=
        SweepAll(fields, blocks), Sweep(fields, Starts(fields), blocks[0]), SweepAll(fields, blocks[1..]);
      r.Some? && AllEvents(r.value) == Some(events) <==>
        && events != [] && first.Some? && AllSet(first.value) == Some(events[0])
        && rest.Some? && AllEvents(rest.value) == Some(events[1..])
  {
    var first, rest := Sweep(fields, Starts(fields), blocks[0]), SweepAll(fields, blocks[1..]);
    if first.Some? && rest.Some? {
      assert ([first.value] + rest.value)[1..] == rest.value;
      if events != [] {
        assert events == [events[0]] + events[1..];
      }
    }
  }

  /**
    * Reading any text: it gives the record exactly when every line is blank, a comment, an event
    * mark or a known key with a value that parses, and every field is what its last line in its
    * block sets it to, or has the value it starts with.
    */
  lemma {:induction false} DecodeIff(schema: Schema, text: string, r: Record)
    requires SchemaOk(schema)
    ensures Decode(schema, text) == Some(r) <==> Says(schema, BreakLines(text), r)
  {
    var lines, st := BreakLines(text), Begin(schema);
    RunIs(schema, st, lines);
    BlockIff(schema.header, lines, r.header);
    BlocksIff(schema.event, lines, r.events);
    var here, more := Sweep(schema.header, Starts(schema.header), Block(lines)), SweepAll(schema.event, Blocks(lines));
    if here.Some? && more.Some? {
      assert [] + more.value == more.value;
    }
  }

  // What a block sets one key to.

  /** Other words that a severity may be given by. */
  predicate Alias(key: string, w: string, s: string) {
    key == "severity" && (w, s) in
      [("SEV1", "sev1"), ("1", "sev1"), ("SEV2", "sev2"), ("2", "sev2"),
       ("SEV3", "sev3"), ("3", "sev3"), ("SEV4", "sev4"), ("4", "sev4")]
  }

  /** The text behind the key gives the value, by the value's own form. */
  predicate Gives(key: string, text: string, v: Value) {
    match v
    case T(s) => (var w := ParseString(text); w.Some? && (w.value == s || Alias(key, w.value, s)))
    case N(n) => ParseNat(text, 0x1_0000_0000_0000_0000) == Some(n)
    case I(t) => ParseInt(text) == Some(t)
    case Ts(xs) => ParseStrings(text) == Some(xs)
    case Ns(xs) => ParseNumbers(text) == Some(xs)
    case Tb(t) => ParseTable(text) == Some(t)
  }

  /** The value of a key that no line sets. */
  predicate Unset(key: string, v: Value) {
    v == T("") || v == I(0) || v == Ts([]) || v == Ns([]) || v == Tb([]) || (key == "kind" && v == T("comment"))
  }

  /** The key has the value: the last line that sets it gives it, or none does and it is the
      value of an unset key. */
  predicate Tells(block: seq<string>, pair: (string, Value)) {
    if LastVal(block, pair.0).Some? then Gives(pair.0, LastVal(block, pair.0).value, pair.1) else Unset(pair.0, pair.1)
  }

  predicate TellsAll(block: seq<string>, pairs: seq<(string, Value)>) {
    forall k :: 0 <= k < |pairs| ==> Tells(block, pairs[k])
  }

  // Fields that are read that way.

  ghost predicate PlainWords(key: string, words: seq<(string, string)>) {
    forall w, s :: Lookup(words, w) == Some(s) <==> Lookup(words, s) == Some(s) && (w == s || Alias(key, w, s))
  }

  ghost predicate PlainField(f: Field) {
    match f.kind
    case Text => f.start == Some(T("")) && f.key != "kind" && f.key != "severity"
    case Choice(words) =>
      && PlainWords(f.key, words) && Lookup(words, "").None?
      && (if f.key == "kind" && Lookup(words, "comment").Some? then f.start == Some(T("comment")) else f.start == None)
    case Version(n) => f.start == None && n < U32_BOUND
    case Number => f.start == None
    case Stamp => f.start == Some(I(0))
    case Texts => f.start == Some(Ts([]))
    case Numbers => f.start == Some(Ns([]))
    case Fields => f.start == Some(Tb([]))
  }

  lemma {:induction false} NumbersBounded(pieces: seq<string>)
    requires NumbersOf(pieces).Some?
    ensures forall i :: 0 <= i < |NumbersOf(pieces).value| ==> InU64(NumbersOf(pieces).value[i])
  {
    if pieces != [] {
      NumbersBounded(pieces[1..]);
    }
  }

  lemma {:induction false} ParsedNumbersFit(text: string)
    requires ParseNumbers(text).Some?
    ensures forall i :: 0 <= i < |ParseNumbers(text).value| ==> InU64(ParseNumbers(text).value[i])
  {
    var s := Trim(text);
    if s != ['[', ']'] {
      NumbersBounded(SplitCommas(s[1..|s| - 1]));
    }
  }

  lemma {:induction false} BeforeTotal(a: string, b: string)
    ensures a == b || Before(a, b) || Before(b, a)
  {
    if a != [] && b != [] && a[0] == b[0] {
      BeforeTotal(a[1..], b[1..]);
      assert a == [a[0]] + a[1..] && b == [b[0]] + b[1..];
    }
  }

  lemma {:induction false} BeforeTransitive(a: string, b: string, c: string)
    requires Before(a, b) && Before(b, c)
    ensures Before(a, c)
  {
    if a != [] && a[0] == b[0] == c[0] {
      BeforeTransitive(a[1..], b[1..], c[1..]);
    }
  }

  lemma {:induction false} OrderedCons(e: (string, string), t: Table)
    requires Ordered(t) && (t == [] || Before(e.0, t[0].0))
    ensures Ordered([e] + t)
  {
    var u := [e] + t;
    forall i, j | 0 <= i < j < |u| ensures Before(u[i].0, u[j].0) {
      if i == 0 && j > 1 {
        assert Before(t[0].0, t[j - 1].0);
        BeforeTransitive(e.0, t[0].0, u[j].0);
      }
    }
  }

  lemma {:induction false} OrderedTail(t: Table)
    requires Ordered(t) && t != []
    ensures Ordered(t[1..]) && (|t| > 1 ==> Before(t[0].0, t[1].0))
  {
    assert forall i :: 0 <= i < |t[1..]| ==> t[1..][i] == t[i + 1];
  }

  /** Setting a key keeps the table in order. */
  lemma {:induction false} InsertOrdered(t: Table, k: string, v: string)
    requires Ordered(t)
    ensures Ordered(Insert(t, k, v)) && Insert(t, k, v) != []
    ensures Insert(t, k, v)[0].0 == k || (t != [] && Insert(t, k, v)[0].0 == t[0].0)
  {
    if t != [] {
      OrderedTail(t);
      if t[0].0 == k {
        OrderedCons((k, v), t[1..]);
      } else if Before(k, t[0].0) {
        OrderedCons((k, v), t);
      } else {
        BeforeTotal(k, t[0].0);
        InsertOrdered(t[1..], k, v);
        OrderedCons(t[0], Insert(t[1..], k, v));
      }
    }
  }

  lemma {:induction false} InsertAllOrdered(es: seq<(string, string)>, t: Table)
    requires Ordered(t)
    ensures Ordered(InsertAll(es, t))
    decreases |es|
  {
    if es != [] {
      InsertOrdered(t, es[0].0, es[0].1);
      InsertAllOrdered(es[1..], Insert(t, es[0].0, es[0].1));
    }
  }

  /** A table that is read is in key order. */
  lemma {:induction false} ParsedTableOrdered(text: string)
    requires ParseTable(text).Some?
    ensures Ordered(ParseTable(text).value)
  {
    var s := Trim(text);
    if s != ['{', '}'] {
      InsertAllOrdered(AllEntries(Cut(s[1..|s| - 1], [], Outside, true)).value, []);
    }
  }

  /** What is parsed can be held, and is what the text gives. */
  lemma {:induction false} ParseIff(key: string, kind: Kind, text: string, v: Value)
    requires kind.Choice? ==> PlainWords(key, kind.words)
    requires (kind.Version? ==> kind.number < U32_BOUND) && (kind.Text? ==> key != "severity")
    ensures Parse(kind, text) == Some(v) <==> Holds(kind, v) && Gives(key, text, v)
  {
    if kind.Numbers? && ParseNumbers(text).Some? { ParsedNumbersFit(text); }
    if kind.Fields? && ParseTable(text).Some? { ParsedTableOrdered(text); }
    if kind.Choice? && v.T? && ParseString(text).Some? {
      var w := ParseString(text).value;
      assert Lookup(kind.words, w) == Some(v.text) <==>
        Lookup(kind.words, v.text) == Some(v.text) && (w == v.text || Alias(key, w, v.text));
    }
  }

  lemma {:induction false} FieldIff(f: Field, block: seq<string>, v: Value)
    requires PlainField(f)
    ensures FieldIs(f, block, v) <==> Holds(f.kind, v) && Tells(block, (f.key, v))
  {
    if LastVal(block, f.key).Some? {
      ParseIff(f.key, f.kind, LastVal(block, f.key).value, v);
    } else {
      StartIff(f, v);
    }
  }

  lemma {:induction false} StartIff(f: Field, v: Value)
    requires PlainField(f)
    ensures f.start == Some(v) <==> Holds(f.kind, v) && Unset(f.key, v)
  {
  }

  ghost predicate PlainFields(fields: seq<Field>) { forall i :: 0 <= i < |fields| ==> PlainField(fields[i]) }

  /** A block fills the fields with values that they can hold and that it tells. */
  lemma {:induction false} ToldIff(fields: seq<Field>, block: seq<string>, vals: seq<Value>, pairs: seq<(string, Value)>)
    requires PlainFields(fields) && PairsOf(fields, vals, pairs)
    ensures Filled(fields, block, vals) <==> Fill(fields, vals) && TellsAll(block, pairs)
  {
    forall i | 0 <= i < |fields|
      ensures FieldIs(fields[i], block, vals[i]) <==> Holds(fields[i].kind, vals[i]) && Tells(block, pairs[i])
    {
      FieldIff(fields[i], block, vals[i]);
    }
  }

  /** Filled fields hold their values. */
  lemma {:induction false} FilledHolds(fields: seq<Field>, block: seq<string>, vals: seq<Value>)
    requires PlainFields(fields) && Filled(fields, block, vals)
    ensures Fill(fields, vals)
  {
    forall i | 0 <= i < |fields| ensures Holds(fields[i].kind, vals[i]) {
      FieldIff(fields[i], block, vals[i]);
    }
  }

  /** The events that the blocks tell. */
  ghost predicate LogTold(blocks: seq<seq<string>>, log: seq<seq<(string, Value)>>) {
    |log| == |blocks| && forall i :: 0 <= i < |log| ==> TellsAll(blocks[i], log[i])
  }

  ghost predicate AllLawful(fields: seq<Field>, blocks: seq<seq<string>>) {
    forall i :: 0 <= i < |blocks| ==> Lawful(fields, blocks[i])
  }

  /** A text, line by line: every key is known and its value parses, the header's lines tell the
      header, and each event's lines tell that event. */
  ghost predicate Tale(schema: Schema, text: string, header: seq<(string, Value)>, log: seq<seq<(string, Value)>>) {
    var lines := BreakLines(text);
    && Lawful(schema.header, Block(lines)) && AllLawful(schema.event, Blocks(lines))
    && TellsAll(Block(lines), header) && LogTold(Blocks(lines), log)
  }

  lemma {:induction false} TaleIff(schema: Schema, text: string, r: Record, header: seq<(string, Value)>,
                                   log: seq<seq<(string, Value)>>)
    requires SchemaOk(schema) && PlainFields(schema.header) && PlainFields(schema.event)
    requires PairsOf(schema.header, r.header, header) && AllPairsOf(schema.event, r.events, log)
    ensures Decode(schema, text) == Some(r) <==> Fits(schema, r) && Tale(schema, text, header, log)
  {
    var lines := BreakLines(text);
    DecodeIff(schema, text, r);
    ToldIff(schema.header, Block(lines), r.header, header);
    forall i | 0 <= i < |r.events| && i < |Blocks(lines)|
      ensures Filled(schema.event, Blocks(lines)[i], r.events[i]) <==>
        Fill(schema.event, r.events[i]) && TellsAll(Blocks(lines)[i], log[i])
    {
      ToldIff(schema.event, Blocks(lines)[i], r.events[i], log[i]);
    }
  }

  /** What is read fits. */
  lemma {:induction false} DecodeFits(schema: Schema, text: string)
    requires SchemaOk(schema) && PlainFields(schema.header) && PlainFields(schema.event)
    requires Decode(schema, text).Some?
    ensures Fits(schema, Decode(schema, text).value)
  {
    var r, lines := Decode(schema, text).value, BreakLines(text);
    DecodeIff(schema, text, r);
    FilledHolds(schema.header, Block(lines), r.header);
    forall i | 0 <= i < |r.events| ensures Fill(schema.event, r.events[i]) {
      assert BlockReads(schema.event, Blocks(lines)[i], r.events[i]);
      FilledHolds(schema.event, Blocks(lines)[i], r.events[i]);
    }
  }

  // Words without another spelling.

  lemma {:induction false} LookupSame(words: seq<(string, string)>, w: string)
    requires forall i :: 0 <= i < |words| ==> words[i].0 == words[i].1
    ensures Lookup(words, w) == None || Lookup(words, w) == Some(w)
  {
    if words != [] {
      assert forall i :: 0 <= i < |words[1..]| ==> words[1..][i] == words[i + 1];
      LookupSame(words[1..], w);
    }
  }

  lemma {:induction false} SameWords(key: string, words: seq<(string, string)>)
    requires key != "severity" && forall i :: 0 <= i < |words| ==> words[i].0 == words[i].1
    ensures PlainWords(key, words)
  {
    forall w ensures Lookup(words, w) == None || Lookup(words, w) == Some(w) {
      LookupSame(words, w);
    }
  }

  lemma {:induction false} LookupIn(words: seq<(string, string)>, w: string)
    requires Lookup(words, w).Some?
    ensures exists i :: 0 <= i < |words| && words[i].0 == w
  {
    if words[0].0 != w {
      LookupIn(words[1..], w);
      var i :| 0 <= i < |words[1..]| && words[1..][i].0 == w;
      assert words[i + 1].0 == w;
    }
  }

  lemma {:induction false} ChoicePlain(f: Field, key: string, words: seq<(string, string)>)
    requires f == Field(key, Choice(words), None) && PlainWords(key, words) && key != "kind"
    requires Lookup(words, "").None?
    ensures PlainField(f)
  {
  }

  lemma {:induction false} NoEmptyWord(words: seq<(string, string)>)
    requires forall i :: 0 <= i < |words| ==> words[i].0 != ""
    ensures Lookup(words, "").None?
  {
    if Lookup(words, "").Some? {
      LookupIn(words, "");
    }
  }

  /** A field's value has the field's form. */
  predicate Shaped(kind: Kind, v: Value) {
    match kind
    case Text => v == T(TextOf(v))
    case Choice(words) => v == T(TextOf(v))
    case Version(n) => v == N(n)
    case Number => v == N(CountOf(v))
    case Stamp => v == I(TimeOf(v))
    case Texts => v == Ts(TextsOf(v))
    case Numbers => v == Ns(CountsOf(v))
    case Fields => v.Tb?
  }

  lemma {:induction false} HeldShaped(fields: seq<Field>, vals: seq<Value>)
    requires Fill(fields, vals)
    ensures forall i :: 0 <= i < |fields| ==> Shaped(fields[i].kind, vals[i])
  {
    forall i | 0 <= i < |fields| ensures Shaped(fields[i].kind, vals[i]) {
      assert Holds(fields[i].kind, vals[i]);
    }
  }

  /** A key whose last line quotes a readable text has that text. */
  lemma {:induction false} QuotedTold(shown: Shown, block: seq<string>, key: string, s: string, t: string)
    requires AllReadable(shown, s) && LastVal(block, key) == Some(Str(shown, s)) && key != "severity"
    requires Tells(block, (key, T(t)))
    ensures t == s
  {
    StrIs(shown, s);
    StringRoundTrip(shown, s);
  }
}
