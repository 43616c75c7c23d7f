/** Inline tables of strings in an incident blob, kept in key order. */
module TicketTables {
  import opened Bytes
  import opened TicketText
  import opened TicketLists

  type Table = seq<(string, string)>

  /** The order of keys: by code points, as their encoded bytes compare. */
  predicate Before(a: string, b: string) {
    if a == [] then b != []
    else b != [] && (a[0] < b[0] || (a[0] == b[0] && Before(a[1..], b[1..])))
  }

  ghost predicate Ordered(t: Table) { forall i, j :: 0 <= i < j < |t| ==> Before(t[i].0, t[j].0) }

  /** Setting a key in the ordered table. */
  function Insert(t: Table, k: string, v: string): Table {
    if t == [] then [(k, v)]
    else if t[0].0 == k then [(k, v)] + t[1..]
    else if Before(k, t[0].0) then [(k, v)] + t
    else [t[0]] + Insert(t[1..], k, v)
  }

  lemma {:induction false} BeforeAsymmetric(a: string, b: string)
    requires Before(a, b)
    ensures a != b && !Before(b, a)
  {
    if a != [] && a[0] == b[0] {
      BeforeAsymmetric(a[1..], b[1..]);
    }
  }

  lemma {:induction false} InsertLast(t: Table, k: string, v: string)
    requires forall i :: 0 <= i < |t| ==> Before(t[i].0, k)
    ensures Insert(t, k, v) == t + [(k, v)]
  {
    if t != [] {
      BeforeAsymmetric(t[0].0, k);
      InsertLast(t[1..], k, v);
      assert [t[0]] + (t[1..] + [(k, v)]) == t + [(k, v)];
    }
  }

  // Printing.

  const EQUALS: string := [' ', '=', ' ']

  function Entry(shown: Shown, k: string, v: string): string { Quote(shown, k) + (EQUALS + Quote(shown, v)) }

  function Entries(shown: Shown, t: Table): (parts: seq<string>)
    ensures |parts| == |t|
  {
    if t == [] then [] else [Entry(shown, t[0].0, t[0].1)] + Entries(shown, t[1..])
  }

  function PrintTable(shown: Shown, t: Table): string {
    if t == [] then ['{', '}'] else ['{'] + (([' '] + (Join(Entries(shown, t)) + [' '])) + ['}'])
  }

  // Parsing.

  /** One entry, cut at its first equals sign. */
  function EntryOf(piece: string): Option<(string, string)> {
    var f := FirstOf(piece, '=');
    if f == |piece| then None
    else
      Pair(ParseString(piece[..f]), ParseString(piece[f + 1..]))
  }

  function Pair(k: Option<string>, v: Option<string>): Option<(string, string)> {
    if k.None? || v.None? then None else Some((k.value, v.value))
  }

  function AllEntries(pieces: seq<string>): Option<Table> {
    if pieces == [] then Some([])
    else
      var e, rest := EntryOf(pieces[0]), AllEntries(pieces[1..]);
      if e.None? || rest.None? then None else Some([e.value] + rest.value)
  }

  /** The pairs set one after the other. */
  function InsertAll(es: seq<(string, string)>, t: Table): Table {
    if es == [] then t else InsertAll(es[1..], Insert(t, es[0].0, es[0].1))
  }

  function ParseTable(text: string): Option<Table> {
    var s := Trim(text);
    if s == ['{', '}'] then Some([])
    else if !Bracketed(s, '{', '}') then None
    else
      Settled(AllEntries(Cut(s[1..|s| - 1], [], Outside, true)), [])
  }

  // Cutting a printed table.

  lemma {:induction false} CutPast(c: char, rest: string, buf: string)
    requires c != '\"' && c != ','
    ensures Cut([c] + rest, buf, Outside, true) == Cut(rest, buf + [c], Outside, true)
  {
    assert ([c] + rest)[1..] == rest;
  }

  lemma {:induction false} CutEquals(rest: string, buf: string)
    ensures Cut(EQUALS + rest, buf, Outside, true) == Cut(rest, buf + EQUALS, Outside, true)
  {
    assert EQUALS + rest == [' '] + (['='] + ([' '] + rest));
    CutPast(' ', ['='] + ([' '] + rest), buf);
    CutPast('=', [' '] + rest, buf + [' ']);
    CutPast(' ', rest, buf + [' '] + ['=']);
    assert buf + [' '] + ['='] + [' '] == buf + EQUALS;
  }

  lemma {:induction false} CutEntry(shown: Shown, k: string, v: string, rest: string, buf: string)
    ensures Cut(Entry(shown, k, v) + rest, buf, Outside, true) == Cut(rest, buf + Entry(shown, k, v), Outside, true)
  {
    var p, q := Quote(shown, k), Quote(shown, v);
    assert Entry(shown, k, v) + rest == p + (EQUALS + (q + rest));
    CutQuote(shown, k, EQUALS + (q + rest), buf, true);
    CutEquals(q + rest, buf + p);
    CutQuote(shown, v, rest, buf + p + EQUALS, true);
    assert buf + p + EQUALS + q == buf + (p + (EQUALS + q));
  }

  lemma {:induction false} EntryTight(shown: Shown, k: string, v: string)
    ensures Tight(Entry(shown, k, v))
  {
    QuoteTight(shown, k);
    QuoteTight(shown, v);
  }

  lemma {:induction false} CutTableComma(e: string, tail: string)
    requires Tight(e)
    ensures Cut([','] + ([' '] + tail), [' '] + e, Outside, true) == [e] + Cut(tail, [' '], Outside, true)
    ensures Cut([' '], [' '] + e, Outside, true) == [e]
  {
    TrimTight([' '], e, []);
    assert [' '] + e + [] == [' '] + e;
    assert ([','] + ([' '] + tail))[1..] == [' '] + tail;
    CutPast(' ', tail, []);
    assert [] + [' '] == [' '];
    TrimTight([' '], e, [' ']);
    CutPast(' ', [], [' '] + e);
    assert [' '] + [] == [' '];
  }

  lemma {:induction false} CutEntries(shown: Shown, t: Table)
    requires t != []
    ensures Cut(Join(Entries(shown, t)) + [' '], [' '], Outside, true) == Entries(shown, t)
  {
    var e := Entry(shown, t[0].0, t[0].1);
    EntryTight(shown, t[0].0, t[0].1);
    assert Entries(shown, t)[1..] == Entries(shown, t[1..]);
    if |t| == 1 {
      CutEntry(shown, t[0].0, t[0].1, [' '], [' ']);
      CutTableComma(e, []);
      assert Entries(shown, t[1..]) == [];
    } else {
      var tail := Join(Entries(shown, t[1..])) + [' '];
      JoinEntries(shown, t);
      CutEntry(shown, t[0].0, t[0].1, [','] + ([' '] + tail), [' ']);
      CutTableComma(e, tail);
      CutEntries(shown, t[1..]);
    }
  }

  lemma {:induction false} JoinEntries(shown: Shown, t: Table)
    requires |t| > 1
    ensures Join(Entries(shown, t)) + [' ']
         == Entry(shown, t[0].0, t[0].1) + ([','] + ([' '] + (Join(Entries(shown, t[1..])) + [' '])))
  {
    assert Entries(shown, t)[1..] == Entries(shown, t[1..]);
    CommaSpace(Entry(shown, t[0].0, t[0].1), Join(Entries(shown, t[1..])));
  }

  lemma {:induction false} CommaSpace(e: string, tail: string)
    ensures e + ([',', ' '] + tail) + [' '] == e + ([','] + ([' '] + (tail + [' '])))
  {
  }

  // Reading an entry back.

  lemma {:induction false} EscapedNoEquals(shown: Shown, s: string)
    requires forall i :: 0 <= i < |s| ==> s[i] != '='
    ensures forall i :: 0 <= i < |Escaped(shown, s)| ==> Escaped(shown, s)[i] != '='
  {
    if s != [] {
      EscapedNoEquals(shown, s[1..]);
      HexNoEquals(s[0] as int);
    }
  }

  lemma {:induction false} HexNoEquals(n: nat)
    ensures forall i :: 0 <= i < |Hex(n)| ==> Hex(n)[i] != '=' && Hex(n)[i] != '\"'
  {
    if n >= 16 {
      HexNoEquals(n / 16);
    }
  }

  predicate Keyable(k: string) { forall i :: 0 <= i < |k| ==> k[i] != '=' }

  lemma {:induction false} EntryParts(w: string, u: string, v: string)
    requires w == u + (['='] + v) && Keyable(u)
    ensures EntryOf(w) == Pair(ParseString(u), ParseString(v))
  {
    assert forall i :: 0 <= i < |u| ==> w[i] == u[i];
    assert w[|u|] == '=';
    assert FirstOf(w, '=') == |u|;
    assert w[..|u|] == u && w[|u| + 1..] == v;
  }

  lemma {:induction false} SpacedParse(shown: Shown, s: string)
    ensures ParseString(Quote(shown, s) + [' ']) == if AllReadable(shown, s) then Some(s) else None
    ensures ParseString([' '] + Quote(shown, s)) == if AllReadable(shown, s) then Some(s) else None
  {
    var q := Quote(shown, s);
    QuoteTight(shown, s);
    TrimSpaced(q);
    TrimAlone(q);
    ParseTrims(q + [' '], q);
    ParseTrims([' '] + q, q);
    StringRoundTrip(shown, s);
  }

  lemma {:induction false} TrimSpaced(q: string)
    requires Tight(q)
    ensures Trim(q + [' ']) == q && Trim([' '] + q) == q
  {
    TrimTight([], q, [' ']);
    assert [] + q + [' '] == q + [' '];
    TrimTight([' '], q, []);
    assert [' '] + q + [] == [' '] + q;
  }

  /** Blanks around a string do not change how it reads. */
  lemma {:induction false} ParseTrims(u: string, v: string)
    requires Trim(u) == Trim(v)
    ensures ParseString(u) == ParseString(v)
  {
  }

  lemma {:induction false} QuoteNoEquals(shown: Shown, k: string)
    requires Keyable(k)
    ensures Keyable(Quote(shown, k) + [' '])
  {
    EscapedNoEquals(shown, k);
  }

  lemma {:induction false} EntryReads(shown: Shown, k: string, v: string)
    requires Keyable(k)
    ensures EntryOf(Entry(shown, k, v))
         == if AllReadable(shown, k) && AllReadable(shown, v) then Some((k, v)) else None
  {
    var p, q := Quote(shown, k), Quote(shown, v);
    QuoteNoEquals(shown, k);
    SpacedParse(shown, k);
    SpacedParse(shown, v);
    SpreadEquals(p, q);
    EntryPair(Entry(shown, k, v), p + [' '], [' '] + q,
              if AllReadable(shown, k) then Some(k) else None, if AllReadable(shown, v) then Some(v) else None);
  }

  lemma {:induction false} SpreadEquals(p: string, q: string)
    ensures p + (EQUALS + q) == (p + [' ']) + (['='] + ([' '] + q))
  {
  }

  lemma {:induction false} EntryPair(w: string, u: string, v: string, a: Option<string>, b: Option<string>)
    requires w == u + (['='] + v) && Keyable(u) && ParseString(u) == a && ParseString(v) == b
    ensures EntryOf(w) == Pair(a, b)
  {
    EntryParts(w, u, v);
  }

  lemma {:induction false} TrimEndPrefix(s: string)
    ensures |TrimEnd(s)| <= |s| && TrimEnd(s) == s[..|TrimEnd(s)|]
  {
    if s != [] && White(s[|s| - 1]) {
      TrimEndPrefix(s[..|s| - 1]);
    } else {
      assert s[..|s|] == s;
    }
  }

  /** Cut short before an escaped quote, a text ends in a lone backslash. */
  lemma {:induction false} CutBeforeQuote(shown: Shown, s: string, n: nat)
    requires n < |Escaped(shown, s)| && Escaped(shown, s)[n] == '\"'
    ensures Unescape(Escaped(shown, s)[..n]) == None
  {
    var e, rest := EscapeChar(shown, s[0]), Escaped(shown, s[1..]);
    HexNoEquals(s[0] as int);
    if n < |e| {
      assert e[n] == '\"';
      assert n == 1 && (e + rest)[..1] == ['\\'];
    } else {
      assert rest[n - |e|] == '\"';
      CutBeforeQuote(shown, s[1..], n - |e|);
      assert (e + rest)[..n] == e + rest[..n - |e|];
      UnescapeChar(shown, s[0], rest[..n - |e|]);
    }
  }

  /** The opening of a quoted text, cut before its end, does not parse. */
  lemma {:induction false} OpeningFails(shown: Shown, s: string)
    ensures ParseString(['\"'] + Escaped(shown, s)) == None
  {
    var e := Escaped(shown, s);
    var w := ['\"'] + e;
    assert TrimStart(w) == w;
    TrimEndPrefix(w);
    OpeningCut(shown, s, TrimEnd(w));
  }

  lemma {:induction false} OpeningCut(shown: Shown, s: string, u: string)
    requires u <= ['\"'] + Escaped(shown, s)
    ensures Quoted(u) ==> Unescape(u[1..|u| - 1]) == None
  {
    var e := Escaped(shown, s);
    if Quoted(u) {
      assert u[|u| - 1] == e[|u| - 2];
      assert u[1..|u| - 1] == e[..|u| - 2];
      CutBeforeQuote(shown, s, |u| - 2);
    }
  }

  lemma {:induction false} TrimStartStops(s: string)
    ensures TrimStart(s) == [] || !White(TrimStart(s)[0])
  {
    if s != [] && White(s[0]) {
      TrimStartStops(s[1..]);
    }
  }

  lemma {:induction false} TrimEndStops(s: string)
    ensures TrimEnd(TrimEnd(s)) == TrimEnd(s)
  {
    if s != [] && White(s[|s| - 1]) {
      TrimEndStops(s[..|s| - 1]);
    }
  }

  lemma {:induction false} TrimTwice(s: string)
    ensures Trim(Trim(s)) == Trim(s)
  {
    var t := TrimStart(s);
    TrimStartStops(s);
    TrimEndPrefix(t);
    TrimEndStops(t);
    var u := TrimEnd(t);
    assert u != [] ==> u[0] == t[0];
    assert TrimStart(u) == u;
  }

  lemma {:induction false} EscapedAppend(shown: Shown, a: string, b: string)
    ensures Escaped(shown, a + b) == Escaped(shown, a) + Escaped(shown, b)
  {
    if a == [] {
      assert a + b == b && Escaped(shown, a) + Escaped(shown, b) == Escaped(shown, b);
    } else {
      Uncons(a, b);
      EscapedAppend(shown, a[1..], b);
      Assoc(EscapeChar(shown, a[0]), Escaped(shown, a[1..]), Escaped(shown, b));
    }
  }

  lemma {:induction false} EscapedAtEquals(shown: Shown, k: string)
    requires !Keyable(k)
    ensures var f := FirstOf(k, '=');
            f < |k| && Escaped(shown, k) == Escaped(shown, k[..f]) + (['='] + Escaped(shown, k[f + 1..]))
  {
    var f := FirstOf(k, '=');
    assert k == k[..f] + (['='] + k[f + 1..]);
    EscapedAround(shown, k[..f], k[f + 1..]);
  }

  lemma {:induction false} EscapedAround(shown: Shown, a: string, b: string)
    ensures Escaped(shown, a + (['='] + b)) == Escaped(shown, a) + (['='] + Escaped(shown, b))
  {
    EscapedAppend(shown, a, ['='] + b);
    assert (['='] + b)[1..] == b;
  }

  lemma {:induction false} Regroup(a: string, b: string, tail: string)
    ensures (['\"'] + ((a + (['='] + b)) + ['\"'])) + tail == (['\"'] + a) + (['='] + (b + (['\"'] + tail)))
  {
  }

  lemma {:induction false} EntryFails(w: string, u: string, v: string)
    requires w == u + (['='] + v) && Keyable(u) && ParseString(u) == None
    ensures EntryOf(w) == None
  {
    EntryParts(w, u, v);
  }

  /** An entry whose key holds an equals sign, seen from that sign. */
  lemma {:induction false} EntryAtSign(shown: Shown, k: string, v: string)
    requires !Keyable(k)
    ensures var f := FirstOf(k, '=');
            f < |k| && Entry(shown, k, v)
            == (['\"'] + Escaped(shown, k[..f]))
               + (['='] + (Escaped(shown, k[f + 1..]) + (['\"'] + (EQUALS + Quote(shown, v)))))
  {
    EscapedAtEquals(shown, k);
    var f := FirstOf(k, '=');
    EntryAround(shown, k, v, Escaped(shown, k[..f]), Escaped(shown, k[f + 1..]));
  }

  lemma {:induction false} EntryAround(shown: Shown, k: string, v: string, a: string, b: string)
    requires Escaped(shown, k) == a + (['='] + b)
    ensures Entry(shown, k, v) == (['\"'] + a) + (['='] + (b + (['\"'] + (EQUALS + Quote(shown, v)))))
  {
    Regroup(a, b, EQUALS + Quote(shown, v));
  }

  lemma {:induction false} OpeningKeyable(shown: Shown, s: string)
    requires Keyable(s)
    ensures Keyable(['\"'] + Escaped(shown, s))
  {
    EscapedNoEquals(shown, s);
  }

  /** An entry whose key holds an equals sign is cut inside the key and refused. */
  lemma {:induction false} EntryRefused(shown: Shown, k: string, v: string)
    requires !Keyable(k)
    ensures EntryOf(Entry(shown, k, v)) == None
  {
    EntryAtSign(shown, k, v);
    var f := FirstOf(k, '=');
    var u := ['\"'] + Escaped(shown, k[..f]);
    OpeningKeyable(shown, k[..f]);
    OpeningFails(shown, k[..f]);
    EntryFails(Entry(shown, k, v), u, Escaped(shown, k[f + 1..]) + (['\"'] + (EQUALS + Quote(shown, v))));
  }

  // Whole tables.

  predicate EntryReadable(shown: Shown, e: (string, string)) {
    Keyable(e.0) && AllReadable(shown, e.0) && AllReadable(shown, e.1)
  }

  ghost predicate TableReadable(shown: Shown, t: Table) {
    forall i :: 0 <= i < |t| ==> EntryReadable(shown, t[i])
  }

  lemma {:induction false} EntryRoundTrip(shown: Shown, k: string, v: string)
    ensures EntryOf(Entry(shown, k, v)) == if EntryReadable(shown, (k, v)) then Some((k, v)) else None
  {
    if Keyable(k) {
      EntryReads(shown, k, v);
    } else {
      EntryRefused(shown, k, v);
    }
  }

  ghost predicate ReadsAs(shown: Shown, piece: string, e: (string, string)) {
    EntryOf(piece) == if EntryReadable(shown, e) then Some(e) else None
  }

  lemma {:induction false} EntryIndex(shown: Shown, t: Table, i: nat)
    requires i < |t|
    ensures Entries(shown, t)[i] == Entry(shown, t[i].0, t[i].1)
  {
    if i > 0 {
      EntryIndex(shown, t[1..], i - 1);
    }
  }

  lemma {:induction false} EntryAt(shown: Shown, t: Table, i: nat)
    requires i < |t|
    ensures ReadsAs(shown, Entries(shown, t)[i], t[i])
  {
    EntryIndex(shown, t, i);
    EntryRoundTrip(shown, t[i].0, t[i].1);
  }

  lemma {:induction false} EntriesRead(shown: Shown, pieces: seq<string>, t: Table)
    requires |pieces| == |t| && forall i :: 0 <= i < |t| ==> ReadsAs(shown, pieces[i], t[i])
    ensures AllEntries(pieces) == if TableReadable(shown, t) then Some(t) else None
  {
    if t != [] {
      assert ReadsAs(shown, pieces[0], t[0]);
      assert forall i :: 0 <= i < |t[1..]| ==> t[1..][i] == t[i + 1] && pieces[1..][i] == pieces[i + 1];
      EntriesRead(shown, pieces[1..], t[1..]);
      TableHead(shown, t);
      assert [t[0]] + t[1..] == t;
    }
  }

  lemma {:induction false} InsertInOrder(done: Table, t: Table)
    requires Ordered(done + t)
    ensures InsertAll(t, done) == done + t
    decreases |t|
  {
    if t == [] {
      assert done + t == done;
    } else {
      OrderedLast(done, t);
      InsertLast(done, t[0].0, t[0].1);
      assert done + [t[0]] + t[1..] == done + t;
      InsertInOrder(done + [t[0]], t[1..]);
    }
  }

  lemma {:induction false} OrderedLast(done: Table, t: Table)
    requires Ordered(done + t) && t != []
    ensures forall i :: 0 <= i < |done| ==> Before(done[i].0, t[0].0)
  {
    assert (done + t)[|done|] == t[0];
    assert forall i :: 0 <= i < |done| ==> (done + t)[i] == done[i];
  }

  lemma {:induction false} TableHead(shown: Shown, t: Table)
    requires t != []
    ensures TableReadable(shown, t) <==> EntryReadable(shown, t[0]) && TableReadable(shown, t[1..])
  {
    assert forall i :: 0 <= i < |t[1..]| ==> t[1..][i] == t[i + 1];
    if EntryReadable(shown, t[0]) && TableReadable(shown, t[1..]) {
      forall i | 0 <= i < |t| ensures EntryReadable(shown, t[i]) {
        if i > 0 {
          assert t[i] == t[1..][i - 1];
        }
      }
    }
  }

  lemma {:induction false} ParseTableBody(body: string)
    requires body != []
    ensures var s := ['{'] + (([' '] + body) + ['}']);
            Tight(s) && ParseTable(s) == Settled(AllEntries(Cut(body, [' '], Outside, true)), [])
  {
    PrintTight([' '] + body, '{', '}');
    CutPast(' ', body, []);
    assert [] + [' '] == [' '];
  }

  /** A table reads back as itself exactly when its texts are readable and its keys hold no equals sign. */
  lemma {:induction false} TableRoundTrip(shown: Shown, t: Table)
    requires Ordered(t)
    ensures ParseTable(PrintTable(shown, t)) == if TableReadable(shown, t) then Some(t) else None
    ensures Tight(PrintTable(shown, t))
  {
    if t == [] {
      TrimAlone(['{', '}']);
    } else {
      var body := Join(Entries(shown, t)) + [' '];
      ParseTableBody(body);
      CutEntries(shown, t);
      assert [] + t == t;
      InsertInOrder([], t);
      forall i | 0 <= i < |t| ensures ReadsAs(shown, Entries(shown, t)[i], t[i]) {
        EntryAt(shown, t, i);
      }
      EntriesRead(shown, Entries(shown, t), t);
    }
  }

  /** The loop that cuts a table at its commas. */
  method CutPieces(inner: string) returns (entries: seq<string>)
    ensures entries == Cut(inner, [], Outside, true)
  {
    entries := [];
    var buf: string := [];
    var inStr, escape := false, false;
    assert inner[0..] == inner;
    ghost var all := Cut(inner, [], Outside, true);
    for i := 0 to |inner|
      invariant escape ==> inStr
      invariant all == entries + Cut(inner[i..], buf, ModeOf(inStr, escape), true)
    {
      var c := inner[i];
      assert inner[i..][1..] == inner[i + 1..];
      if escape {
        buf := buf + [c];
        escape := false;
      } else if inStr {
        buf := buf + [c];
        if c == '\\' {
          escape := true;
        } else if c == '\"' {
          inStr := false;
        }
      } else if c == '\"' {
        buf := buf + [c];
        inStr := true;
      } else if c == ',' {
        ghost var rest := Cut(inner[i + 1..], [], Outside, true);
        if Trim(buf) != [] {
          assert entries + ([Trim(buf)] + rest) == entries + [Trim(buf)] + rest;
          entries := entries + [Trim(buf)];
        } else {
          assert [] + rest == rest;
        }
        buf := [];
      } else {
        buf := buf + [c];
      }
    }
    assert inner[|inner|..] == [];
    if Trim(buf) != [] {
      entries := entries + [Trim(buf)];
    } else {
      assert entries + [] == entries;
    }
  }

  method ReadEntry(ent: string) returns (r: Option<(string, string)>)
    ensures r == EntryOf(ent)
  {
    var f := FirstOf(ent, '=');
    if f == |ent| {
      return None;
    }
    TrimTwice(ent[..f]);
    TrimTwice(ent[f + 1..]);
    var key := ReadString(Trim(ent[..f]));
    if key.None? {
      return None;
    }
    var val := ReadString(Trim(ent[f + 1..]));
    return if val.None? then None else Some((key.value, val.value));
  }

  /** The loop that sets the entries of a table. */
  method ReadTable(text: string) returns (r: Option<Table>)
    ensures r == ParseTable(text)
  {
    var s := Trim(text);
    if s == ['{', '}'] {
      return Some([]);
    }
    if |s| < 2 || s[0] != '{' || s[|s| - 1] != '}' {
      return None;
    }
    var entries := CutPieces(s[1..|s| - 1]);
    var out: Table := [];
    assert entries[0..] == entries;
    ghost var all := AllEntries(entries);
    for i := 0 to |entries|
      invariant Settled(all, []) == Settled(AllEntries(entries[i..]), out)
    {
      assert entries[i..][1..] == entries[i + 1..];
      var e := ReadEntry(entries[i]);
      SettledStep(entries[i..], out);
      if e.None? {
        return None;
      }
      out := Insert(out, e.value.0, e.value.1);
    }
    assert entries[|entries|..] == [];
    return Some(out);
  }

  function Settled(es: Option<seq<(string, string)>>, t: Table): Option<Table> {
    if es.None? then None else Some(InsertAll(es.value, t))
  }

  lemma {:induction false} SettledStep(pieces: seq<string>, t: Table)
    requires pieces != []
    ensures var e := EntryOf(pieces[0]);
            Settled(AllEntries(pieces), t) ==
              if e.None? then None else Settled(AllEntries(pieces[1..]), Insert(t, e.value.0, e.value.1))
  {
    var e, rest := EntryOf(pieces[0]), AllEntries(pieces[1..]);
    if e.Some? && rest.Some? {
      assert ([e.value] + rest.value)[1..] == rest.value;
    }
  }
}
