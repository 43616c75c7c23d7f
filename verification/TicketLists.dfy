/** Arrays of strings and of numbers in a ticket blob. */
module TicketLists {
  import opened Bytes
  import opened TicketText

  // Cutting at the commas outside strings.

  datatype Mode = Outside | Inside | AfterBackslash

  /** The trimmed text between commas; a table skips empty pieces and keeps its blanks. */
  function Cut(t: string, buf: string, mode: Mode, table: bool): seq<string> {
    if t == [] then (if Trim(buf) == [] then [] else [Trim(buf)])
    else
      var c := t[0];
      if mode == AfterBackslash then Cut(t[1..], buf + [c], Inside, table)
      else if mode == Inside then
        Cut(t[1..], buf + [c], if c == '\\' then AfterBackslash else if c == '\"' then Outside else Inside, table)
      else if c == '\"' then Cut(t[1..], buf + [c], Inside, table)
      else if c == ',' then
        (if table && Trim(buf) == [] then [] else [Trim(buf)]) + Cut(t[1..], [], Outside, table)
      else Cut(t[1..], if !table && White(c) then buf else buf + [c], Outside, table)
  }

  lemma {:induction false} CutChar(shown: Shown, c: char, rest: string, buf: string, table: bool)
    ensures Cut(EscapeChar(shown, c) + rest, buf, Inside, table) == Cut(rest, buf + EscapeChar(shown, c), Inside, table)
  {
    var e := EscapeChar(shown, c);
    if Escapable(c) {
      assert (e + rest)[1..] == [Letter(c)] + rest && ([Letter(c)] + rest)[1..] == rest;
      assert buf + ['\\'] + [Letter(c)] == buf + e;
    } else if Plain(shown, c) {
      assert (e + rest)[1..] == rest;
    } else {
      var tail := ['{'] + (Hex(c as int) + ['}']);
      assert e == ['\\'] + (['u'] + tail);
      assert (e + rest)[1..] == ['u'] + (tail + rest);
      assert (['u'] + (tail + rest))[1..] == tail + rest;
      HexPlain(c as int);
      CutInert(tail, rest, buf + ['\\'] + ['u'], table);
      assert buf + ['\\'] + ['u'] + tail == buf + e;
    }
  }

  predicate Inert(s: string) { forall i :: 0 <= i < |s| ==> s[i] != '\\' && s[i] != '\"' }

  lemma {:induction false} HexPlain(n: nat)
    ensures Inert(Hex(n))
  {
    if n >= 16 {
      HexPlain(n / 16);
    }
  }

  lemma {:induction false} CutInert(s: string, rest: string, buf: string, table: bool)
    requires Inert(s)
    ensures Cut(s + rest, buf, Inside, table) == Cut(rest, buf + s, Inside, table)
  {
    if s == [] {
      assert s + rest == rest && buf + s == buf;
    } else {
      assert (s + rest)[0] == s[0] && (s + rest)[1..] == s[1..] + rest;
      CutInert(s[1..], rest, buf + [s[0]], table);
      assert buf + [s[0]] + s[1..] == buf + s;
    }
  }

  lemma {:induction false} CutEscaped(shown: Shown, s: string, rest: string, buf: string, table: bool)
    ensures Cut(Escaped(shown, s) + rest, buf, Inside, table) == Cut(rest, buf + Escaped(shown, s), Inside, table)
  {
    if s == [] {
      assert Escaped(shown, s) + rest == rest && buf + Escaped(shown, s) == buf;
    } else {
      var e, tail := EscapeChar(shown, s[0]), Escaped(shown, s[1..]);
      assert e + tail + rest == e + (tail + rest);
      CutChar(shown, s[0], tail + rest, buf, table);
      CutEscaped(shown, s[1..], rest, buf + e, table);
      assert buf + e + tail == buf + (e + tail);
    }
  }

  /** A quoted string, commas and all, goes into one piece. */
  lemma {:induction false} CutQuote(shown: Shown, s: string, rest: string, buf: string, table: bool)
    ensures Cut(Quote(shown, s) + rest, buf, Outside, table) == Cut(rest, buf + Quote(shown, s), Outside, table)
  {
    var q, e := Quote(shown, s), Escaped(shown, s);
    var close := ['\"'] + rest;
    QuoteParts(e, rest, buf);
    CutEscaped(shown, s, close, buf + ['\"'], table);
    assert close[1..] == rest;
  }

  lemma {:induction false} QuoteParts(e: string, rest: string, buf: string)
    ensures var w := ['\"'] + (e + ['\"']) + rest;
            w[0] == '\"' && w[1..] == e + (['\"'] + rest)
    ensures buf + ['\"'] + e + ['\"'] == buf + (['\"'] + (e + ['\"']))
  {
  }

  // Arrays of strings.

  function Join(parts: seq<string>): string {
    if parts == [] then []
    else if |parts| == 1 then parts[0]
    else parts[0] + ([',', ' '] + Join(parts[1..]))
  }

  function Quotes(shown: Shown, xs: seq<string>): (parts: seq<string>)
    ensures |parts| == |xs|
  {
    if xs == [] then [] else [Quote(shown, xs[0])] + Quotes(shown, xs[1..])
  }

  function PrintStrings(shown: Shown, xs: seq<string>): string { ['['] + (Join(Quotes(shown, xs)) + [']']) }

  function ParseAll(pieces: seq<string>): Option<seq<string>> {
    if pieces == [] then Some([])
    else
      var s, rest := ParseString(pieces[0]), ParseAll(pieces[1..]);
      if s.None? || rest.None? then None else Some([s.value] + rest.value)
  }

  predicate Bracketed(s: string, open: char, close: char) {
    |s| >= 2 && s[0] == open && s[|s| - 1] == close
  }

  function ParseStrings(text: string): Option<seq<string>> {
    var s := Trim(text);
    if s == ['[', ']'] then Some([])
    else if !Bracketed(s, '[', ']') then None
    else ParseAll(Cut(s[1..|s| - 1], [], Outside, false))
  }

  ghost predicate AllReadables(shown: Shown, xs: seq<string>) {
    forall i :: 0 <= i < |xs| ==> AllReadable(shown, xs[i])
  }

  lemma {:induction false} CutQuotes(shown: Shown, xs: seq<string>)
    ensures Cut(Join(Quotes(shown, xs)), [], Outside, false) == Quotes(shown, xs)
  {
    if xs == [] {
      assert Trim([]) == [];
    } else {
      var q := Quote(shown, xs[0]);
      QuoteTight(shown, xs[0]);
      TrimAlone(q);
      var parts := Quotes(shown, xs);
      assert parts[1..] == Quotes(shown, xs[1..]);
      if |xs| == 1 {
        CutQuote(shown, xs[0], [], [], false);
        assert q + [] == q && [] + q == q;
        assert Quotes(shown, xs[1..]) == [];
      } else {
        var tail := Join(parts[1..]);
        CutQuote(shown, xs[0], [',', ' '] + tail, [], false);
        assert [] + q == q;
        CutComma(q, tail);
        CutQuotes(shown, xs[1..]);
      }
    }
  }

  lemma {:induction false} CutComma(q: string, tail: string)
    requires Trim(q) == q
    ensures Cut([',', ' '] + tail, q, Outside, false) == [q] + Cut(tail, [], Outside, false)
  {
    assert ([',', ' '] + tail)[1..] == [' '] + tail;
    assert ([' '] + tail)[1..] == tail;
  }

  lemma {:induction false} ParseQuotes(shown: Shown, xs: seq<string>)
    ensures ParseAll(Quotes(shown, xs)) == if AllReadables(shown, xs) then Some(xs) else None
  {
    if xs != [] {
      StringRoundTrip(shown, xs[0]);
      ParseQuotes(shown, xs[1..]);
      ParseFirst(Quote(shown, xs[0]), Quotes(shown, xs[1..]));
      SplitReadables(shown, xs);
      assert xs == [xs[0]] + xs[1..];
    }
  }

  lemma {:induction false} ParseFirst(piece: string, rest: seq<string>)
    ensures ParseAll([piece] + rest) ==
      if ParseString(piece).None? || ParseAll(rest).None? then None
      else Some([ParseString(piece).value] + ParseAll(rest).value)
  {
    assert ([piece] + rest)[1..] == rest;
  }

  lemma {:induction false} SplitReadables(shown: Shown, xs: seq<string>)
    requires xs != []
    ensures AllReadables(shown, xs) <==> AllReadable(shown, xs[0]) && AllReadables(shown, xs[1..])
  {
    assert forall i :: 0 <= i < |xs[1..]| ==> xs[1..][i] == xs[i + 1];
    if AllReadable(shown, xs[0]) && AllReadables(shown, xs[1..]) {
      forall i | 0 <= i < |xs| ensures AllReadable(shown, xs[i]) {
        if i > 0 {
          assert xs[i] == xs[1..][i - 1];
        }
      }
    }
  }

  lemma {:induction false} PrintTight(body: string, open: char, close: char)
    requires !White(open) && !White(close)
    ensures var s := [open] + (body + [close]);
            Tight(s) && Trim(s) == s && Bracketed(s, open, close) && s[1..|s| - 1] == body
  {
    TrimAlone([open] + (body + [close]));
  }

  lemma {:induction false} ParseBody(body: string)
    requires body != []
    ensures ParseStrings(['['] + (body + [']'])) == ParseAll(Cut(body, [], Outside, false))
  {
    PrintTight(body, '[', ']');
  }

  /** An array of strings reads back as itself, or not at all. */
  lemma {:induction false} StringsRoundTrip(shown: Shown, xs: seq<string>)
    ensures ParseStrings(PrintStrings(shown, xs)) == if AllReadables(shown, xs) then Some(xs) else None
  {
    if xs == [] {
      PrintTight([], '[', ']');
    } else {
      JoinNonEmpty(shown, xs);
      ParseBody(Join(Quotes(shown, xs)));
      CutQuotes(shown, xs);
      ParseQuotes(shown, xs);
    }
  }

  lemma {:induction false} JoinNonEmpty(shown: Shown, xs: seq<string>)
    requires xs != []
    ensures |Join(Quotes(shown, xs))| >= 2
  {
    assert Quotes(shown, xs)[0] == Quote(shown, xs[0]);
  }

  /** The loop over the characters of an array, parsing a piece at each comma. */
  method ReadStrings(text: string) returns (r: Option<seq<string>>)
    ensures r == ParseStrings(text)
  {
    var s := Trim(text);
    if s == ['[', ']'] {
      return Some([]);
    }
    if |s| < 2 || s[0] != '[' || s[|s| - 1] != ']' {
      return None;
    }
    var inner := s[1..|s| - 1];
    var out: seq<string> := [];
    var buf: string := [];
    var inStr, escape := false, false;
    assert inner[0..] == inner;
    ghost var all := ParseAll(Cut(inner, [], Outside, false));
    PrependNothing(all);
    for i := 0 to |inner|
      invariant escape ==> inStr
      invariant all == Prepend(out, ParseAll(Cut(inner[i..], buf, ModeOf(inStr, escape), false)))
    {
      var c := inner[i];
      assert inner[i..][1..] == inner[i + 1..];
      if escape {
        buf := buf + [c];
        escape := false;
      } else if inStr {
        buf := buf + [c];
        if c == '\\' {
          escape := true;
        } else if c == '\"' {
          inStr := false;
        }
      } else if c == '\"' {
        buf := buf + [c];
        inStr := true;
      } else if c == ',' {
        var piece := ReadString(Trim(buf));
        CutHead(Trim(buf), Cut(inner[i + 1..], [], Outside, false), out);
        if piece.None? {
          return None;
        }
        out := out + [piece.value];
        buf := [];
      } else if !White(c) {
        buf := buf + [c];
      }
    }
    assert inner[|inner|..] == [];
    if Trim(buf) != [] {
      var piece := ReadString(Trim(buf));
      CutHead(Trim(buf), [], out);
      assert [Trim(buf)] + [] == [Trim(buf)];
      if piece.None? {
        return None;
      }
      out := out + [piece.value];
    }
    assert out + [] == out;
    return Some(out);
  }

  function ModeOf(inStr: bool, escape: bool): Mode {
    if escape then AfterBackslash else if inStr then Inside else Outside
  }

  lemma {:induction false} CutHead(piece: string, rest: seq<string>, out: seq<string>)
    ensures var s := ParseString(piece);
            Prepend(out, ParseAll([piece] + rest))
            == if s.None? then None else Prepend(out + [s.value], ParseAll(rest))
  {
    assert ([piece] + rest)[1..] == rest;
    var s, r := ParseString(piece), ParseAll(rest);
    if s.Some? && r.Some? {
      assert out + ([s.value] + r.value) == out + [s.value] + r.value;
    }
  }

  // Numbers.

  function Digits(n: nat): (s: string)
    ensures s != [] && forall i :: 0 <= i < |s| ==> '0' <= s[i] <= '9'
  {
    if n < 10 then ['0' + n as char] else Digits(n / 10) + ['0' + (n % 10) as char]
  }

  /** The value of a run of digits; None if something else is in it. */
  function Value(s: string): Option<nat> {
    if s == [] then Some(0)
    else
      var c, front := s[|s| - 1], Value(s[..|s| - 1]);
      if front.None? || !('0' <= c <= '9') then None else Some(10 * front.value + (c - '0') as nat)
  }

  /** A decimal number, with an optional plus sign, that fits below the bound. */
  function ParseNat(s: string, bound: nat): Option<nat> {
    var digits := if s != [] && s[0] == '+' then s[1..] else s;
    var n := Value(digits);
    if digits == [] || n.None? || n.value >= bound then None else n
  }

  lemma {:induction false} ValueDigits(n: nat)
    ensures Value(Digits(n)) == Some(n)
  {
    if n >= 10 {
      ValueDigits(n / 10);
      var s := Digits(n);
      assert s[..|s| - 1] == Digits(n / 10);
    } else {
      var s := Digits(n);
      assert s[..0] == [];
    }
  }

  lemma {:induction false} NatRoundTrip(n: nat, bound: nat)
    requires n < bound
    ensures ParseNat(Digits(n), bound) == Some(n)
    ensures Tight(Digits(n)) && Trim(Digits(n)) == Digits(n)
  {
    ValueDigits(n);
    TrimAlone(Digits(n));
  }

  function PrintInt(n: int): string { if n < 0 then ['-'] + Digits(-n) else Digits(n) }

  function ParseInt(s: string): Option<int> {
    if s != [] && s[0] == '-' then
      var n := Value(s[1..]);
      if s[1..] == [] || n.None? || n.value > I64_BOUND then None else Some(-(n.value as int))
    else
      var n := ParseNat(s, I64_BOUND);
      if n.None? then None else Some(n.value)
  }

  lemma {:induction false} IntRoundTrip(n: int)
    requires InI64(n)
    ensures ParseInt(PrintInt(n)) == Some(n)
    ensures Tight(PrintInt(n)) && Trim(PrintInt(n)) == PrintInt(n)
  {
    if n < 0 {
      NegativeRoundTrip(-n);
    } else {
      NatRoundTrip(n, I64_BOUND);
      assert Digits(n)[0] != '-';
    }
  }

  lemma {:induction false} NegativeRoundTrip(n: nat)
    requires n <= I64_BOUND
    ensures ParseInt(['-'] + Digits(n)) == Some(-(n as int))
    ensures Tight(['-'] + Digits(n)) && Trim(['-'] + Digits(n)) == ['-'] + Digits(n)
  {
    var s := ['-'] + Digits(n);
    ValueDigits(n);
    assert s[1..] == Digits(n);
    assert s[|s| - 1] == Digits(n)[|Digits(n)| - 1];
    TrimAlone(s);
  }

  // Arrays of numbers.

  function Numerals(xs: seq<nat>): (parts: seq<string>)
    ensures |parts| == |xs|
  {
    if xs == [] then [] else [Digits(xs[0])] + Numerals(xs[1..])
  }

  function PrintNumbers(xs: seq<nat>): string { ['['] + (Join(Numerals(xs)) + [']']) }

  function SplitCommas(s: string): seq<string>
    decreases |s|
  {
    var f := FirstOf(s, ',');
    if f == |s| then [s] else [s[..f]] + SplitCommas(s[f + 1..])
  }

  /** The numbers between the commas, empty pieces skipped. */
  function NumbersOf(pieces: seq<string>): Option<seq<nat>> {
    if pieces == [] then Some([])
    else
      var t, rest := Trim(pieces[0]), NumbersOf(pieces[1..]);
      if t == [] then rest
      else
        var n := ParseNat(t, U64_BOUND);
        if n.None? || rest.None? then None else Some([n.value] + rest.value)
  }

  function ParseNumbers(text: string): Option<seq<nat>> {
    var s := Trim(text);
    if s == ['[', ']'] then Some([])
    else if !Bracketed(s, '[', ']') then None
    else NumbersOf(SplitCommas(s[1..|s| - 1]))
  }

  lemma {:induction false} FirstCommaIs(u: string, v: string)
    requires (forall i :: 0 <= i < |u| ==> u[i] != ',') && (v == [] || v[0] == ',')
    ensures FirstOf(u + v, ',') == |u|
  {
    var f := FirstOf(u + v, ',');
    assert forall i :: 0 <= i < |u| ==> (u + v)[i] == u[i];
    assert v != [] ==> (u + v)[|u|] == ',';
  }

  lemma {:induction false} SplitFirst(u: string, tail: string)
    requires forall i :: 0 <= i < |u| ==> u[i] != ','
    ensures SplitCommas(u) == [u]
    ensures SplitCommas(u + ([','] + tail)) == [u] + SplitCommas(tail)
  {
    FirstCommaIs(u, []);
    assert u + [] == u;
    var w := u + ([','] + tail);
    FirstCommaIs(u, [','] + tail);
    assert w[..|u|] == u && w[|u| + 1..] == tail;
  }

  /** The parts with the blanks that joining puts before them. */
  function Spaced(parts: seq<string>, before: string): (r: seq<string>)
    ensures |r| == |parts|
  {
    if parts == [] then [] else [before + parts[0]] + Spaced(parts[1..], [' '])
  }

  predicate NoCommas(parts: seq<string>) {
    forall i, j :: 0 <= i < |parts| && 0 <= j < |parts[i]| ==> parts[i][j] != ','
  }

  lemma {:induction false} CommaAfter(before: string, part: string, rest: string)
    ensures before + (part + ([',', ' '] + rest)) == (before + part) + ([','] + ([' '] + rest))
  {
  }

  lemma {:induction false} SplitJoin(parts: seq<string>, before: string)
    requires parts != [] && NoCommas(parts) && (before == [] || before == [' '])
    ensures SplitCommas(before + Join(parts)) == Spaced(parts, before)
  {
    var u := before + parts[0];
    assert forall j :: 0 <= j < |parts[0]| ==> parts[0][j] != ',';
    if |parts| == 1 {
      SplitFirst(u, []);
      assert Spaced(parts[1..], [' ']) == [];
    } else {
      var tail := [' '] + Join(parts[1..]);
      CommaAfter(before, parts[0], Join(parts[1..]));
      SplitFirst(u, tail);
      assert forall i :: 0 <= i < |parts[1..]| ==> parts[1..][i] == parts[i + 1];
      SplitJoin(parts[1..], [' ']);
    }
  }

  ghost predicate Stands(piece: string, x: nat) {
    Trim(piece) != [] && ParseNat(Trim(piece), U64_BOUND) == Some(x)
  }

  lemma {:induction false} NumbersStand(pieces: seq<string>, xs: seq<nat>)
    requires |pieces| == |xs| && forall i :: 0 <= i < |xs| ==> Stands(pieces[i], xs[i])
    ensures NumbersOf(pieces) == Some(xs)
  {
    if xs != [] {
      assert Stands(pieces[0], xs[0]);
      assert forall i :: 0 <= i < |xs[1..]| ==> xs[1..][i] == xs[i + 1] && pieces[1..][i] == pieces[i + 1];
      NumbersStand(pieces[1..], xs[1..]);
      assert [xs[0]] + xs[1..] == xs;
    }
  }

  lemma {:induction false} NumeralStands(x: nat, before: string)
    requires InU64(x) && (before == [] || before == [' '])
    ensures Stands(before + Digits(x), x)
  {
    NatRoundTrip(x, U64_BOUND);
    TrimTight(before, Digits(x), []);
    assert before + Digits(x) + [] == before + Digits(x);
  }

  lemma {:induction false} SpacedStand(xs: seq<nat>, before: string, i: nat)
    requires i < |xs| && InU64(xs[i]) && (before == [] || before == [' '])
    ensures Stands(Spaced(Numerals(xs), before)[i], xs[i])
  {
    if i == 0 {
      NumeralStands(xs[0], before);
    } else {
      assert Numerals(xs)[1..] == Numerals(xs[1..]);
      SpacedStand(xs[1..], [' '], i - 1);
    }
  }

  lemma {:induction false} NumeralsNoCommas(xs: seq<nat>)
    ensures NoCommas(Numerals(xs))
  {
    if xs != [] {
      NumeralsNoCommas(xs[1..]);
    }
  }

  lemma {:induction false} NumbersRoundTrip(xs: seq<nat>)
    requires forall i :: 0 <= i < |xs| ==> InU64(xs[i])
    ensures ParseNumbers(PrintNumbers(xs)) == Some(xs)
    ensures Tight(PrintNumbers(xs))
  {
    var parts := Numerals(xs);
    var body := Join(parts);
    PrintTight(body, '[', ']');
    if xs != [] {
      NumeralsNoCommas(xs);
      SplitJoin(parts, []);
      assert [] + body == body;
      forall i | 0 <= i < |xs| ensures Stands(Spaced(parts, [])[i], xs[i]) {
        SpacedStand(xs, [], i);
      }
      NumbersStand(Spaced(parts, []), xs);
      assert parts[0] != [] && body != [];
    }
  }

  lemma {:induction false} NumbersStep(pieces: seq<string>, i: nat, out: seq<nat>)
    requires i < |pieces|
    ensures var t := Trim(pieces[i]);
            var n := ParseNat(t, U64_BOUND);
            Prepend(out, NumbersOf(pieces[i..])) ==
              if t == [] then Prepend(out, NumbersOf(pieces[i + 1..]))
              else if n.None? then None
              else Prepend(out + [n.value], NumbersOf(pieces[i + 1..]))
  {
    assert pieces[i..][1..] == pieces[i + 1..];
    var n, rest := ParseNat(Trim(pieces[i]), U64_BOUND), NumbersOf(pieces[i + 1..]);
    if n.Some? && rest.Some? {
      assert out + ([n.value] + rest.value) == out + [n.value] + rest.value;
    }
  }

  /** The loop over the pieces of an array of numbers. */
  method ReadNumbers(text: string) returns (r: Option<seq<nat>>)
    ensures r == ParseNumbers(text)
  {
    var s := Trim(text);
    if s == ['[', ']'] {
      return Some([]);
    }
    if |s| < 2 || s[0] != '[' || s[|s| - 1] != ']' {
      return None;
    }
    var pieces := SplitCommas(s[1..|s| - 1]);
    var out: seq<nat> := [];
    assert pieces[0..] == pieces;
    PrependNothing(NumbersOf(pieces));
    for i := 0 to |pieces|
      invariant NumbersOf(pieces) == Prepend(out, NumbersOf(pieces[i..]))
    {
      NumbersStep(pieces, i, out);
      var t := Trim(pieces[i]);
      if t != [] {
        var n := ParseNat(t, U64_BOUND);
        if n.None? {
          return None;
        }
        out := out + [n.value];
      }
    }
    assert pieces[|pieces|..] == [];
    assert out + [] == out;
    return Some(out);
  }
}
