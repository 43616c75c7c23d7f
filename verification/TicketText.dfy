/** The quoted strings of a ticket blob, printed and parsed by hand. */
module TicketText {
  // Text is a sequence of Unicode scalar values; which characters beyond ASCII the printer shows
  // as themselves is a parameter.

  import opened Bytes

  type Shown = char -> bool

  // Whitespace and trimming.

  predicate White(c: char) {
    var n := c as int;
    || 9 <= n <= 13 || n == 32 || n == 0x85 || n == 0xA0 || n == 0x1680 || 0x2000 <= n <= 0x200A
    || n == 0x2028 || n == 0x2029 || n == 0x202F || n == 0x205F || n == 0x3000
  }

  function TrimStart(s: string): string {
    if s != [] && White(s[0]) then TrimStart(s[1..]) else s
  }

  function TrimEnd(s: string): string {
    if s != [] && White(s[|s| - 1]) then TrimEnd(s[..|s| - 1]) else s
  }

  function Trim(s: string): string { TrimEnd(TrimStart(s)) }

  /** Nothing to trim at either end. */
  predicate Tight(s: string) { s != [] && !White(s[0]) && !White(s[|s| - 1]) }

  /** A tight text comes out of any blanks around it. */
  lemma {:induction false} TrimTight(before: string, s: string, after: string)
    requires Tight(s) && |before| <= 1 && |after| <= 1
    requires (forall c :: c in before ==> White(c)) && (forall c :: c in after ==> White(c))
    ensures Trim(before + s + after) == s
  {
    var t := before + s + after;
    if before != [] {
      assert before[0] in before && t[0] == before[0] && t[1..] == s + after;
    } else {
      assert t == s + after;
    }
    assert (s + after)[0] == s[0];
    assert TrimStart(t) == s + after;
    assert TrimEnd(s) == s;
    if after != [] {
      assert after[0] in after && |s + after| - 1 == |s|;
      assert (s + after)[..|s|] == s && (s + after)[|s|] == after[0];
    } else {
      assert s + after == s;
    }
  }

  lemma {:induction false} TrimAlone(s: string)
    requires Tight(s)
    ensures Trim(s) == s
  {
    TrimTight([], s, []);
    assert [] + s + [] == s;
  }

  /** The first position of a character, or the length of the text. */
  function FirstOf(s: string, c: char): (f: nat)
    ensures f <= |s| && (f < |s| ==> s[f] == c) && forall i :: 0 <= i < f ==> s[i] != c
  {
    if s == [] || s[0] == c then 0 else FirstOf(s[1..], c) + 1
  }

  // Quoted strings.

  /** A character the printer shows as itself, if it has no escape of its own. */
  predicate Plain(shown: Shown, c: char) {
    if c as int < 0x80 then 0x20 <= c as int < 0x7F else shown(c)
  }

  predicate Escapable(c: char) {
    c == '\t' || c == '\r' || c == '\n' || c == '\"' || c == '\\' || c == '\0'
  }

  /** A character that is not printed as a numeric escape. */
  predicate Readable(shown: Shown, c: char) { Escapable(c) || Plain(shown, c) }

  predicate AllReadable(shown: Shown, s: string) { forall i :: 0 <= i < |s| ==> Readable(shown, s[i]) }

  function HexDigit(n: nat): char
    requires n < 16
  {
    "0123456789abcdef"[n]
  }

  function Hex(n: nat): string { if n < 16 then [HexDigit(n)] else Hex(n / 16) + [HexDigit(n % 16)] }

  function Letter(c: char): char
    requires Escapable(c)
  {
    if c == '\t' then 't' else if c == '\r' then 'r' else if c == '\n' then 'n' else if c == '\0' then '0' else c
  }

  function EscapeChar(shown: Shown, c: char): string {
    if Escapable(c) then ['\\', Letter(c)]
    else if Plain(shown, c) then [c]
    else ['\\', 'u', '{'] + (Hex(c as int) + ['}'])
  }

  function Escaped(shown: Shown, s: string): string {
    if s == [] then [] else EscapeChar(shown, s[0]) + Escaped(shown, s[1..])
  }

  function Quote(shown: Shown, s: string): string { ['\"'] + (Escaped(shown, s) + ['\"']) }

  function Cons(c: char, rest: Option<string>): Option<string> {
    if rest.None? then None else Some([c] + rest.value)
  }

  /** The character a backslash escape stands for. */
  function Meaning(c: char): Option<char> {
    if c == 'n' then Some('\n')
    else if c == 'r' then Some('\r')
    else if c == 't' then Some('\t')
    else if c == '\\' then Some('\\')
    else if c == '\"' then Some('\"')
    else if c == '0' then Some('\0')
    else None
  }

  function Unescape(t: string): Option<string> {
    if t == [] then Some([])
    else if t[0] != '\\' then Cons(t[0], Unescape(t[1..]))
    else if |t| == 1 || Meaning(t[1]).None? then None
    else Cons(Meaning(t[1]).value, Unescape(t[2..]))
  }

  predicate Quoted(s: string) { |s| >= 2 && s[0] == '\"' && s[|s| - 1] == '\"' }

  function ParseString(text: string): Option<string> {
    var s := Trim(text);
    if Quoted(s) then Unescape(s[1..|s| - 1]) else None
  }

  lemma {:induction false} PrependChar(out: string, c: char, rest: Option<string>)
    ensures Prepend(out, Cons(c, rest)) == Prepend(out + [c], rest)
  {
    if rest.Some? {
      assert out + [c] + rest.value == out + ([c] + rest.value);
    }
  }

  /** The unescaping loop. */
  method ReadString(text: string) returns (r: Option<string>)
    ensures r == ParseString(text)
  {
    var s := Trim(text);
    if |s| < 2 || s[0] != '\"' || s[|s| - 1] != '\"' {
      return None;
    }
    var inner := s[1..|s| - 1];
    var out: string := [];
    var i := 0;
    assert inner[0..] == inner;
    PrependNothing(Unescape(inner));
    while i < |inner|
      invariant i <= |inner|
      invariant Unescape(inner) == Prepend(out, Unescape(inner[i..]))
      decreases |inner| - i
    {
      var c := inner[i];
      assert inner[i..][1..] == inner[i + 1..];
      if c == '\\' {
        if i + 1 == |inner| {
          return None;
        }
        assert inner[i..][2..] == inner[i + 2..];
        var m := Meaning(inner[i + 1]);
        if m.None? {
          return None;
        }
        PrependChar(out, m.value, Unescape(inner[i + 2..]));
        out := out + [m.value];
        i := i + 2;
      } else {
        PrependChar(out, c, Unescape(inner[i + 1..]));
        out := out + [c];
        i := i + 1;
      }
    }
    assert inner[i..] == [];
    assert out + [] == out;
    return Some(out);
  }

  lemma {:induction false} UnescapeChar(shown: Shown, c: char, rest: string)
    ensures Unescape(EscapeChar(shown, c) + rest)
         == if Readable(shown, c) then Cons(c, Unescape(rest)) else None
  {
    var t := EscapeChar(shown, c) + rest;
    if Escapable(c) {
      assert t[2..] == rest;
    } else if Plain(shown, c) {
      assert t[1..] == rest;
    }
  }

  /** Printing and unescaping a text: the text itself, or nothing if it holds a numeric escape. */
  lemma {:induction false} UnescapeEscaped(shown: Shown, s: string)
    ensures Unescape(Escaped(shown, s)) == if AllReadable(shown, s) then Some(s) else None
  {
    if s != [] {
      UnescapeChar(shown, s[0], Escaped(shown, s[1..]));
      UnescapeEscaped(shown, s[1..]);
      SplitReadable(shown, s);
      assert s == [s[0]] + s[1..];
    }
  }

  lemma {:induction false} SplitReadable(shown: Shown, s: string)
    requires s != []
    ensures AllReadable(shown, s) <==> Readable(shown, s[0]) && AllReadable(shown, s[1..])
  {
    assert forall i :: 0 <= i < |s[1..]| ==> s[1..][i] == s[i + 1];
    if Readable(shown, s[0]) && AllReadable(shown, s[1..]) {
      forall i | 0 <= i < |s| ensures Readable(shown, s[i]) {
        if i > 0 {
          assert s[i] == s[1..][i - 1];
        }
      }
    }
  }

  lemma {:induction false} QuoteTight(shown: Shown, s: string)
    ensures Tight(Quote(shown, s)) && Quoted(Quote(shown, s))
    ensures Quote(shown, s)[1..|Quote(shown, s)| - 1] == Escaped(shown, s)
  {
  }

  lemma {:induction false} StringRoundTrip(shown: Shown, s: string)
    ensures ParseString(Quote(shown, s)) == if AllReadable(shown, s) then Some(s) else None
  {
    QuoteTight(shown, s);
    TrimAlone(Quote(shown, s));
    UnescapeEscaped(shown, s);
  }
}
