/** Splitting a file into lines. */
module Lines {
  import opened Bytes

  /** The bytes of a list of lines, each ended by a newline. */
  function Unlines(lines: seq<Line>): (buf: seq<Byte>) {
    if lines == [] then [] else lines[0] + [NL] + Unlines(lines[1..])
  }

  ghost predicate NoNewlines(lines: seq<Line>) {
    forall i :: 0 <= i < |lines| ==> NL !in lines[i]
  }

  /** The file with its last line ended, if it was not. */
  function Ended(buf: seq<Byte>): seq<Byte> {
    if buf == [] || buf[|buf| - 1] == NL then buf else buf + [NL]
  }

  lemma {:induction false} UnlinesSnoc(lines: seq<Line>, l: Line)
    ensures Unlines(lines + [l]) == Unlines(lines) + l + [NL]
  {
    if lines == [] {
      assert [l][1..] == [];
      assert l + [NL] + [] == [] + l + [NL];
    } else {
      Uncons(lines, [l]);
      UnlinesSnoc(lines[1..], l);
      Assoc(lines[0] + [NL], Unlines(lines[1..]) + l, [NL]);
      Assoc(lines[0] + [NL], Unlines(lines[1..]), l);
    }
  }

  /** A first line is determined by the bytes up to the first newline. */
  lemma {:induction false} FirstLine(l: Line, m: Line, s: seq<Byte>, t: seq<Byte>)
    requires NL !in l && NL !in m && l + [NL] + s == m + [NL] + t
    ensures l == m && s == t
  {
    var u, w := l + [NL] + s, m + [NL] + t;
    assert u[|l|] == NL && w[|m|] == NL;
    assert forall i :: 0 <= i < |l| ==> u[i] == l[i];
    assert forall i :: 0 <= i < |m| ==> w[i] == m[i];
    assert l == u[..|l|] && m == w[..|m|];
    assert s == u[|l| + 1..] && t == w[|m| + 1..];
  }

  /** Lines without newlines are recovered from their bytes. */
  lemma {:induction false} UnlinesInjective(ls: seq<Line>, ms: seq<Line>)
    requires NoNewlines(ls) && NoNewlines(ms) && Unlines(ls) == Unlines(ms)
    ensures ls == ms
    decreases |ls|
  {
    if ls != [] && ms != [] {
      FirstLine(ls[0], ms[0], Unlines(ls[1..]), Unlines(ms[1..]));
      UnlinesInjective(ls[1..], ms[1..]);
      assert ls == [ls[0]] + ls[1..] && ms == [ms[0]] + ms[1..];
    }
  }

  /** Split on newlines; a last line without one is kept, and no empty line is added. */
  method SplitLines(buf: seq<Byte>) returns (lines: seq<Line>)
    ensures NoNewlines(lines) && Unlines(lines) == Ended(buf)
  {
    if buf == [] {
      return [];
    }
    lines := [];
    var start := 0;
    for i := 0 to |buf|
      invariant 0 <= start <= i
      invariant NoNewlines(lines) && Unlines(lines) == buf[..start]
      invariant NL !in buf[start..i]
      invariant start > 0 ==> buf[start - 1] == NL
    {
      GrowLine(buf, start, i);
      if buf[i] == NL {
        UnlinesSnoc(lines, buf[start..i]);
        lines := lines + [buf[start..i]];
        start := i + 1;
      }
    }
    if start < |buf| {
      LastLine(buf, start, lines);
      lines := lines + [buf[start..]];
    } else {
      assert buf[..start] == buf;
    }
  }

  lemma {:induction false} GrowLine(buf: seq<Byte>, start: nat, i: nat)
    requires start <= i < |buf|
    ensures buf[start..i + 1] == buf[start..i] + [buf[i]]
    ensures buf[i + 1..i + 1] == []
    ensures buf[i] == NL ==> buf[..i + 1] == buf[..start] + buf[start..i] + [NL]
  {
  }

  /** What follows the last newline is a line of its own. */
  lemma {:induction false} LastLine(buf: seq<Byte>, start: nat, lines: seq<Line>)
    requires start < |buf| && NL !in buf[start..|buf|] && Unlines(lines) == buf[..start]
    ensures Unlines(lines + [buf[start..]]) == Ended(buf) && NL !in buf[start..]
  {
    assert buf[start..] == buf[start..|buf|];
    assert buf[|buf| - 1] == buf[start..][|buf| - start - 1];
    UnlinesSnoc(lines, buf[start..]);
    assert buf == buf[..start] + buf[start..];
  }

  /** Splitting undoes joining, for every list of newline-free lines. */
  method SplitJoined(lines: seq<Line>) returns (back: seq<Line>)
    requires NoNewlines(lines)
    ensures back == lines
  {
    back := SplitLines(Unlines(lines));
    UnlinesEnded(lines);
    UnlinesInjective(back, lines);
  }

  lemma {:induction false} UnlinesEnded(lines: seq<Line>)
    ensures Ended(Unlines(lines)) == Unlines(lines)
  {
    if lines != [] {
      var last := |lines| - 1;
      UnlinesSnoc(lines[..last], lines[last]);
      assert lines == lines[..last] + [lines[last]];
    }
  }
}
