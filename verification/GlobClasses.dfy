/** Character classes of ignore patterns: how they are read and what they take. */
module GlobClasses {
  import opened Bytes
  import opened Glob

  const OPEN: Byte := 91
  const CLOSE: Byte := 93
  const BANG: Byte := 33
  const CARET: Byte := 94
  const DASH: Byte := 45

  function Ordered(lo: Byte, hi: Byte): (Byte, Byte) { if lo <= hi then (lo, hi) else (hi, lo) }

  /** A range a-b starts at i when a dash follows and does not just precede the closing bracket. */
  predicate RangeAt(bytes: seq<Byte>, i: nat) {
    i + 2 < |bytes| && bytes[i + 1] == DASH && bytes[i + 2] != CLOSE
  }

  /** The ranges from position i on, and where the class ends. */
  function ClassFrom(bytes: seq<Byte>, i: nat, ranges: seq<(Byte, Byte)>): (r: Option<(seq<(Byte, Byte)>, nat)>)
    ensures r.Some? ==> i < r.value.1 <= |bytes| && bytes[r.value.1 - 1] == CLOSE
    decreases |bytes| - i
  {
    if i >= |bytes| then None
    else if bytes[i] == CLOSE then Some((ranges, i + 1))
    else if RangeAt(bytes, i) then ClassFrom(bytes, i + 3, ranges + [Ordered(bytes[i], bytes[i + 2])])
    else ClassFrom(bytes, i + 1, ranges + [(bytes[i], bytes[i])])
  }

  /** The class that starts with the bracket at i, and the position past it. */
  function ClassAt(bytes: seq<Byte>, i: nat): (r: Option<(Tok, nat)>)
    requires i < |bytes|
    ensures r.Some? ==> r.value.0.Class? && i < r.value.1 <= |bytes| && bytes[r.value.1 - 1] == CLOSE
  {
    var negate := i + 1 < |bytes| && (bytes[i + 1] == BANG || bytes[i + 1] == CARET);
    var found := ClassFrom(bytes, if negate then i + 2 else i + 1, []);
    if found.None? then None else Some((Class(negate, found.value.0), found.value.1))
  }

  /** What comes after a closed class does not matter to it. */
  lemma {:induction false} ClassFromLonger(p: seq<Byte>, more: seq<Byte>, i: nat, ranges: seq<(Byte, Byte)>)
    requires ClassFrom(p, i, ranges).Some?
    ensures ClassFrom(p + more, i, ranges) == ClassFrom(p, i, ranges)
    decreases |p| - i
  {
    if p[i] != CLOSE {
      if RangeAt(p, i) {
        ClassFromLonger(p, more, i + 3, ranges + [Ordered(p[i], p[i + 2])]);
      } else {
        ClassFromLonger(p, more, i + 1, ranges + [(p[i], p[i])]);
        assert i + 1 < |p|;
        assert i + 2 < |p| || p[i + 1] != DASH;
      }
    }
  }

  lemma {:induction false} ClassFromShift(a: seq<Byte>, p: seq<Byte>, i: nat, ranges: seq<(Byte, Byte)>)
    ensures var r, s := ClassFrom(p, i, ranges), ClassFrom(a + p, |a| + i, ranges);
            r.Some? == s.Some? && (r.Some? ==> s.value == (r.value.0, |a| + r.value.1))
    decreases |p| - i
  {
    if i < |p| && p[i] != CLOSE {
      if RangeAt(p, i) {
        ClassFromShift(a, p, i + 3, ranges + [Ordered(p[i], p[i + 2])]);
      } else {
        ClassFromShift(a, p, i + 1, ranges + [(p[i], p[i])]);
      }
    }
  }

  lemma {:induction false} ClassInside(a: seq<Byte>, p: seq<Byte>, more: seq<Byte>, j: nat)
    requires j < |p| && ClassAt(p, j).Some?
    ensures var r := ClassAt(p, j).value;
            ClassAt(a + (p + more), |a| + j) == Some((r.0, |a| + r.1))
  {
    var pat := a + (p + more);
    var negate := j + 1 < |p| && (p[j + 1] == BANG || p[j + 1] == CARET);
    var start := if negate then j + 2 else j + 1;
    assert ClassFrom(p, start, []).Some?;
    assert j + 1 < |p| && pat[|a| + j + 1] == p[j + 1];
    ClassFromLonger(p, more, start, []);
    ClassFromShift(a, p + more, start, []);
  }

  // What is written between the brackets.

  datatype Item = One(c: Byte) | Span(a: Byte, b: Byte)

  function ItemText(x: Item): seq<Byte> { if x.One? then [x.c] else [x.a, 45, x.b] }

  function ItemsText(xs: seq<Item>): seq<Byte> {
    if xs == [] then [] else ItemText(xs[0]) + ItemsText(xs[1..])
  }

  predicate Covers(x: Item, c: Byte) {
    if x.One? then c == x.c else x.a <= c <= x.b || x.b <= c <= x.a
  }

  /** Items that can be told apart: none holds the closing bracket, and a dash that follows a
      single byte is the last thing in the class. */
  predicate Written(xs: seq<Item>) {
    || xs == []
    || (&& (if xs[0].One? then xs[0].c != 93 else xs[0].a != 93 && xs[0].b != 93)
        && (xs[0].One? && |xs| > 1 && ItemText(xs[1])[0] == 45 ==> xs[1..] == [One(45)])
        && Written(xs[1..]))
  }

  function RangeOf(x: Item): (Byte, Byte) { if x.One? then (x.c, x.c) else Ordered(x.a, x.b) }

  function RangesOf(xs: seq<Item>): seq<(Byte, Byte)> {
    if xs == [] then [] else [RangeOf(xs[0])] + RangesOf(xs[1..])
  }

  lemma {:induction false} RangesCover(xs: seq<Item>, c: Byte)
    ensures InRanges(RangesOf(xs), c) <==> exists k :: 0 <= k < |xs| && Covers(xs[k], c)
  {
    if xs != [] {
      RangesCover(xs[1..], c);
      FirstRange(RangeOf(xs[0]), RangesOf(xs[1..]), c);
      FirstCovers(xs, c);
    }
  }

  lemma {:induction false} FirstRange(r: (Byte, Byte), rest: seq<(Byte, Byte)>, c: Byte)
    ensures InRanges([r] + rest, c) <==> r.0 <= c <= r.1 || InRanges(rest, c)
  {
    var all := [r] + rest;
    if r.0 <= c <= r.1 {
      assert all[0].0 <= c <= all[0].1;
    }
    if InRanges(rest, c) {
      var i :| 0 <= i < |rest| && rest[i].0 <= c <= rest[i].1;
      assert all[i + 1] == rest[i];
    }
    if InRanges(all, c) {
      var i :| 0 <= i < |all| && all[i].0 <= c <= all[i].1;
      assert i > 0 ==> rest[i - 1] == all[i];
    }
  }

  lemma {:induction false} FirstCovers(xs: seq<Item>, c: Byte)
    requires xs != []
    ensures (exists k :: 0 <= k < |xs| && Covers(xs[k], c)) <==>
      Covers(xs[0], c) || exists k :: 0 <= k < |xs[1..]| && Covers(xs[1..][k], c)
  {
    assert forall k :: 0 <= k < |xs[1..]| ==> xs[1..][k] == xs[k + 1];
    if exists k :: 0 <= k < |xs| && Covers(xs[k], c) {
      var k :| 0 <= k < |xs| && Covers(xs[k], c);
      assert k > 0 ==> xs[1..][k - 1] == xs[k];
    }
    if exists k :: 0 <= k < |xs[1..]| && Covers(xs[1..][k], c) {
      var k :| 0 <= k < |xs[1..]| && Covers(xs[1..][k], c);
      assert Covers(xs[k + 1], c);
    }
  }

  /** The item stands at p. */
  predicate ItemAt(bytes: seq<Byte>, p: nat, x: Item) {
    if x.One? then p < |bytes| && bytes[p] == x.c
    else p + 2 < |bytes| && bytes[p] == x.a && bytes[p + 1] == DASH && bytes[p + 2] == x.b
  }

  function Size(x: Item): nat { if x.One? then 1 else 3 }

  /** The items and the closing bracket stand from p on, and end before e. */
  predicate ItemsAt(bytes: seq<Byte>, p: nat, xs: seq<Item>, e: nat)
    decreases |xs|
  {
    if xs == [] then p < |bytes| && bytes[p] == CLOSE && e == p + 1
    else ItemAt(bytes, p, xs[0]) && ItemsAt(bytes, p + Size(xs[0]), xs[1..], e)
  }

  /** Written items and their closing bracket, wherever they stand, read back as the ranges of
      the items. */
  lemma {:induction false} ItemsRead(bytes: seq<Byte>, p: nat, xs: seq<Item>, e: nat, ranges: seq<(Byte, Byte)>)
    requires Written(xs) && ItemsAt(bytes, p, xs, e)
    ensures ClassFrom(bytes, p, ranges) == Some((ranges + RangesOf(xs), e))
    decreases |xs|
  {
    if xs == [] {
      assert ranges + [] == ranges;
    } else {
      var r := RangeOf(xs[0]);
      NextByte(bytes, p, xs, e);
      TakeItem(bytes, p, xs[0], ranges);
      ItemsRead(bytes, p + Size(xs[0]), xs[1..], e, ranges + [r]);
      Assoc(ranges, [r], RangesOf(xs[1..]));
    }
  }

  /** One turn of the reading loop takes one written item. */
  lemma {:induction false} TakeItem(bytes: seq<Byte>, p: nat, x: Item, ranges: seq<(Byte, Byte)>)
    requires ItemAt(bytes, p, x) && bytes[p] != CLOSE && (x.Span? <==> RangeAt(bytes, p))
    ensures ClassFrom(bytes, p, ranges) == ClassFrom(bytes, p + Size(x), ranges + [RangeOf(x)])
  {
  }

  /** What follows a single byte does not make it a range. */
  lemma {:induction false} NextByte(bytes: seq<Byte>, p: nat, xs: seq<Item>, e: nat)
    requires Written(xs) && xs != [] && ItemsAt(bytes, p, xs, e)
    ensures bytes[p] != CLOSE && (xs[0].Span? <==> RangeAt(bytes, p))
  {
    if xs[0].One? && |xs| > 1 {
      assert xs[1..][0] == xs[1];
      assert bytes[p + 1] == ItemText(xs[1])[0];
      if bytes[p + 1] == DASH {
        assert xs[1..] == [One(DASH)] && xs[1..][1..] == [];
        assert ItemsAt(bytes, p + 1, xs[1..], e);
        assert ItemsAt(bytes, p + 2, [], e);
      }
    }
  }

  /** Items stand wherever their text does. */
  lemma {:induction false} TextStands(a: seq<Byte>, xs: seq<Item>, more: seq<Byte>)
    ensures ItemsAt(a + (ItemsText(xs) + ([CLOSE] + more)), |a|, xs, |a| + |ItemsText(xs)| + 1)
    decreases |xs|
  {
    if xs == [] {
      assert (a + ([] + ([CLOSE] + more)))[|a|] == CLOSE;
    } else {
      var t, u := ItemText(xs[0]), ItemsText(xs[1..]);
      TextStands(a + t, xs[1..], more);
      Regroup(a, t, u, [CLOSE] + more);
      ItemStands(a, xs[0], u + ([CLOSE] + more));
    }
  }

  lemma {:induction false} ItemStands(a: seq<Byte>, x: Item, rest: seq<Byte>)
    ensures ItemAt(a + (ItemText(x) + rest), |a|, x)
  {
  }

  lemma {:induction false} Regroup(a: seq<Byte>, t: seq<Byte>, r: seq<Byte>, rest: seq<Byte>)
    ensures a + ((t + r) + rest) == a + (t + (r + rest)) == (a + t) + (r + rest)
  {
  }

  function Sign(negate: bool, mark: Byte): seq<Byte> { if negate then [mark] else [] }

  /** A class as it is written: a bracket, a mark if it is negated, the items, and a bracket. */
  function ClassText(negate: bool, mark: Byte, xs: seq<Item>): seq<Byte> {
    ([91] + Sign(negate, mark)) + (ItemsText(xs) + [93])
  }

  /** A mark is one of the two that negate; without one, the items do not start with either. */
  predicate MarkOk(negate: bool, mark: Byte, xs: seq<Item>) {
    if negate then mark == 33 || mark == 94
    else xs == [] || (ItemText(xs[0])[0] != 33 && ItemText(xs[0])[0] != 94)
  }

  /** A written class, before any bytes more, reads as itself: it takes exactly the bytes but the
      slash that some item covers, or with a mark those that none covers. */
  lemma {:induction false} ClassMeaning(negate: bool, mark: Byte, xs: seq<Item>, more: seq<Byte>, c: Byte)
    requires Written(xs) && MarkOk(negate, mark, xs)
    ensures var text := ClassText(negate, mark, xs);
      && ClassAt(text + more, 0) == Some((Class(negate, RangesOf(xs)), |text|))
      && (Takes(Class(negate, RangesOf(xs)), c) <==>
          c != 47 && (negate != exists k :: 0 <= k < |xs| && Covers(xs[k], c)))
  {
    WrittenReads(negate, mark, xs, more);
    RangesCover(xs, c);
  }

  lemma {:induction false} WrittenReads(negate: bool, mark: Byte, xs: seq<Item>, more: seq<Byte>)
    requires Written(xs) && MarkOk(negate, mark, xs)
    ensures var text := ClassText(negate, mark, xs);
      ClassAt(text + more, 0) == Some((Class(negate, RangesOf(xs)), |text|))
  {
    var a, e := [OPEN] + Sign(negate, mark), |ClassText(negate, mark, xs)|;
    var bytes := ClassText(negate, mark, xs) + more;
    AroundItems(a, ItemsText(xs), more);
    TextStands(a, xs, more);
    ItemsRead(bytes, |a|, xs, e, []);
    assert [] + RangesOf(xs) == RangesOf(xs);
    assert negate ==> bytes[1] == mark;
    assert !negate && xs != [] ==> ItemAt(bytes, 1, xs[0]);
  }

  lemma {:induction false} AroundItems(a: seq<Byte>, u: seq<Byte>, more: seq<Byte>)
    ensures (a + (u + [CLOSE])) + more == a + (u + ([CLOSE] + more))
    ensures forall k :: 0 <= k < |a| ==> ((a + (u + [CLOSE])) + more)[k] == a[k]
  {
  }

  /** Whatever closes was written: the bytes that are read are the text of some items. */
  lemma {:induction false} ReadIsWritten(bytes: seq<Byte>, i: nat, ranges: seq<(Byte, Byte)>) returns (xs: seq<Item>)
    requires i <= |bytes| && ClassFrom(bytes, i, ranges).Some?
    ensures Written(xs) && bytes[i..ClassFrom(bytes, i, ranges).value.1] == ItemsText(xs) + [CLOSE]
    decreases |bytes| - i
  {
    var e := ClassFrom(bytes, i, ranges).value.1;
    if bytes[i] == CLOSE {
      xs := [];
      assert bytes[i..e] == [CLOSE];
    } else {
      var x := if RangeAt(bytes, i) then Span(bytes[i], bytes[i + 2]) else One(bytes[i]);
      var j := i + |ItemText(x)|;
      var rest := ReadIsWritten(bytes, j, ranges + [RangeOf(x)]);
      xs := [x] + rest;
      assert bytes[i..j] == ItemText(x);
      WriteItem(bytes, i, j, e, x, rest);
    }
  }

  lemma {:induction false} WriteItem(bytes: seq<Byte>, i: nat, j: nat, e: nat, x: Item, rest: seq<Item>)
    requires i < j < e <= |bytes| && bytes[i..j] == ItemText(x) && bytes[i] != CLOSE && (x.Span? <==> RangeAt(bytes, i))
    requires Written(rest) && bytes[j..e] == ItemsText(rest) + [CLOSE]
    ensures Written([x] + rest) && bytes[i..e] == ItemsText([x] + rest) + [CLOSE]
  {
    var xs := [x] + rest;
    assert xs[1..] == rest;
    assert bytes[i..j][0] == bytes[i];
    assert x.Span? ==> bytes[i..j][2] == bytes[i + 2];
    assert bytes[i..e] == bytes[i..j] + bytes[j..e];
    Assoc(ItemText(x), ItemsText(rest), [CLOSE]);
    if x.One? && rest != [] && ItemText(rest[0])[0] == DASH {
      DashIsLast(bytes, j, e, rest);
    }
  }

  lemma {:induction false} DashIsLast(bytes: seq<Byte>, j: nat, e: nat, rest: seq<Item>)
    requires j <= e <= |bytes| && rest != [] && Written(rest) && bytes[j..e] == ItemsText(rest) + [CLOSE]
    requires ItemText(rest[0])[0] == DASH && (j + 1 < |bytes| ==> bytes[j] != DASH || bytes[j + 1] == CLOSE)
    ensures rest == [One(DASH)]
  {
    var u := bytes[j..e];
    SecondByte(rest);
    assert u[0] == DASH && u[0] == bytes[j];
    assert u[1] == bytes[j + 1] == CLOSE;
    assert forall k :: 0 <= k < |ItemsText(rest)| ==> u[k] == ItemsText(rest)[k];
  }

  lemma {:induction false} SecondByte(xs: seq<Item>)
    requires xs != [] && Written(xs)
    ensures xs[0].Span? || |xs| > 1 ==> |ItemsText(xs)| > 1 && ItemsText(xs)[1] != CLOSE
    ensures ItemsText(xs) != [] && ItemsText(xs)[0] == ItemText(xs[0])[0]
  {
    if xs[0].Span? {
      assert ItemsText(xs)[1] == DASH;
    } else if |xs| > 1 {
      assert Written(xs[1..]);
      assert ItemsText(xs)[1] == ItemsText(xs[1..])[0] == ItemText(xs[1])[0];
    }
  }

  /** Every class that is read was written as a class is: so the meaning above is that of all. */
  lemma {:induction false} ClassIsWritten(bytes: seq<Byte>) returns (negate: bool, mark: Byte, xs: seq<Item>)
    requires bytes != [] && bytes[0] == OPEN && ClassAt(bytes, 0).Some?
    ensures Written(xs) && MarkOk(negate, mark, xs)
    ensures bytes[..ClassAt(bytes, 0).value.1] == ClassText(negate, mark, xs)
  {
    var e := ClassAt(bytes, 0).value.1;
    negate := 1 < |bytes| && (bytes[1] == BANG || bytes[1] == CARET);
    mark := if negate then bytes[1] else BANG;
    var start := if negate then 2 else 1;
    xs := ReadIsWritten(bytes, start, []);
    assert bytes[..start] == [OPEN] + Sign(negate, mark);
    assert bytes[..e] == bytes[..start] + bytes[start..e];
    if !negate && xs != [] {
      assert bytes[start..e][0] == bytes[1];
    }
  }

  /** Reads one class from its bracket on. */
  method CompileClass(bytes: seq<Byte>) returns (r: Option<(Tok, nat)>)
    requires bytes != []
    ensures r == ClassAt(bytes, 0)
  {
    var i := 1;
    var negate := false;
    if i < |bytes| && (bytes[i] == BANG || bytes[i] == CARET) {
      negate := true;
      i := i + 1;
    }
    var ranges: seq<(Byte, Byte)> := [];
    ghost var start := i;
    while i < |bytes|
      invariant i <= |bytes|
      invariant ClassFrom(bytes, i, ranges) == ClassFrom(bytes, start, [])
      decreases |bytes| - i
    {
      if bytes[i] == CLOSE {
        return Some((Class(negate, ranges), i + 1));
      }
      var lo := bytes[i];
      i := i + 1;
      if i + 1 < |bytes| && bytes[i] == DASH && bytes[i + 1] != CLOSE {
        var hi := bytes[i + 1];
        i := i + 2;
        ranges := ranges + [if lo <= hi then (lo, hi) else (hi, lo)];
      } else {
        ranges := ranges + [(lo, lo)];
      }
    }
    return None;
  }
}
