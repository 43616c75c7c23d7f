/** What an ignore pattern means, read from its bytes. */
module GlobText {
  // No token and no compiled component enters these definitions: they are what the compiler and
  // the matcher are held to.

  import opened Bytes
  import opened Glob
  import opened GlobClasses
  import opened GlobComponents
  import opened GlobCompile

  // One component.

  ghost predicate Listed(xs: seq<Item>, c: Byte) { exists k :: 0 <= k < |xs| && Covers(xs[k], c) }

  /** The first n bytes of p are a class, written from these items. */
  ghost predicate ClassHere(p: seq<Byte>, n: nat, negate: bool, mark: Byte, xs: seq<Item>) {
    0 < n <= |p| && Written(xs) && MarkOk(negate, mark, xs) && p[..n] == ClassText(negate, mark, xs)
  }

  ghost predicate ClassSpan(p: seq<Byte>, n: nat) {
    0 < n <= |p| && exists negate, mark, xs :: ClassHere(p, n, negate, mark, xs)
  }

  /** The first n bytes of p are a class, and c, which is no slash, is listed in it or, when it is
      marked, is not. */
  ghost predicate ClassTakes(p: seq<Byte>, n: nat, c: Byte) {
    && 0 < n <= |p| && c != 47
    && exists negate, mark, xs :: ClassHere(p, n, negate, mark, xs) && negate != Listed(xs, c)
  }

  /** The first k bytes hold no slash. */
  predicate FreeTo(name: seq<Byte>, k: nat) { k <= |name| && forall i :: 0 <= i < k ==> name[i] != 47 }

  /**
    * The name is one that the text of a component takes: a star takes any run of bytes, a question
    * mark any byte, a class the bytes it lists, a backslash the byte behind it, and every other
    * byte itself. None but the last two takes a slash.
    */
  ghost predicate TakesName(p: seq<Byte>, name: seq<Byte>)
    decreases |p|
  {
    if p == [] then name == []
    else if p[0] == 42 then exists k: nat :: FreeTo(name, k) && TakesName(p[1..], name[k..])
    else
      && name != []
      && if p[0] == 91 then exists n: nat :: ClassTakes(p, n, name[0]) && TakesName(p[n..], name[1..])
         else if p[0] == 92 then |p| > 1 && name[0] == p[1] && TakesName(p[2..], name[1..])
         else (if p[0] == 63 then name[0] != 47 else name[0] == p[0]) && TakesName(p[1..], name[1..])
  }

  /** The text of one component: every class is closed, every backslash has a byte behind it, and
      there is no slash but in a class. */
  ghost predicate Whole(p: seq<Byte>)
    decreases |p|
  {
    if p == [] then true
    else if p[0] == 91 then exists n: nat :: ClassSpan(p, n) && Whole(p[n..])
    else if p[0] == 92 then |p| > 1 && p[1] != 47 && Whole(p[2..])
    else p[0] != 47 && Whole(p[1..])
  }

  /** A component ends at e: the pattern does, or a slash follows, plain or behind a backslash. */
  predicate EndsAt(pat: seq<Byte>, e: nat) {
    e == |pat| || (e < |pat| && (pat[e] == 47 || (pat[e] == 92 && e + 1 < |pat| && pat[e + 1] == 47)))
  }

  // Classes.

  /** A class that stands at i is read as itself. */
  lemma {:induction false} ClassReads(pat: seq<Byte>, i: nat, e: nat, n: nat, negate: bool, mark: Byte, xs: seq<Item>)
    requires i < e <= |pat| && ClassHere(pat[i..e], n, negate, mark, xs)
    ensures ClassAt(pat, i) == Some((Class(negate, RangesOf(xs)), i + n))
    ensures forall c: Byte :: Takes(Class(negate, RangesOf(xs)), c) <==> c != 47 && negate != Listed(xs, c)
  {
    var text, more := ClassText(negate, mark, xs), pat[i + n..];
    assert pat[i..] == pat[i..e][..n] + more;
    forall c: Byte
      ensures Takes(Class(negate, RangesOf(xs)), c) <==> c != 47 && negate != Listed(xs, c)
    {
      ClassMeaning(negate, mark, xs, more, c);
    }
    ClassMeaning(negate, mark, xs, more, 0);
    ClassOfRest(pat, i);
  }

  /** Whatever is read as a class is written as one. */
  lemma {:induction false} ClassStands(pat: seq<Byte>, i: nat, e: nat) returns (negate: bool, mark: Byte, xs: seq<Item>)
    requires i < e <= |pat| && pat[i] == 91 && ClassAt(pat, i).Some? && ClassAt(pat, i).value.1 <= e
    ensures ClassHere(pat[i..e], ClassAt(pat, i).value.1 - i, negate, mark, xs)
  {
    ClassOfRest(pat, i);
    var n := ClassAt(pat, i).value.1 - i;
    negate, mark, xs := ClassIsWritten(pat[i..]);
    assert pat[i..][..n] == pat[i..e][..n];
  }

  // Tokens, one at a time.

  lemma {:induction false} SingleAccepts(ts: seq<Tok>, name: seq<Byte>)
    requires ts != [] && Single(ts[0])
    ensures Accepts(ts, name) <==> name != [] && Takes(ts[0], name[0]) && Accepts(ts[1..], name[1..])
  {
    if name != [] && Takes(ts[0], name[0]) && Accepts(ts[1..], name[1..]) {
      assert Fits(ts[0], name, 1);
    }
  }

  lemma {:induction false} StarAccepts(ts: seq<Tok>, name: seq<Byte>)
    requires ts != [] && ts[0].Star?
    ensures Accepts(ts, name) <==> exists k: nat :: FreeTo(name, k) && Accepts(ts[1..], name[k..])
  {
    forall k: nat ensures Fits(ts[0], name, k) <==> FreeTo(name, k) {
      if k <= |name| {
        assert forall i :: 0 <= i < k ==> name[..k][i] == name[i];
      }
    }
    if Accepts(ts, name) {
      var k: nat :| Fits(ts[0], name, k) && Accepts(ts[1..], name[k..]);
      assert FreeTo(name, k);
    }
    if exists k: nat :: FreeTo(name, k) && Accepts(ts[1..], name[k..]) {
      var k: nat :| FreeTo(name, k) && Accepts(ts[1..], name[k..]);
      assert Fits(ts[0], name, k);
    }
  }

  /** Two stars take what one does. */
  lemma {:induction false} StarTwice(p: seq<Byte>, name: seq<Byte>)
    requires |p| > 1 && p[0] == 42 && p[1] == 42
    ensures TakesName(p, name) <==> TakesName(p[1..], name)
  {
    assert p[1..][0] == 42;
    if TakesName(p, name) {
      var k: nat :| FreeTo(name, k) && TakesName(p[1..], name[k..]);
      var j: nat :| FreeTo(name[k..], j) && TakesName(p[1..][1..], name[k..][j..]);
      assert name[k..][j..] == name[k + j..];
      assert FreeTo(name, k + j) by {
        assert forall i :: 0 <= i < j ==> name[k..][i] == name[k + i];
        assert forall i :: k <= i < k + j ==> name[i] == name[k..][i - k];
      }
    }
    if TakesName(p[1..], name) {
      assert FreeTo(name, 0) && name[0..] == name;
    }
  }

  // A component's text against its tokens.

  lemma {:induction false} TextStep(pat: seq<Byte>, i: nat, n: nat, e: nat)
    requires i <= i + n <= e <= |pat|
    ensures pat[i..e][n..] == pat[i + n..e]
  {
  }

  /** The tokens that are read up to e take exactly the names that the text up to e takes. */
  lemma {:induction false} FlatMeans(pat: seq<Byte>, i: nat, name: seq<Byte>)
    requires i <= |pat| && FlatFrom(pat, i).Some?
    ensures Accepts(FlatFrom(pat, i).value.0, name) <==> TakesName(pat[i..FlatFrom(pat, i).value.1], name)
    decreases |pat| - i
  {
    var ts, e := FlatFrom(pat, i).value.0, FlatFrom(pat, i).value.1;
    if i < |pat| && !SlashAt(pat, i) {
      var k := AtomAt(pat, i).value.1;
      assert ts[1..] == FlatFrom(pat, k).value.0;
      if pat[i] == 42 {
        forall j: nat | j <= |name|
          ensures Accepts(ts[1..], name[j..]) <==> TakesName(pat[k..e], name[j..])
        {
          FlatMeans(pat, k, name[j..]);
        }
        TextStep(pat, i, 1, e);
        if k == i + 2 {
          StarTwice(pat[i..e], name);
          TextStep(pat, i + 1, 1, e);
          StarMeans(pat[i + 1..e], ts, name);
        } else {
          StarMeans(pat[i..e], ts, name);
        }
      } else if pat[i] == 91 {
        TextStep(pat, i, k - i, e);
        if name != [] {
          FlatMeans(pat, k, name[1..]);
          ClassTaken(pat, i, e, name[0]);
        }
        ClassMeans(pat[i..e], k - i, ts, name);
      } else {
        if name != [] { FlatMeans(pat, k, name[1..]); }
        SingleAccepts(ts, name);
        TextStep(pat, i, k - i, e);
      }
    }
  }

  lemma {:induction false} ClassMeans(p: seq<Byte>, n: nat, ts: seq<Tok>, name: seq<Byte>)
    requires 0 < n <= |p| && p[0] == 91 && ts != [] && ts[0].Class?
    requires name != [] ==> forall m: nat :: ClassTakes(p, m, name[0]) <==> m == n && Takes(ts[0], name[0])
    requires name != [] ==> (Accepts(ts[1..], name[1..]) <==> TakesName(p[n..], name[1..]))
    ensures Accepts(ts, name) <==> TakesName(p, name)
  {
    SingleAccepts(ts, name);
    if name != [] {
      ClassNames(p, n, name, Takes(ts[0], name[0]));
    }
  }

  lemma {:induction false} ClassNames(p: seq<Byte>, n: nat, name: seq<Byte>, taken: bool)
    requires 0 < n <= |p| && p[0] == 91 && name != []
    requires forall m: nat :: ClassTakes(p, m, name[0]) <==> m == n && taken
    ensures TakesName(p, name) <==> taken && TakesName(p[n..], name[1..])
  {
    if taken {
      assert ClassTakes(p, n, name[0]);
    }
  }

  /** The class that is read takes the bytes that the written one does. */
  lemma {:induction false} ClassTaken(pat: seq<Byte>, i: nat, e: nat, c: Byte)
    requires i < e <= |pat| && pat[i] == 91 && ClassAt(pat, i).Some? && ClassAt(pat, i).value.1 <= e
    ensures forall m: nat :: ClassTakes(pat[i..e], m, c) <==>
      m == ClassAt(pat, i).value.1 - i && Takes(ClassAt(pat, i).value.0, c)
  {
    var n := ClassAt(pat, i).value.1 - i;
    var negate, mark, xs := ClassStands(pat, i, e);
    ClassReads(pat, i, e, n, negate, mark, xs);
    ClassTakesIff(pat, i, e, n, negate, mark, xs, c);
  }

  /** A class is written in one way only. */
  lemma {:induction false} ClassTakesIff(pat: seq<Byte>, i: nat, e: nat, n: nat, negate: bool, mark: Byte,
                                         xs: seq<Item>, c: Byte)
    requires i < e <= |pat| && ClassHere(pat[i..e], n, negate, mark, xs)
    ensures forall m: nat :: ClassTakes(pat[i..e], m, c) <==> m == n && c != 47 && negate != Listed(xs, c)
  {
    var p := pat[i..e];
    ClassReads(pat, i, e, n, negate, mark, xs);
    forall m: nat | ClassTakes(p, m, c) ensures m == n && negate != Listed(xs, c) {
      var g, b, ys :| ClassHere(p, m, g, b, ys) && g != Listed(ys, c);
      ClassReads(pat, i, e, m, g, b, ys);
    }
  }

  lemma {:induction false} StarMeans(p: seq<Byte>, ts: seq<Tok>, name: seq<Byte>)
    requires p != [] && p[0] == 42 && ts != [] && ts[0].Star?
    requires forall j: nat :: j <= |name| ==> (Accepts(ts[1..], name[j..]) <==> TakesName(p[1..], name[j..]))
    ensures Accepts(ts, name) <==> TakesName(p, name)
  {
    StarAccepts(ts, name);
    if Accepts(ts, name) {
      var k: nat :| FreeTo(name, k) && Accepts(ts[1..], name[k..]);
      assert FreeTo(name, k) && TakesName(p[1..], name[k..]);
    }
    if TakesName(p, name) {
      var k: nat :| FreeTo(name, k) && TakesName(p[1..], name[k..]);
      assert FreeTo(name, k) && Accepts(ts[1..], name[k..]);
    }
  }

  // Where a component ends.

  lemma {:induction false} SpanIff(pat: seq<Byte>, i: nat, e: nat, n: nat)
    requires i < e <= |pat| && pat[i] == 91
    ensures ClassSpan(pat[i..e], n) <==> ClassAt(pat, i).Some? && ClassAt(pat, i).value.1 == i + n && i + n <= e
  {
    var p := pat[i..e];
    if ClassAt(pat, i).Some? && ClassAt(pat, i).value.1 == i + n && i + n <= e {
      var negate, mark, xs := ClassStands(pat, i, e);
    }
    if ClassSpan(p, n) {
      var negate, mark, xs :| ClassHere(p, n, negate, mark, xs);
      ClassReads(pat, i, e, n, negate, mark, xs);
    }
  }

  lemma {:induction false} ClassWhole(pat: seq<Byte>, i: nat, e: nat)
    requires i < e <= |pat| && pat[i] == 91
    ensures Whole(pat[i..e]) <==>
      ClassAt(pat, i).Some? && ClassAt(pat, i).value.1 <= e && Whole(pat[ClassAt(pat, i).value.1..e])
  {
    forall n: nat
      ensures ClassSpan(pat[i..e], n) <==> ClassAt(pat, i).Some? && ClassAt(pat, i).value.1 == i + n && i + n <= e
    {
      SpanIff(pat, i, e, n);
    }
    if ClassAt(pat, i).Some? && ClassAt(pat, i).value.1 <= e {
      var n := ClassAt(pat, i).value.1 - i;
      TextStep(pat, i, n, e);
      assert ClassSpan(pat[i..e], n);
    }
  }

  /** The tokens of a component are read up to e exactly when the text up to e is that of one
      component and ends there. */
  lemma {:induction false} FlatEndsAt(pat: seq<Byte>, i: nat, e: nat)
    requires i <= e <= |pat|
    ensures FlatFrom(pat, i).Some? && FlatFrom(pat, i).value.1 == e <==> Whole(pat[i..e]) && EndsAt(pat, e)
    decreases |pat| - i
  {
    if i == |pat| || SlashAt(pat, i) {
      SlashStops(pat, i, e);
    } else {
      var t := AtomAt(pat, i);
      AtomWhole(pat, i, e);
      if t.Some? && t.value.1 <= e { FlatEndsAt(pat, t.value.1, e); }
    }
  }

  /** One atom less, as long as it does not reach beyond the end. */
  lemma {:induction false} AtomWhole(pat: seq<Byte>, i: nat, e: nat)
    requires i < |pat| && i <= e <= |pat| && !SlashAt(pat, i)
    ensures Whole(pat[i..e]) && EndsAt(pat, e) <==>
      var t := AtomAt(pat, i);
      t.Some? && t.value.1 <= e && Whole(pat[t.value.1..e]) && EndsAt(pat, e)
  {
    if i == e {
      assert pat[i..e] == [];
    } else if pat[i] == 91 {
      ClassWhole(pat, i, e);
      assert AtomAt(pat, i) == ClassAt(pat, i);
    } else {
      OtherWhole(pat, i, e);
    }
  }

  lemma {:induction false} OtherWhole(pat: seq<Byte>, i: nat, e: nat)
    requires i < e <= |pat| && !SlashAt(pat, i) && pat[i] != 91
    ensures Whole(pat[i..e]) && EndsAt(pat, e) <==>
      var t := AtomAt(pat, i);
      t.Some? && t.value.1 <= e && Whole(pat[t.value.1..e]) && EndsAt(pat, e)
  {
    TextStep(pat, i, 1, e);
    if pat[i] == 92 && i + 2 <= e {
      TextStep(pat, i, 2, e);
    } else if pat[i] == 42 && i + 2 <= e {
      TextStep(pat, i + 1, 1, e);
    }
  }

  lemma {:induction false} SlashStops(pat: seq<Byte>, i: nat, e: nat)
    requires i <= e <= |pat| && (i == |pat| || SlashAt(pat, i))
    ensures Whole(pat[i..e]) && EndsAt(pat, e) <==> e == i
  {
    if i == e {
      assert pat[i..e] == [];
    } else if pat[i] == 92 && e > i + 1 {
      assert pat[i..e][1] == 47;
    }
  }

  // Whole patterns.

  /** A component of a pattern: its text, and whether it is two stars that fill it. */
  datatype Part = Part(text: seq<Byte>, deep: bool)

  /** The component from i to e. Two stars before a slash behind a backslash are no double star. */
  ghost predicate CutHere(pat: seq<Byte>, i: nat, e: nat, part: Part) {
    && i <= e <= |pat| && Whole(pat[i..e]) && EndsAt(pat, e)
    && part == Part(pat[i..e], pat[i..e] == [42, 42] && (e == |pat| || pat[e] == 47))
  }

  /** The pattern, from i on, cut at its slashes. */
  ghost predicate Cut(pat: seq<Byte>, i: nat, parts: seq<Part>)
    requires i <= |pat|
    decreases |parts|
  {
    && parts != []
    && exists e: nat :: CutHere(pat, i, e, parts[0]) &&
         if e == |pat| then |parts| == 1
         else |parts| > 1 && Cut(pat, if pat[e] == 47 then e + 1 else e + 2, parts[1..])
  }

  ghost predicate PrefixTaken(p: seq<Byte>, name: seq<Byte>) { exists k: nat :: k <= |name| && TakesName(p, name[..k]) }

  /**
    * The components stand for the names: a double star for any number of them, every other one
    * for one name. A component before a double star that is not the last need only take a prefix
    * of its name.
    */
  ghost predicate PartsStand(parts: seq<Part>, names: seq<seq<Byte>>)
    decreases |parts| + |names|
  {
    if parts == [] then names == []
    else if parts[0].deep then
      PartsStand(parts[1..], names) || (names != [] && PartsStand(parts, names[1..]))
    else
      && names != []
      && (if |parts| > 2 && parts[1].deep then PrefixTaken(parts[0].text, names[0])
          else TakesName(parts[0].text, names[0]))
      && PartsStand(parts[1..], names[1..])
  }

  /** Each run of double stars as one. */
  function OneRun(parts: seq<Part>): seq<Part> {
    if parts == [] then []
    else if |parts| > 1 && parts[0].deep && parts[1].deep then OneRun(parts[1..])
    else [parts[0]] + OneRun(parts[1..])
  }

  /** Two leading double stars are taken as an empty component and one double star. */
  function Runs(parts: seq<Part>): seq<Part> {
    if |parts| > 1 && parts[0].deep && parts[1].deep then [Part([], false)] + OneRun(parts) else OneRun(parts)
  }

  // The components that are read against the text.

  ghost predicate Spelled(c: Comp, part: Part) {
    && (c.Deep? <==> part.deep)
    && (c.Flat? ==> forall name :: Accepts(c.toks, name) <==> TakesName(part.text, name))
  }

  ghost predicate AllSpelled(cs: seq<Comp>, parts: seq<Part>) {
    |cs| == |parts| && forall j :: 0 <= j < |cs| ==> Spelled(cs[j], parts[j])
  }

  /** The component that is read at i is the one whose text ends at e. */
  lemma {:induction false} CompMeans(pat: seq<Byte>, i: nat, e: nat, part: Part)
    requires CutHere(pat, i, e, part)
    ensures CompAt(pat, i).Some? && CompAt(pat, i).value.1 == e && Spelled(CompAt(pat, i).value.0, part)
  {
    FlatEndsAt(pat, i, e);
    if DeepAt(pat, i) {
      DeepEnds(pat, i);
      assert pat[i..e] == [42, 42];
    } else {
      forall name ensures Accepts(FlatFrom(pat, i).value.0, name) <==> TakesName(pat[i..e], name) {
        FlatMeans(pat, i, name);
      }
      if pat[i..e] == [42, 42] {
        assert pat[i..e][0] == pat[i] && pat[i..e][1] == pat[i + 1];
      }
    }
  }

  lemma {:induction false} DeepEnds(pat: seq<Byte>, i: nat)
    requires DeepAt(pat, i)
    ensures FlatFrom(pat, i).Some? && FlatFrom(pat, i).value.1 == i + 2
  {
    assert FlatFrom(pat, i + 2) == Some(([], i + 2));
  }

  lemma {:induction false} CompIsCut(pat: seq<Byte>, i: nat) returns (part: Part)
    requires i <= |pat| && CompAt(pat, i).Some?
    ensures CutHere(pat, i, CompAt(pat, i).value.1, part)
  {
    var e := CompAt(pat, i).value.1;
    if DeepAt(pat, i) { DeepEnds(pat, i); }
    FlatEndsAt(pat, i, e);
    part := Part(pat[i..e], pat[i..e] == [42, 42] && (e == |pat| || pat[e] == 47));
  }

  /** A pattern that can be cut is read component by component as it is cut. */
  lemma {:induction false} CutReads(pat: seq<Byte>, i: nat, parts: seq<Part>)
    requires i <= |pat| && Cut(pat, i, parts)
    ensures ComponentsFrom(pat, i).Some? && AllSpelled(ComponentsFrom(pat, i).value, parts)
    decreases |parts|
  {
    var e: nat :| CutHere(pat, i, e, parts[0]) &&
      if e == |pat| then |parts| == 1
      else |parts| > 1 && Cut(pat, if pat[e] == 47 then e + 1 else e + 2, parts[1..]);
    CompMeans(pat, i, e, parts[0]);
    if e < |pat| {
      CutReads(pat, GlobCompile.PastSlash(pat, e), parts[1..]);
      SpelledCons(CompAt(pat, i).value.0, ComponentsFrom(pat, GlobCompile.PastSlash(pat, e)).value, parts);
    }
  }

  lemma {:induction false} SpelledCons(c: Comp, cs: seq<Comp>, parts: seq<Part>)
    requires parts != [] && Spelled(c, parts[0]) && AllSpelled(cs, parts[1..])
    ensures AllSpelled([c] + cs, parts)
  {
    forall j | 0 <= j < |[c] + cs| ensures Spelled(([c] + cs)[j], parts[j]) {
      if j > 0 { assert Spelled(cs[j - 1], parts[1..][j - 1]); }
    }
  }

  lemma {:induction false} SpelledTail(cs: seq<Comp>, parts: seq<Part>)
    requires AllSpelled(cs, parts) && cs != []
    ensures AllSpelled(cs[1..], parts[1..])
  {
    forall j | 0 <= j < |cs[1..]| ensures Spelled(cs[1..][j], parts[1..][j]) {
      assert Spelled(cs[j + 1], parts[j + 1]);
    }
  }

  lemma {:induction false} CutOf(pat: seq<Byte>, i: nat) returns (parts: seq<Part>)
    requires i <= |pat| && ComponentsFrom(pat, i).Some?
    ensures Cut(pat, i, parts)
    decreases |pat| - i
  {
    var e := CompAt(pat, i).value.1;
    var part := CompIsCut(pat, i);
    parts := [part];
    if e < |pat| {
      var rest := CutOf(pat, GlobCompile.PastSlash(pat, e));
      parts := [part] + rest;
      assert parts[1..] == rest;
    }
    assert CutHere(pat, i, e, parts[0]);
  }

  /** Components mean what their texts do. */
  lemma {:induction false} SpelledStands(cs: seq<Comp>, parts: seq<Part>, names: seq<seq<Byte>>)
    requires AllSpelled(cs, parts)
    ensures Stands(cs, names, true) <==> PartsStand(parts, names)
    decreases |cs| + |names|
  {
    if cs != [] {
      assert Spelled(cs[0], parts[0]);
      SpelledTail(cs, parts);
      if cs[0].Deep? {
        SpelledStands(cs[1..], parts[1..], names);
        if names != [] { SpelledStands(cs, parts, names[1..]); }
      } else if names != [] {
        SpelledStands(cs[1..], parts[1..], names[1..]);
        assert |cs| > 2 ==> Spelled(cs[1], parts[1]);
        assert PrefixAccepted(cs[0].toks, names[0]) <==> PrefixTaken(parts[0].text, names[0]);
      }
    }
  }

  lemma {:induction false} SpelledRuns(cs: seq<Comp>, parts: seq<Part>)
    requires AllSpelled(cs, parts)
    ensures AllSpelled(Collapsed(cs), OneRun(parts))
  {
    if cs != [] {
      assert Spelled(cs[0], parts[0]) && (|cs| > 1 ==> Spelled(cs[1], parts[1]));
      SpelledTail(cs, parts);
      SpelledRuns(cs[1..], parts[1..]);
      if !LeadDoubled(cs) {
        var rest := [parts[0]] + OneRun(parts[1..]);
        assert rest[1..] == OneRun(parts[1..]);
        SpelledCons(cs[0], Collapsed(cs[1..]), rest);
      }
    }
  }

  lemma {:induction false} EmptyTakes(name: seq<Byte>)
    ensures Accepts([], name) <==> TakesName([], name)
  {
  }

  lemma {:induction false} SpelledSqueezed(cs: seq<Comp>, parts: seq<Part>)
    requires AllSpelled(cs, parts)
    ensures AllSpelled(Squeezed(cs), Runs(parts))
  {
    SpelledRuns(cs, parts);
    if |cs| > 1 {
      assert Spelled(cs[0], parts[0]) && Spelled(cs[1], parts[1]);
    }
    if LeadDoubled(cs) {
      var all := [Part([], false)] + OneRun(parts);
      assert all[1..] == OneRun(parts);
      assert Spelled(Flat([]), Part([], false));
      SpelledCons(Flat([]), Collapsed(cs), all);
    }
  }

  ghost predicate CanBeCut(pat: seq<Byte>) { exists parts :: Cut(pat, 0, parts) }

  lemma {:induction false} CanBeCutIff(pat: seq<Byte>)
    ensures CanBeCut(pat) <==> Components(pat).Some?
  {
    if Components(pat).Some? {
      var parts := CutOf(pat, 0);
    }
    if CanBeCut(pat) {
      var parts :| Cut(pat, 0, parts);
      CutReads(pat, 0, parts);
    }
  }

  /** A pattern is refused exactly when it cannot be cut into components: somewhere a class is left
      open, or a backslash comes last. */
  lemma {:induction false} RefusedIff(pat: seq<Byte>)
    ensures Scan(pat, 0, []).None? <==> !CanBeCut(pat)
  {
    CanBeCutIff(pat);
    CompileIsLower(pat);
  }

  /** What a pattern matches, on every path as gyt writes them, told by the bytes of the pattern
      and of the path. */
  lemma {:induction false} PatternText(pat: seq<Byte>, parts: seq<Part>, w: seq<Byte>)
    requires Cut(pat, 0, parts) && Normal(w)
    ensures Scan(pat, 0, []).Some?
    ensures Accepts(Scan(pat, 0, []).value, w) <==> pat != [42, 42] && PartsStand(Runs(parts), Names(w))
  {
    CutReads(pat, 0, parts);
    var cs := Components(pat).value;
    PatternMeaning(pat, w);
    SpelledSqueezed(cs, parts);
    SpelledStands(Squeezed(cs), Runs(parts), Names(w));
    DeepAlone(pat);
  }

  lemma {:induction false} DeepAlone(pat: seq<Byte>)
    ensures Components(pat) == Some([Deep]) <==> pat == [42, 42]
  {
    if Components(pat) == Some([Deep]) {
      ComponentsStep(pat, 0, [Deep]);
      assert DeepAt(pat, 0);
    }
    if pat == [42, 42] {
      assert DeepAt(pat, 0);
    }
  }
}
