/** Compiling an ignore pattern to the tokens of its components. */
module GlobCompile {
  import opened Bytes
  import opened Glob
  import opened GlobClasses
  import opened GlobComponents

  const STAR: Byte := 42
  const QUESTION: Byte := 63
  const BACKSLASH: Byte := 92

  // Whole patterns.

  function Pop(out: seq<Tok>): seq<Tok> { if out == [] then [] else out[..|out| - 1] }

  /** Two stars between slashes or ends of the pattern. */
  predicate DoubleAt(pat: seq<Byte>, i: nat) {
    && i + 1 < |pat| && pat[i] == STAR && pat[i + 1] == STAR
    && (i == 0 || pat[i - 1] == SLASH)
    && (i + 2 == |pat| || pat[i + 2] == SLASH)
  }

  function DoubleTok(pat: seq<Byte>, i: nat): Tok {
    if i == 0 then DStarSlash else if i + 2 == |pat| then SlashDStar else SlashDStarSlash
  }

  /** A slash at i, plain or behind a backslash. */
  predicate SlashAt(pat: seq<Byte>, i: nat) {
    i < |pat| && (pat[i] == SLASH || (pat[i] == BACKSLASH && i + 1 < |pat| && pat[i + 1] == SLASH))
  }

  /** The token inside a component that starts at i, and the position past it. */
  function AtomAt(bytes: seq<Byte>, i: nat): (r: Option<(Tok, nat)>)
    requires i < |bytes|
    ensures r.Some? ==> i < r.value.1 <= |bytes|
    ensures r.Some? && !SlashAt(bytes, i) ==> Atom(r.value.0) && bytes[r.value.1 - 1] != SLASH
  {
    if bytes[i] == QUESTION then Some((Any, i + 1))
    else if bytes[i] == STAR then
      Some((Star, if i + 1 < |bytes| && bytes[i + 1] == STAR then i + 2 else i + 1))
    else if bytes[i] == OPEN then ClassAt(bytes, i)
    else if bytes[i] == BACKSLASH then
      if i + 1 == |bytes| then None else Some((Lit(bytes[i + 1]), i + 2))
    else Some((Lit(bytes[i]), i + 1))
  }

  /** One step at i, with the tokens read so far: where it goes on, and the tokens then. */
  function StepAt(pat: seq<Byte>, i: nat, out: seq<Tok>): (r: Option<(nat, seq<Tok>)>)
    requires i < |pat|
    ensures r.Some? ==> i < r.value.0 <= |pat|
  {
    if pat[i] == SLASH then Some((i + 1, out + [Sep]))
    else if DoubleAt(pat, i) then
      Some((if i + 2 == |pat| then |pat| else i + 3, (if i == 0 then out else Pop(out)) + [DoubleTok(pat, i)]))
    else
      var t := AtomAt(pat, i);
      if t.None? then None else Some((t.value.1, out + [t.value.0]))
  }

  /** The tokens of a pattern read up to i as out, and still to be read from i. */
  function Scan(pat: seq<Byte>, i: nat, out: seq<Tok>): Option<seq<Tok>>
    requires i <= |pat|
    decreases |pat| - i
  {
    if i == |pat| then Some(out)
    else
      var next := StepAt(pat, i, out);
      if next.None? then None else Scan(pat, next.value.0, next.value.1)
  }

  lemma {:induction false} ClassOfRest(pat: seq<Byte>, i: nat)
    requires i < |pat|
    ensures var r, s := ClassAt(pat[i..], 0), ClassAt(pat, i);
            r.Some? == s.Some? && (r.Some? ==> s.value == (r.value.0, i + r.value.1))
  {
    var p := pat[i..];
    assert pat == pat[..i] + p;
    var negate := 1 < |p| && (p[1] == BANG || p[1] == CARET);
    ClassFromShift(pat[..i], p, if negate then 2 else 1, []);
  }

  /** The compiling loop. */
  method CompileTokens(pat: seq<Byte>) returns (r: Option<seq<Tok>>)
    ensures r == Scan(pat, 0, [])
  {
    var out: seq<Tok> := [];
    var i := 0;
    while i < |pat|
      invariant i <= |pat|
      invariant Scan(pat, i, out) == Scan(pat, 0, [])
      decreases |pat| - i
    {
      var b := pat[i];
      if b == SLASH {
        out := out + [Sep];
        i := i + 1;
      } else if b == QUESTION {
        out := out + [Any];
        i := i + 1;
      } else if b == STAR {
        if i + 1 < |pat| && pat[i + 1] == STAR {
          var prevOk := i == 0 || pat[i - 1] == SLASH;
          var after := i + 2;
          var nextOk := after == |pat| || pat[after] == SLASH;
          if prevOk && nextOk {
            var leading, trailing := i == 0, after == |pat|;
            if leading {
              out := out + [DStarSlash];
            } else if trailing {
              out := Pop(out) + [SlashDStar];
            } else {
              out := Pop(out) + [SlashDStarSlash];
            }
            i := if trailing then |pat| else after + 1;
          } else {
            out := out + [Star];
            i := i + 2;
          }
        } else {
          out := out + [Star];
          i := i + 1;
        }
      } else if b == OPEN {
        ClassOfRest(pat, i);
        var cls := CompileClass(pat[i..]);
        if cls.None? {
          return None;
        }
        out := out + [cls.value.0];
        i := i + cls.value.1;
      } else if b == BACKSLASH {
        if i + 1 >= |pat| {
          return None;
        }
        out := out + [Lit(pat[i + 1])];
        i := i + 2;
      } else {
        out := out + [Lit(b)];
        i := i + 1;
      }
    }
    return Some(out);
  }

  // Component by component.

  /** The tokens from i up to the next slash or the end of the pattern, and where that is. */
  function FlatFrom(pat: seq<Byte>, i: nat): (r: Option<(seq<Tok>, nat)>)
    requires i <= |pat|
    ensures r.Some? ==> i <= r.value.1 <= |pat| && (r.value.1 == |pat| || SlashAt(pat, r.value.1))
    ensures r.Some? ==> Atoms(r.value.0)
    decreases |pat| - i
  {
    if i == |pat| || SlashAt(pat, i) then Some(([], i))
    else
      var t := AtomAt(pat, i);
      if t.None? then None
      else
        var rest := FlatFrom(pat, t.value.1);
        if rest.None? then None else Some(([t.value.0] + rest.value.0, rest.value.1))
  }

  /** Two stars at i that fill their component. */
  predicate DeepAt(pat: seq<Byte>, i: nat) {
    i + 1 < |pat| && pat[i] == STAR && pat[i + 1] == STAR && (i + 2 == |pat| || pat[i + 2] == SLASH)
  }

  /** The component that starts at i, and where it ends; None for an open class or a trailing
      backslash. */
  function CompAt(pat: seq<Byte>, i: nat): (r: Option<(Comp, nat)>)
    requires i <= |pat|
    ensures r.Some? ==> i <= r.value.1 <= |pat| && (r.value.1 == |pat| || SlashAt(pat, r.value.1))
    ensures r.Some? && r.value.0.Flat? ==> Atoms(r.value.0.toks)
  {
    if DeepAt(pat, i) then Some((Deep, i + 2))
    else
      var f := FlatFrom(pat, i);
      if f.None? then None else Some((Flat(f.value.0), f.value.1))
  }

  function PastSlash(pat: seq<Byte>, i: nat): (j: nat)
    requires SlashAt(pat, i)
    ensures i < j <= |pat| && pat[j - 1] == SLASH
  {
    if pat[i] == SLASH then i + 1 else i + 2
  }

  /** The components from position i on, cut at the slashes that stand in no class. */
  function ComponentsFrom(pat: seq<Byte>, i: nat): (r: Option<seq<Comp>>)
    requires i <= |pat|
    ensures r.Some? ==> r.value != []
    decreases |pat| - i
  {
    var c := CompAt(pat, i);
    if c.None? then None
    else if c.value.1 == |pat| then Some([c.value.0])
    else
      var rest := ComponentsFrom(pat, PastSlash(pat, c.value.1));
      if rest.None? then None else Some([c.value.0] + rest.value)
  }

  function Components(pat: seq<Byte>): (r: Option<seq<Comp>>)
    ensures r.Some? ==> r.value != []
  {
    ComponentsFrom(pat, 0)
  }

  lemma {:induction false} PatternAt(a: seq<Byte>, p: seq<Byte>, more: seq<Byte>)
    ensures forall k :: 0 <= k < |p| ==> (a + (p + more))[|a| + k] == p[k]
    ensures more != [] ==> (a + (p + more))[|a| + |p|] == more[0]
  {
  }

  lemma {:induction false} AtomInside(pat: seq<Byte>, a: seq<Byte>, p: seq<Byte>, more: seq<Byte>, j: nat)
    requires pat == a + (p + more) && NoSlash(p) && (more == [] || more[0] == SLASH)
    requires j < |p| && AtomAt(p, j).Some?
    ensures AtomAt(pat, |a| + j) == Some((AtomAt(p, j).value.0, |a| + AtomAt(p, j).value.1))
    ensures !SlashAt(pat, |a| + j) && !SlashAt(p, j)
  {
    PatternAt(a, p, more);
    assert pat[|a| + j] == p[j];
    assert j + 1 < |p| ==> pat[|a| + j + 1] == p[j + 1];
    if p[j] == OPEN {
      ClassInside(a, p, more, j);
    }
  }

  /** A component without a slash reads the same alone as between any others. */
  lemma {:induction false} FlatInside(pat: seq<Byte>, a: seq<Byte>, p: seq<Byte>, more: seq<Byte>, j: nat)
    requires pat == a + (p + more) && NoSlash(p) && (more == [] || more[0] == SLASH)
    requires j <= |p| && FlatFrom(p, j).Some?
    ensures FlatFrom(pat, |a| + j) == Some((FlatFrom(p, j).value.0, |a| + |p|))
    decreases |p| - j
  {
    if j == |p| {
      FlatEnds(pat, a, p, more);
    } else {
      var t, k := AtomAt(p, j).value.0, AtomAt(p, j).value.1;
      FlatInside(pat, a, p, more, k);
      FlatInsideStep(pat, a, p, more, j, t, k);
    }
  }

  lemma {:induction false} FlatInsideStep(pat: seq<Byte>, a: seq<Byte>, p: seq<Byte>, more: seq<Byte>, j: nat,
                                          t: Tok, k: nat)
    requires pat == a + (p + more) && NoSlash(p) && (more == [] || more[0] == SLASH)
    requires j < |p| && AtomAt(p, j) == Some((t, k)) && FlatFrom(pat, |a| + k).Some?
    ensures FlatFrom(pat, |a| + j) == Some(([t] + FlatFrom(pat, |a| + k).value.0, FlatFrom(pat, |a| + k).value.1))
  {
    AtomInside(pat, a, p, more, j);
    FlatStep(pat, |a| + j, t, |a| + k);
  }

  lemma {:induction false} FlatEnds(pat: seq<Byte>, a: seq<Byte>, p: seq<Byte>, more: seq<Byte>)
    requires pat == a + (p + more) && (more == [] || more[0] == SLASH)
    ensures FlatFrom(pat, |a| + |p|) == Some(([], |a| + |p|))
  {
    PatternAt(a, p, more);
  }

  lemma {:induction false} FlatStep(pat: seq<Byte>, i: nat, t: Tok, k: nat)
    requires i < |pat| && !SlashAt(pat, i) && AtomAt(pat, i) == Some((t, k)) && FlatFrom(pat, k).Some?
    ensures FlatFrom(pat, i) == Some(([t] + FlatFrom(pat, k).value.0, FlatFrom(pat, k).value.1))
  {
  }

  lemma {:induction false} ScanStep(pat: seq<Byte>, i: nat, out: seq<Tok>, j: nat, next: seq<Tok>)
    requires i < |pat| && StepAt(pat, i, out) == Some((j, next))
    ensures Scan(pat, i, out) == Scan(pat, j, next)
  {
  }

  /** Inside a component the scan reads the component's own tokens. */
  lemma {:induction false} ScanFlat(pat: seq<Byte>, i: nat, out: seq<Tok>)
    requires i <= |pat| && !DoubleAt(pat, i)
    ensures Scan(pat, i, out) ==
      if FlatFrom(pat, i).None? then None else Scan(pat, FlatFrom(pat, i).value.1, out + FlatFrom(pat, i).value.0)
    decreases |pat| - i
  {
    if i == |pat| || SlashAt(pat, i) {
      assert out + [] == out;
    } else if AtomAt(pat, i).Some? {
      var t, k := AtomAt(pat, i).value.0, AtomAt(pat, i).value.1;
      ScanStep(pat, i, out, k, out + [t]);
      ScanFlat(pat, k, out + [t]);
      if FlatFrom(pat, k).Some? {
        Assoc(out, [t], FlatFrom(pat, k).value.0);
      }
    }
  }

  /** The token a slash gives; behind a backslash it is a literal, which takes the same byte. */
  function SlashTok(pat: seq<Byte>, e: nat): Tok
    requires SlashAt(pat, e)
  {
    if pat[e] == SLASH then Sep else Lit(SLASH)
  }

  lemma {:induction false} ScanSlash(pat: seq<Byte>, e: nat, out: seq<Tok>)
    requires SlashAt(pat, e)
    ensures Scan(pat, e, out) == Scan(pat, PastSlash(pat, e), out + [SlashTok(pat, e)])
  {
  }

  /** Two stars right after a slash, at the end or before one more component. */
  lemma {:induction false} ScanDeep(pat: seq<Byte>, i: nat, out: seq<Tok>, last: Tok)
    requires 0 < i && DeepAt(pat, i) && pat[i - 1] == SLASH
    ensures Scan(pat, i, out + [last]) ==
              if i + 2 == |pat| then Some(out + [SlashDStar]) else Scan(pat, i + 3, out + [SlashDStarSlash])
  {
    assert DoubleAt(pat, i);
    assert Pop(out + [last]) == out;
  }

  // A slash as a literal and as a separator.

  function Plain(t: Tok): Tok { if t == Lit(SLASH) then Sep else t }

  /** The tokens, with every slash as a separator. */
  function Plains(ts: seq<Tok>): seq<Tok> { seq(|ts|, i requires 0 <= i < |ts| => Plain(ts[i])) }

  lemma {:induction false} PlainsAppend(a: seq<Tok>, b: seq<Tok>)
    ensures Plains(a + b) == Plains(a) + Plains(b)
  {
  }

  lemma {:induction false} PlainsAtoms(out: seq<Tok>, ts: seq<Tok>)
    requires Atoms(ts)
    ensures Plains(out + ts) == Plains(out) + ts
  {
    PlainsAppend(out, ts);
    assert Plains(ts) == ts;
  }

  lemma {:induction false} PlainsOne(out: seq<Tok>, t: Tok)
    ensures Plains(out + [t]) == Plains(out) + [Plain(t)]
  {
    PlainsAppend(out, [t]);
  }

  /** Writing a slash as a separator changes nothing that is accepted. */
  lemma {:induction false} PlainsAccept(ts: seq<Tok>, w: seq<Byte>)
    ensures Accepts(Plains(ts), w) <==> Accepts(ts, w)
    decreases |ts|
  {
    if ts != [] {
      assert Plains(ts)[1..] == Plains(ts[1..]);
      forall k: nat | k <= |w|
        ensures Accepts(Plains(ts)[1..], w[k..]) <==> Accepts(ts[1..], w[k..])
      {
        PlainsAccept(ts[1..], w[k..]);
      }
      assert forall k: nat :: Fits(Plain(ts[0]), w, k) <==> Fits(ts[0], w, k);
      PlainsStep(ts, Plains(ts), w);
    }
  }

  lemma {:induction false} PlainsStep(ts: seq<Tok>, us: seq<Tok>, w: seq<Byte>)
    requires ts != [] && us != []
    requires forall k: nat :: Fits(us[0], w, k) <==> Fits(ts[0], w, k)
    requires forall k: nat :: k <= |w| ==> (Accepts(us[1..], w[k..]) <==> Accepts(ts[1..], w[k..]))
    ensures Accepts(us, w) <==> Accepts(ts, w)
  {
    if Accepts(ts, w) {
      var k: nat :| Fits(ts[0], w, k) && Accepts(ts[1..], w[k..]);
      assert Fits(us[0], w, k) && Accepts(us[1..], w[k..]);
    }
    if Accepts(us, w) {
      var k: nat :| Fits(us[0], w, k) && Accepts(us[1..], w[k..]);
      assert Fits(ts[0], w, k) && Accepts(ts[1..], w[k..]);
    }
  }

  // Adjacent double stars.

  /** Each run of double stars as one. */
  function Collapsed(cs: seq<Comp>): seq<Comp> {
    if cs == [] then []
    else if |cs| > 1 && cs[0].Deep? && cs[1].Deep? then Collapsed(cs[1..])
    else [cs[0]] + Collapsed(cs[1..])
  }

  /** A pattern that starts with two double stars loses the mark of its start: it is compiled
      as if an empty component stood in front. */
  predicate LeadDoubled(cs: seq<Comp>) { |cs| > 1 && cs[0].Deep? && cs[1].Deep? }

  /** The components as the compiler takes them. */
  function Squeezed(cs: seq<Comp>): seq<Comp> {
    if LeadDoubled(cs) then [Flat([])] + Collapsed(cs) else Collapsed(cs)
  }

  predicate AllAtoms(cs: seq<Comp>) { forall i :: 0 <= i < |cs| ==> cs[i].Flat? ==> Atoms(cs[i].toks) }

  lemma {:induction false} CollapsedHead(cs: seq<Comp>)
    requires cs != []
    ensures Collapsed(cs) != [] && Collapsed(cs)[0] == cs[0]
    decreases |cs|
  {
    if |cs| > 1 && cs[0].Deep? && cs[1].Deep? {
      CollapsedHead(cs[1..]);
    }
  }

  lemma {:induction false} SpacedCons(c: Comp, cs: seq<Comp>)
    requires Spaced(cs) && (c.Flat? ==> Atoms(c.toks)) && (cs == [] || c.Flat? || cs[0].Flat?)
    ensures Spaced([c] + cs)
  {
    var ds := [c] + cs;
    forall i {:trigger ds[i]} | 0 <= i < |ds|
      ensures ds[i].Flat? ==> Atoms(ds[i].toks)
      ensures i + 1 < |ds| ==> ds[i].Flat? || ds[i + 1].Flat?
    {
      if i > 0 {
        assert ds[i] == cs[i - 1];
      }
    }
  }

  lemma {:induction false} CollapsedSpaced(cs: seq<Comp>)
    requires AllAtoms(cs)
    ensures Spaced(Collapsed(cs))
    decreases |cs|
  {
    if cs != [] {
      assert forall i :: 0 <= i < |cs[1..]| ==> cs[1..][i] == cs[i + 1];
      CollapsedSpaced(cs[1..]);
      if |cs| > 1 {
        CollapsedHead(cs[1..]);
      }
      if !LeadDoubled(cs) {
        SpacedCons(cs[0], Collapsed(cs[1..]));
      }
    }
  }

  /** A run of double stars means what one does, read component by component. */
  lemma {:induction false} CollapsedStands(cs: seq<Comp>, names: seq<seq<Byte>>)
    ensures Stands(Collapsed(cs), names, false) <==> Stands(cs, names, false)
    decreases |cs| + |names|
  {
    if cs == [] {
    } else if LeadDoubled(cs) {
      CollapsedStands(cs[1..], names);
      DeepTwice(cs, names);
    } else if cs[0].Deep? {
      var ds := Collapsed(cs);
      assert ds[0] == cs[0] && ds[1..] == Collapsed(cs[1..]);
      CollapsedStands(cs[1..], names);
      if names != [] { CollapsedStands(cs, names[1..]); }
    } else {
      var ds := Collapsed(cs);
      assert ds[0] == cs[0] && ds[1..] == Collapsed(cs[1..]);
      if names != [] { CollapsedStands(cs[1..], names[1..]); }
    }
  }

  lemma {:induction false} DeepTwice(cs: seq<Comp>, names: seq<seq<Byte>>)
    requires LeadDoubled(cs)
    ensures Stands(cs, names, false) <==> Stands(cs[1..], names, false)
    decreases |names|
  {
    if names != [] {
      DeepTwice(cs, names[1..]);
    }
  }

  /** The tokens of a double star that is not the first component, and of all after it. */
  function AfterDeep(cs: seq<Comp>): seq<Tok>
    requires Spaced(cs) && cs != [] && cs[0].Deep?
  {
    SpacedTail(cs, 1);
    if |cs| == 1 then [SlashDStar] else [SlashDStarSlash] + LowerFlat(cs[1..])
  }

  lemma {:induction false} LowerStep(cs: seq<Comp>, out: seq<Tok>)
    requires Ready(cs) && |cs| > 1
    ensures Spaced(cs[1..])
    ensures cs[1].Flat? ==> out + cs[0].toks + [Sep] + LowerFlat(cs[1..]) == out + LowerFlat(cs)
    ensures cs[1].Deep? ==> out + cs[0].toks + AfterDeep(cs[1..]) == out + LowerFlat(cs)
  {
    SpacedTail(cs, 1);
    if cs[1].Flat? {
      Assoc(out + cs[0].toks, [Sep], LowerFlat(cs[1..]));
      Assoc(out, cs[0].toks, [Sep] + LowerFlat(cs[1..]));
    } else {
      assert cs[1..][1..] == cs[2..];
      Assoc(out, cs[0].toks, AfterDeep(cs[1..]));
    }
  }

  lemma {:induction false} AfterDeepStep(cs: seq<Comp>, out: seq<Tok>)
    requires Spaced(cs) && cs != [] && cs[0].Deep?
    ensures |cs| == 1 ==> AfterDeep(cs) == [SlashDStar]
    ensures |cs| > 1 ==> Ready(cs[1..])
    ensures |cs| > 1 ==> out + [SlashDStarSlash] + LowerFlat(cs[1..]) == out + AfterDeep(cs)
  {
    SpacedTail(cs, 1);
    if |cs| > 1 {
      Assoc(out, [SlashDStarSlash], LowerFlat(cs[1..]));
    }
  }

  lemma {:induction false} ComponentsStep(pat: seq<Byte>, i: nat, cs: seq<Comp>)
    requires i <= |pat| && ComponentsFrom(pat, i) == Some(cs)
    ensures CompAt(pat, i).Some? && CompAt(pat, i).value.0 == cs[0]
    ensures CompAt(pat, i).value.1 == |pat| <==> |cs| == 1
    ensures |cs| > 1 ==> ComponentsFrom(pat, PastSlash(pat, CompAt(pat, i).value.1)) == Some(cs[1..])
  {
  }

  lemma {:induction false} ComponentsAtoms(pat: seq<Byte>, i: nat)
    requires i <= |pat| && ComponentsFrom(pat, i).Some?
    ensures AllAtoms(ComponentsFrom(pat, i).value)
    decreases |pat| - i
  {
    var e := CompAt(pat, i).value.1;
    if e < |pat| {
      ComponentsAtoms(pat, PastSlash(pat, e));
    }
  }

  /** The position starts a component. */
  predicate StartsAt(pat: seq<Byte>, i: nat) { i <= |pat| && (i == 0 || pat[i - 1] == SLASH) }

  /** What is read, with every slash a separator, is the tokens a followed by b. */
  ghost predicate Reads(r: Option<seq<Tok>>, a: seq<Tok>, b: seq<Tok>) { r.Some? && Plains(r.value) == a + b }

  /** The scan of a pattern's rest, from a component that is no double star on. */
  lemma {:induction false} ScanRest(pat: seq<Byte>, i: nat, out: seq<Tok>, cs: seq<Comp>)
    requires StartsAt(pat, i) && ComponentsFrom(pat, i) == Some(cs) && cs[0].Flat?
    ensures Ready(Collapsed(cs)) && Reads(Scan(pat, i, out), Plains(out), LowerFlat(Collapsed(cs)))
    decreases |pat| - i, 0
  {
    var ts, e := cs[0].toks, CompAt(pat, i).value.1;
    ComponentsStep(pat, i, cs);
    ComponentsAtoms(pat, i);
    CollapsedSpaced(cs);
    ScanFlat(pat, i, out);
    PlainsAtoms(out, ts);
    if e == |pat| {
      assert cs[1..] == [] && Collapsed(cs) == [cs[0]];
    } else {
      ScanSlash(pat, e, out + ts);
      PlainsOne(out + ts, SlashTok(pat, e));
      ScanNext(pat, PastSlash(pat, e), out, ts, SlashTok(pat, e), cs);
    }
  }

  /** After a component and its slash. */
  lemma {:induction false} ScanNext(pat: seq<Byte>, i: nat, out: seq<Tok>, ts: seq<Tok>, last: Tok, cs: seq<Comp>)
    requires 0 < i && StartsAt(pat, i) && |cs| > 1 && cs[0] == Flat(ts) && ComponentsFrom(pat, i) == Some(cs[1..])
    requires Ready(Collapsed(cs)) && Plain(last) == Sep && Plains(out + ts) == Plains(out) + ts
    ensures Reads(Scan(pat, i, out + ts + [last]), Plains(out), LowerFlat(Collapsed(cs)))
    decreases |pat| - i, 1
  {
    var ds := Collapsed(cs);
    assert ds[0] == cs[0] && ds[1..] == Collapsed(cs[1..]);
    CollapsedHead(cs[1..]);
    assert ds[1] == ds[1..][0];
    LowerStep(ds, Plains(out));
    if cs[1].Flat? {
      PlainsOne(out + ts, last);
      ScanRest(pat, i, out + ts + [last], cs[1..]);
    } else {
      ScanAfterDeep(pat, i, out + ts, last, cs[1..]);
    }
  }

  lemma {:induction false} ScanAfterDeep(pat: seq<Byte>, i: nat, out: seq<Tok>, last: Tok, cs: seq<Comp>)
    requires 0 < i && StartsAt(pat, i) && ComponentsFrom(pat, i) == Some(cs) && cs[0].Deep?
    ensures Spaced(Collapsed(cs)) && Collapsed(cs) != [] && Collapsed(cs)[0].Deep?
    ensures Reads(Scan(pat, i, out + [last]), Plains(out), AfterDeep(Collapsed(cs)))
    decreases |pat| - i, 0
  {
    DeepPlace(pat, i, cs);
    ScanDeep(pat, i, out, last);
    CollapsedDeep(cs);
    if |cs| == 1 {
      PlainsOne(out, SlashDStar);
    } else if cs[1].Deep? {
      ScanAfterDeep(pat, i + 3, out, SlashDStarSlash, cs[1..]);
    } else {
      PlainsOne(out, SlashDStarSlash);
      ScanRest(pat, i + 3, out + [SlashDStarSlash], cs[1..]);
      AfterDeepStep(Collapsed(cs), Plains(out));
    }
  }

  /** Where a double star stands, and what follows it. */
  lemma {:induction false} DeepPlace(pat: seq<Byte>, i: nat, cs: seq<Comp>)
    requires i <= |pat| && ComponentsFrom(pat, i) == Some(cs) && cs[0].Deep?
    ensures DeepAt(pat, i) && (|cs| == 1 <==> i + 2 == |pat|)
    ensures |cs| > 1 ==> StartsAt(pat, i + 3) && ComponentsFrom(pat, i + 3) == Some(cs[1..])
    ensures Spaced(Collapsed(cs)) && Collapsed(cs) != [] && Collapsed(cs)[0].Deep?
  {
    ComponentsStep(pat, i, cs);
    ComponentsAtoms(pat, i);
    CollapsedSpaced(cs);
    CollapsedHead(cs);
  }

  lemma {:induction false} CollapsedDeep(cs: seq<Comp>)
    requires cs != [] && cs[0].Deep?
    ensures |cs| == 1 ==> Collapsed(cs) == [Deep]
    ensures |cs| > 1 && cs[1].Deep? ==> Collapsed(cs) == Collapsed(cs[1..])
    ensures |cs| > 1 && cs[1].Flat? ==> |Collapsed(cs)| > 1 && Collapsed(cs)[1..] == Collapsed(cs[1..])
  {
    if |cs| == 1 {
      assert cs[1..] == [];
    } else {
      CollapsedHead(cs[1..]);
    }
  }

  /** A pattern is refused exactly when one of its components is. */
  lemma {:induction false} ScanRefuses(pat: seq<Byte>, i: nat, out: seq<Tok>)
    requires StartsAt(pat, i) && ComponentsFrom(pat, i).None?
    ensures Scan(pat, i, out).None?
    decreases |pat| - i
  {
    if DeepAt(pat, i) {
      var next := StepAt(pat, i, out).value.1;
      ScanStep(pat, i, out, i + 3, next);
      ScanRefuses(pat, i + 3, next);
    } else {
      ScanFlat(pat, i, out);
      if FlatFrom(pat, i).Some? {
        var ts, e := FlatFrom(pat, i).value.0, FlatFrom(pat, i).value.1;
        ScanSlash(pat, e, out + ts);
        ScanRefuses(pat, PastSlash(pat, e), out + ts + [SlashTok(pat, e)]);
      }
    }
  }

  /** A pattern that starts with a double star. */
  lemma {:induction false} ScanLeading(pat: seq<Byte>, cs: seq<Comp>)
    requires Components(pat) == Some(cs) && cs[0].Deep? && |cs| > 1
    ensures WellSpaced(Squeezed(cs)) && Reads(Scan(pat, 0, []), [], Lower(Squeezed(cs)))
  {
    DeepPlace(pat, 0, cs);
    assert DoubleAt(pat, 0);
    assert [] + [DStarSlash] == [DStarSlash];
    ScanStep(pat, 0, [], 3, [DStarSlash]);
    if cs[1].Flat? {
      assert Collapsed(cs)[1..] == Collapsed(cs[1..]);
      ScanRest(pat, 3, [DStarSlash], cs[1..]);
      PlainsOne([], DStarSlash);
    } else {
      ScanAfterDeep(pat, 3, [], DStarSlash, cs[1..]);
      LeadingLower(Collapsed(cs));
    }
  }

  lemma {:induction false} LeadingLower(ds: seq<Comp>)
    requires Spaced(ds) && ds != [] && ds[0].Deep?
    ensures WellSpaced([Flat([])] + ds) && Lower([Flat([])] + ds) == AfterDeep(ds)
  {
    var cs := [Flat([])] + ds;
    SpacedCons(Flat([]), ds);
    SpacedTail(ds, 1);
    assert cs[2..] == ds[1..];
  }

  /** Every pattern compiles to the tokens of its components, up to how a slash is written. */
  lemma {:induction false} CompileIsLower(pat: seq<Byte>)
    ensures Scan(pat, 0, []).Some? <==> Components(pat).Some?
    ensures Components(pat).Some? && Components(pat).value != [Deep] ==>
      && WellSpaced(Squeezed(Components(pat).value))
      && Plains(Scan(pat, 0, []).value) == Lower(Squeezed(Components(pat).value))
    ensures Components(pat) == Some([Deep]) ==> Scan(pat, 0, []) == Some([DStarSlash])
  {
    if Components(pat).None? {
      ScanRefuses(pat, 0, []);
    } else {
      var cs := Components(pat).value;
      ComponentsStep(pat, 0, cs);
      if cs[0].Flat? {
        ScanRest(pat, 0, [], cs);
        assert Plains([]) + LowerFlat(Collapsed(cs)) == LowerFlat(Collapsed(cs));
      } else if |cs| > 1 {
        ScanLeading(pat, cs);
        assert [] + Lower(Squeezed(cs)) == Lower(Squeezed(cs));
      } else {
        assert cs == [Deep] && DoubleAt(pat, 0);
        assert [] + [DStarSlash] == [DStarSlash];
      }
    }
  }

  /** What a compiled pattern matches, on every path as gyt writes them. */
  lemma {:induction false} PatternMeaning(pat: seq<Byte>, w: seq<Byte>)
    requires Components(pat).Some? && Normal(w)
    ensures Scan(pat, 0, []).Some?
    ensures Accepts(Scan(pat, 0, []).value, w) <==>
      Components(pat).value != [Deep] && Stands(Squeezed(Components(pat).value), Names(w), true)
  {
    var cs := Components(pat).value;
    CompileIsLower(pat);
    if cs == [Deep] {
      LeadingAlone(w);
    } else {
      PlainsAccept(Scan(pat, 0, []).value, w);
      LowerStands(Squeezed(cs), w);
    }
  }

  /** A pattern that starts with two double stars takes no path of one component. */
  lemma {:induction false} LeadDoubledMisses(pat: seq<Byte>, w: seq<Byte>)
    requires Components(pat).Some? && LeadDoubled(Components(pat).value)
    requires w != [] && NoSlash(w)
    ensures Scan(pat, 0, []).Some? && !Accepts(Scan(pat, 0, []).value, w)
  {
    var cs := Components(pat).value;
    var ds := Collapsed(cs);
    NamesNoSlash(w);
    PatternMeaning(pat, w);
    CollapsedHead(cs);
    CompileIsLower(pat);
    var all := Squeezed(cs);
    assert all[1..] == ds && [w][1..] == [];
    assert all[1] == ds[0];
    if |ds| > 1 {
      assert ds[1] == all[2] && ds[1..][0] == ds[1];
      assert all[1].Flat? || all[2].Flat?;
      assert !Stands(ds[1..], [], true);
      assert !Stands(ds, [], true);
    }
  }

  /** The pattern of two stars alone is meant for every path and matches none. */
  lemma {:induction false} DoubleStarAlone(w: seq<Byte>)
    requires Normal(w)
    ensures var pat: seq<Byte> := [42, 42];
            && Components(pat) == Some([Deep]) && Stands([Deep], Names(w), false)
            && Scan(pat, 0, []) == Some([DStarSlash]) && !Accepts([DStarSlash], w)
  {
    var pat: seq<Byte> := [STAR, STAR];
    assert DeepAt(pat, 0);
    DeepTakesAll(Names(w), false);
    CompileIsLower(pat);
    LeadingAlone(w);
  }

  lemma {:induction false} LeadingAlone(w: seq<Byte>)
    requires Normal(w)
    ensures !Accepts([DStarSlash], w)
  {
    NothingAfter(w);
    LeadingAccepts([], w);
    assert [DStarSlash] + [] == [DStarSlash];
  }

  lemma {:induction false} NothingAfter(w: seq<Byte>)
    requires Normal(w)
    ensures w != [] && !PastSome([], w)
    decreases |w|
  {
    NamesNoSlash([]);
    assert Names(w)[0] in Names(w);
    PastSomeStep([], w);
    if FirstSlash(w) < |w| {
      NormalRest(w);
      NothingAfter(w[FirstSlash(w) + 1..]);
    }
  }

  /** The pattern a/STAR STAR/b, for one, also takes the path ax/b, which it does not stand for. */
  lemma {:induction false} OverrunText()
    ensures var pat: seq<Byte>, w: seq<Byte> := [97, 47, 42, 42, 47, 98], [97, 120, 47, 98];
      && Components(pat) == Some([Flat([Lit(97)]), Deep, Flat([Lit(98)])]) && Normal(w)
      && Scan(pat, 0, []).Some? && Accepts(Scan(pat, 0, []).value, w)
      && !Stands(Components(pat).value, Names(w), false)
  {
    var pat: seq<Byte>, w: seq<Byte> := [97, SLASH, STAR, STAR, SLASH, 98], [97, 120, SLASH, 98];
    OverrunComponents(pat);
    OverrunExample();
    CompileIsLower(pat);
    var cs := Components(pat).value;
    assert cs[1..] == [Deep, Flat([Lit(98)])] && cs[1..][1..] == [Flat([Lit(98)])] && cs[1..][1..][1..] == [];
    assert Collapsed(cs[1..][1..]) == [Flat([Lit(98)])];
    assert Squeezed(cs) == cs;
    PlainsAccept(Scan(pat, 0, []).value, w);
  }

  lemma {:induction false} OverrunComponents(pat: seq<Byte>)
    requires pat == [97, SLASH, STAR, STAR, SLASH, 98]
    ensures Components(pat) == Some([Flat([Lit(97)]), Deep, Flat([Lit(98)])])
  {
    assert FlatFrom(pat, 6) == Some(([], 6));
    OneLetter(pat, 5);
    assert ComponentsFrom(pat, 5) == Some([Flat([Lit(98)])]);
    assert CompAt(pat, 2) == Some((Deep, 4)) && PastSlash(pat, 4) == 5;
    assert [Deep] + [Flat([Lit(98)])] == [Deep, Flat([Lit(98)])];
    assert ComponentsFrom(pat, 2) == Some([Deep, Flat([Lit(98)])]);
    assert FlatFrom(pat, 1) == Some(([], 1));
    OneLetter(pat, 0);
    assert [Flat([Lit(97)])] + [Deep, Flat([Lit(98)])] == [Flat([Lit(97)]), Deep, Flat([Lit(98)])];
  }

  lemma {:induction false} OneLetter(pat: seq<Byte>, i: nat)
    requires i < |pat| && (pat[i] == 97 || pat[i] == 98) && FlatFrom(pat, i + 1) == Some(([], i + 1))
    ensures FlatFrom(pat, i) == Some(([Lit(pat[i])], i + 1))
  {
    assert [Lit(pat[i])] + [] == [Lit(pat[i])];
  }

  // When a pattern's text is matched component by component.

  /** Every component that is no double star takes some name that is not empty. */
  ghost predicate StrictLive(cs: seq<Comp>)
    requires Spaced(cs)
  {
    forall i :: 0 <= i < |cs| ==> cs[i].Flat? ==> cs[i].toks != [] && SatisfiableAll(cs[i].toks)
  }

  lemma {:induction false} StrictLiveStep(cs: seq<Comp>)
    requires Spaced(cs) && cs != []
    ensures Spaced(cs[1..])
    ensures StrictLive(cs) <==>
      (cs[0].Flat? ==> cs[0].toks != [] && SatisfiableAll(cs[0].toks)) && StrictLive(cs[1..])
  {
    SpacedTail(cs, 1);
    assert forall i :: 0 <= i < |cs[1..]| ==> cs[1..][i] == cs[i + 1];
    assert forall i :: 0 < i < |cs| ==> cs[i] == cs[1..][i - 1];
  }

  /** One name for each component that is no double star. */
  lemma {:induction false} StrictWitness(cs: seq<Comp>) returns (names: seq<seq<Byte>>)
    requires Spaced(cs) && StrictLive(cs)
    ensures PlainNames(names) && |names| == FlatCount(cs) && Stands(cs, names, false)
  {
    names := [];
    if cs != [] {
      StrictLiveStep(cs);
      names := StrictWitness(cs[1..]);
      if cs[0].Flat? {
        var u := SampleName(cs[0].toks);
        var rest := names;
        names := [u] + rest;
        assert names[1..] == rest;
      }
    }
  }

  lemma {:induction false} StandsStrictLive(cs: seq<Comp>, names: seq<seq<Byte>>)
    requires Spaced(cs) && PlainNames(names) && Stands(cs, names, false)
    ensures StrictLive(cs)
    decreases |cs| + |names|
  {
    if cs != [] {
      StrictLiveStep(cs);
      if cs[0].Deep? {
        if Stands(cs[1..], names, false) {
          StandsStrictLive(cs[1..], names);
        } else {
          StandsStrictLive(cs, names[1..]);
        }
      } else {
        StandsStrictLive(cs[1..], names[1..]);
        TakesAtLeast(cs[0].toks, names[0]);
      }
    }
  }

  /** The pattern matches exactly the paths that its components stand for, one by one. */
  ghost predicate MatchesByComponents(pat: seq<Byte>)
    requires Components(pat).Some? && Scan(pat, 0, []).Some?
  {
    forall w: seq<Byte> :: Normal(w) ==>
      (Accepts(Scan(pat, 0, []).value, w) <==> Stands(Components(pat).value, Names(w), false))
  }

  /** The components are not all double stars; and they can match nothing, or each one before an
      inner double star is open-ended and the pattern does not start with two double stars. */
  ghost predicate Plainly(cs: seq<Comp>)
    requires Spaced(Collapsed(cs))
  {
    Collapsed(cs) != [Deep] && (!Live(Collapsed(cs)) || (AllOpen(Collapsed(cs)) && !LeadDoubled(cs)))
  }

  /** A pattern of double stars only is meant for every path, and does not take the path a. */
  lemma {:induction false} AllDeepDiffers(pat: seq<Byte>)
    requires Components(pat).Some? && Collapsed(Components(pat).value) == [Deep]
    ensures Scan(pat, 0, []).Some? && !MatchesByComponents(pat)
  {
    var cs, w: seq<Byte> := Components(pat).value, [97];
    NamesNoSlash(w);
    PatternMeaning(pat, w);
    DeepTakesAll(Names(w), false);
    CollapsedStands(cs, Names(w));
    CollapsedLength(cs);
    CollapsedHead(cs);
    if |cs| > 1 {
      LeadDoubledMisses(pat, w);
    }
    assert Normal(w);
  }

  lemma {:induction false} CollapsedLength(cs: seq<Comp>)
    ensures |cs| > 1 && !LeadDoubled(cs) ==> |Collapsed(cs)| > 1
    ensures cs == [Deep] ==> Collapsed(cs) == [Deep]
  {
    if |cs| > 1 {
      CollapsedHead(cs[1..]);
    } else if |cs| == 1 {
      assert cs[1..] == [];
    }
  }

  /** Starting with two double stars costs a component, so a live pattern misses its shortest paths. */
  lemma {:induction false} LeadDoubledDiffers(pat: seq<Byte>)
    requires Components(pat).Some? && LeadDoubled(Components(pat).value)
    requires Spaced(Collapsed(Components(pat).value)) && Collapsed(Components(pat).value) != [Deep]
    requires Live(Collapsed(Components(pat).value))
    ensures Scan(pat, 0, []).Some? && !MatchesByComponents(pat)
  {
    var cs := Components(pat).value;
    var ds := Collapsed(cs);
    CollapsedHead(cs);
    var names := LeadDoubledWitness(ds);
    var w := PathOf(names);
    PatternMeaning(pat, w);
    CollapsedStands(cs, names);
  }

  lemma {:induction false} LeadDoubledWitness(ds: seq<Comp>) returns (names: seq<seq<Byte>>)
    requires Spaced(ds) && ds != [] && ds[0].Deep? && ds != [Deep] && Live(ds)
    ensures names != [] && PlainNames(names)
    ensures Stands([Flat([])] + ds, names, true) != Stands(ds, names, false)
  {
    var all := [Flat([])] + ds;
    assert |ds| > 1 && ds[1].Flat?;
    SpacedCons(Flat([]), ds);
    assert all[1..] == ds;
    assert FlatCount(ds) > 0 by {
      assert ds[1..][0] == ds[1];
    }
    if StrictLive(ds) {
      names := StrictWitness(ds);
      if Stands(all, names, true) { EnoughNames(all, names, true); }
    } else {
      names := Witness(all);
      if Stands(ds, names, false) { StandsStrictLive(ds, names); }
    }
  }

  /** A pattern that starts with two double stars and can match nothing does match nothing. */
  lemma {:induction false} LeadDoubledDead(pat: seq<Byte>, w: seq<Byte>)
    requires Components(pat).Some? && LeadDoubled(Components(pat).value) && Normal(w)
    requires Spaced(Collapsed(Components(pat).value)) && !Live(Collapsed(Components(pat).value))
    ensures Scan(pat, 0, []).Some? && !Accepts(Scan(pat, 0, []).value, w)
    ensures !Stands(Components(pat).value, Names(w), false)
  {
    var cs := Components(pat).value;
    var ds := Collapsed(cs);
    var all := [Flat([])] + ds;
    CollapsedHead(cs);
    NamesPlain(w);
    PatternMeaning(pat, w);
    CollapsedStands(cs, Names(w));
    if Stands(ds, Names(w), false) { StandsLive(ds, Names(w), false); }
    SpacedCons(Flat([]), ds);
    assert all[1..] == ds;
    if Stands(all, Names(w), true) { StandsLive(all, Names(w), true); }
  }

  /** Without two leading double stars, the pattern is its collapsed components. */
  lemma {:induction false} CollapsedMatches(pat: seq<Byte>, w: seq<Byte>)
    requires Components(pat).Some? && !LeadDoubled(Components(pat).value) && Components(pat).value != [Deep] && Normal(w)
    ensures Scan(pat, 0, []).Some? && WellSpaced(Collapsed(Components(pat).value))
    ensures Accepts(Scan(pat, 0, []).value, w) <==> Accepts(Lower(Collapsed(Components(pat).value)), w)
    ensures Stands(Components(pat).value, Names(w), false) <==> Stands(Collapsed(Components(pat).value), Names(w), false)
  {
    var cs := Components(pat).value;
    CompileIsLower(pat);
    PlainsAccept(Scan(pat, 0, []).value, w);
    CollapsedStands(cs, Names(w));
  }

  /**
    * For every pattern that compiles: it is matched component by component, on all paths, exactly
    * when its components are not all double stars and either can match nothing, or are open-ended
    * before every inner double star and do not start with two double stars.
    */
  lemma {:induction false} MatchesByComponentsIff(pat: seq<Byte>)
    requires Components(pat).Some?
    ensures Scan(pat, 0, []).Some? && Spaced(Collapsed(Components(pat).value))
    ensures MatchesByComponents(pat) <==> Plainly(Components(pat).value)
  {
    var cs := Components(pat).value;
    CompileIsLower(pat);
    ComponentsAtoms(pat, 0);
    CollapsedSpaced(cs);
    if Collapsed(cs) == [Deep] {
      AllDeepDiffers(pat);
    } else if LeadDoubled(cs) {
      if Live(Collapsed(cs)) {
        LeadDoubledDiffers(pat);
      } else {
        forall w: seq<Byte> | Normal(w)
          ensures Accepts(Scan(pat, 0, []).value, w) <==> Stands(cs, Names(w), false)
        {
          LeadDoubledDead(pat, w);
        }
      }
    } else {
      CollapsedIff(pat);
    }
  }

  lemma {:induction false} CollapsedIff(pat: seq<Byte>)
    requires Components(pat).Some? && !LeadDoubled(Components(pat).value)
    requires Collapsed(Components(pat).value) != [Deep] && Spaced(Collapsed(Components(pat).value))
    ensures Scan(pat, 0, []).Some?
    ensures MatchesByComponents(pat) <==>
      AllOpen(Collapsed(Components(pat).value)) || !Live(Collapsed(Components(pat).value))
  {
    var cs := Components(pat).value;
    var ds := Collapsed(cs);
    CompileIsLower(pat);
    CollapsedLength(cs);
    ComponentwiseIff(ds);
    if Componentwise(ds) {
      forall w: seq<Byte> | Normal(w)
        ensures Accepts(Scan(pat, 0, []).value, w) <==> Stands(cs, Names(w), false)
      {
        CollapsedMatches(pat, w);
      }
    }
    if MatchesByComponents(pat) {
      forall w: seq<Byte> | Normal(w) ensures Accepts(Lower(ds), w) <==> Stands(ds, Names(w), false) {
        CollapsedMatches(pat, w);
      }
    }
  }
}
