/** Ignore patterns read component by component. */
module GlobComponents {
  // What the tokens of a pattern accept, and when that is what the pattern's components say.

  import opened Bytes
  import opened Glob

  // Paths and their components.

  function FirstSlash(w: seq<Byte>): (f: nat)
    ensures f <= |w| && NoSlash(w[..f]) && (f < |w| ==> w[f] == SLASH)
  {
    if w == [] || w[0] == SLASH then 0 else FirstSlash(w[1..]) + 1
  }

  /** The pieces between slashes. */
  function Names(w: seq<Byte>): (names: seq<seq<Byte>>)
    ensures names != []
    decreases |w|
  {
    var f := FirstSlash(w);
    if f == |w| then [w] else [w[..f]] + Names(w[f + 1..])
  }

  lemma {:induction false} FirstSlashIs(w: seq<Byte>, f: nat)
    requires f <= |w| && NoSlash(w[..f]) && (f < |w| ==> w[f] == SLASH)
    ensures FirstSlash(w) == f
  {
    var g := FirstSlash(w);
    assert forall i :: 0 <= i < f ==> w[..f][i] == w[i];
    assert forall i :: 0 <= i < g ==> w[..g][i] == w[i];
  }

  lemma {:induction false} NamesNoSlash(w: seq<Byte>)
    requires NoSlash(w)
    ensures Names(w) == [w]
  {
    assert w[..|w|] == w;
    FirstSlashIs(w, |w|);
  }

  lemma {:induction false} NamesCons(u: seq<Byte>, v: seq<Byte>)
    requires NoSlash(u)
    ensures Names(u + [SLASH] + v) == [u] + Names(v)
  {
    var w := u + [SLASH] + v;
    assert w[..|u|] == u && w[|u| + 1..] == v;
    FirstSlashIs(w, |u|);
  }

  /** A path as gyt writes it has no empty component. */
  ghost predicate Normal(w: seq<Byte>) { [] !in Names(w) }

  lemma {:induction false} NormalRest(w: seq<Byte>)
    requires Normal(w) && FirstSlash(w) < |w|
    ensures Normal(w[FirstSlash(w) + 1..]) && FirstSlash(w) > 0 && FirstSlash(w) + 1 < |w|
  {
    var f := FirstSlash(w);
    assert Names(w) == [w[..f]] + Names(w[f + 1..]);
    var rest := w[f + 1..];
    assert forall i :: 0 <= i < |Names(rest)| ==> Names(w)[i + 1] == Names(rest)[i];
    assert Names(w)[0] == w[..f];
    var none: seq<Byte> := [];
    NamesNoSlash(none);
    assert Names(none)[0] == none;
  }

  // Patterns.

  /** One component of a pattern: a double star, or tokens that stay inside a component. */
  datatype Comp = Deep | Flat(toks: seq<Tok>)

  predicate Atom(t: Tok) { t.Any? || t.Class? || t.Star? || (t.Lit? && t.byte != SLASH) }

  predicate Atoms(ts: seq<Tok>) { forall i :: 0 <= i < |ts| ==> Atom(ts[i]) }

  /** No two double stars side by side. */
  predicate Spaced(cs: seq<Comp>) {
    forall i {:trigger cs[i]} :: 0 <= i < |cs| ==>
      && (cs[i].Flat? ==> Atoms(cs[i].toks))
      && (i + 1 < |cs| ==> cs[i].Flat? || cs[i + 1].Flat?)
  }

  predicate Ready(cs: seq<Comp>) { cs != [] && Spaced(cs) && cs[0].Flat? }

  lemma {:induction false} SpacedTail(cs: seq<Comp>, n: nat)
    requires Spaced(cs) && n <= |cs|
    ensures Spaced(cs[n..])
  {
    forall i {:trigger cs[n..][i]} | 0 <= i < |cs[n..]|
      ensures cs[n..][i].Flat? ==> Atoms(cs[n..][i].toks)
      ensures i + 1 < |cs[n..]| ==> cs[n..][i].Flat? || cs[n..][i + 1].Flat?
    {
      assert cs[n..][i] == cs[n + i];
    }
  }

  /** A double star that has a component after it swallows that component's slash too. */
  predicate BeforeInner(cs: seq<Comp>) { |cs| > 2 && cs[1].Deep? }

  /** The tokens of a pattern whose first component is not a double star. */
  function LowerFlat(cs: seq<Comp>): seq<Tok>
    requires Ready(cs)
    decreases |cs|
  {
    SpacedTail(cs, 1);
    if |cs| == 1 then cs[0].toks
    else if cs[1].Flat? then cs[0].toks + ([Sep] + LowerFlat(cs[1..]))
    else if |cs| == 2 then cs[0].toks + [SlashDStar]
    else
      SpacedTail(cs, 2);
      cs[0].toks + ([SlashDStarSlash] + LowerFlat(cs[2..]))
  }

  predicate WellSpaced(cs: seq<Comp>) { cs != [] && cs != [Deep] && Spaced(cs) }

  /** The tokens of a pattern. */
  function Lower(cs: seq<Comp>): seq<Tok>
    requires WellSpaced(cs)
  {
    if cs[0].Flat? then LowerFlat(cs)
    else
      SpacedTail(cs, 1);
      [DStarSlash] + LowerFlat(cs[1..])
  }

  ghost predicate PrefixAccepted(ts: seq<Tok>, name: seq<Byte>) {
    exists k: nat :: k <= |name| && Accepts(ts, name[..k])
  }

  /**
    * A pattern read component by component: a double star stands for any number of components,
    * every other component for one. With loose set, the component before an inner double star
    * need only take a prefix of its name.
    */
  ghost predicate Stands(cs: seq<Comp>, names: seq<seq<Byte>>, loose: bool)
    decreases |cs| + |names|
  {
    if cs == [] then names == []
    else if cs[0].Deep? then
      Stands(cs[1..], names, loose) || (names != [] && Stands(cs, names[1..], loose))
    else
      && names != []
      && (if loose && BeforeInner(cs) then PrefixAccepted(cs[0].toks, names[0])
          else Accepts(cs[0].toks, names[0]))
      && Stands(cs[1..], names[1..], loose)
  }

  // Acceptance of token runs.

  ghost predicate CutAt(ts: seq<Tok>, us: seq<Tok>, w: seq<Byte>, k: nat) {
    k <= |w| && Accepts(ts, w[..k]) && Accepts(us, w[k..])
  }

  /** Tokens inside a component take a slash-free prefix and leave the rest. */
  lemma {:induction false} AcceptsAppend(ts: seq<Tok>, us: seq<Tok>, w: seq<Byte>)
    requires Atoms(ts)
    ensures Accepts(ts + us, w) <==> exists k: nat :: CutAt(ts, us, w, k)
  {
    if ts == [] {
      assert ts + us == us && w[..0] == [] && w[0..] == w;
      if Accepts(us, w) {
        assert CutAt(ts, us, w, 0);
      }
    } else {
      assert (ts + us)[0] == ts[0] && (ts + us)[1..] == ts[1..] + us;
      if Accepts(ts + us, w) {
        var i: nat :| Fits(ts[0], w, i) && Accepts(ts[1..] + us, w[i..]);
        AcceptsAppend(ts[1..], us, w[i..]);
        var j: nat :| CutAt(ts[1..], us, w[i..], j);
        JoinFirst(ts, us, w, i, j);
      }
      if exists k: nat :: CutAt(ts, us, w, k) {
        var k: nat :| CutAt(ts, us, w, k);
        var i := CutFirst(ts, us, w, k);
        AcceptsAppend(ts[1..], us, w[i..]);
      }
    }
  }

  lemma {:induction false} JoinFirst(ts: seq<Tok>, us: seq<Tok>, w: seq<Byte>, i: nat, j: nat)
    requires ts != [] && Atoms(ts) && Fits(ts[0], w, i) && CutAt(ts[1..], us, w[i..], j)
    ensures CutAt(ts, us, w, i + j)
  {
    var u := w[..i + j];
    assert u[..i] == w[..i] && u[i..] == w[i..][..j];
    assert w[i..][j..] == w[i + j..];
    assert Fits(ts[0], u, i);
  }

  /** A token inside a component does not mind what follows its piece. */
  lemma {:induction false} FitsLonger(t: Tok, w: seq<Byte>, k: nat, i: nat)
    requires Atom(t) && k <= |w| && Fits(t, w[..k], i)
    ensures i <= k && Fits(t, w, i)
  {
    assert w[..k][..i] == w[..i];
  }

  lemma {:induction false} SliceTwice(w: seq<Byte>, k: nat, i: nat)
    requires i <= k <= |w|
    ensures w[i..][..k - i] == w[..k][i..] && w[i..][k - i..] == w[k..]
  {
  }

  lemma {:induction false} CutFirst(ts: seq<Tok>, us: seq<Tok>, w: seq<Byte>, k: nat) returns (i: nat)
    requires ts != [] && Atoms(ts) && CutAt(ts, us, w, k)
    ensures Fits(ts[0], w, i) && i <= k && CutAt(ts[1..], us, w[i..], k - i)
  {
    i :| Fits(ts[0], w[..k], i) && Accepts(ts[1..], w[..k][i..]);
    FitsLonger(ts[0], w, k, i);
    SliceTwice(w, k, i);
  }

  /** What tokens inside a component take has no slash. */
  lemma {:induction false} AtomsNoSlash(ts: seq<Tok>, w: seq<Byte>)
    requires Atoms(ts) && Accepts(ts, w)
    ensures NoSlash(w)
  {
    if ts != [] {
      var i: nat :| Fits(ts[0], w, i) && Accepts(ts[1..], w[i..]);
      AtomsNoSlash(ts[1..], w[i..]);
      assert w == w[..i] + w[i..];
    }
  }

  // From tokens to components.

  /** One slash token after a component. */
  lemma {:induction false} SepAccepts(us: seq<Tok>, w: seq<Byte>)
    ensures Accepts([Sep] + us, w) <==> w != [] && w[0] == SLASH && Accepts(us, w[1..])
  {
    assert ([Sep] + us)[1..] == us;
    assert w != [] && w[0] == SLASH ==> Fits(Sep, w, 1);
  }

  lemma {:induction false} FlatThenSep(ts: seq<Tok>, us: seq<Tok>, w: seq<Byte>)
    requires Atoms(ts)
    ensures var f := FirstSlash(w);
            Accepts(ts + ([Sep] + us), w) <==> f < |w| && Accepts(ts, w[..f]) && Accepts(us, w[f + 1..])
  {
    var f := FirstSlash(w);
    AcceptsAppend(ts, [Sep] + us, w);
    if Accepts(ts + ([Sep] + us), w) {
      var k: nat :| CutAt(ts, [Sep] + us, w, k);
      SepAccepts(us, w[k..]);
      AtomsNoSlash(ts, w[..k]);
      FirstSlashIs(w, k);
      assert w[k..][1..] == w[k + 1..];
    }
    if f < |w| && Accepts(ts, w[..f]) && Accepts(us, w[f + 1..]) {
      SepAccepts(us, w[f..]);
      assert w[f..][1..] == w[f + 1..];
      assert CutAt(ts, [Sep] + us, w, f);
    }
  }

  ghost predicate SlashThen(us: seq<Tok>, w: seq<Byte>, i: nat) {
    i < |w| && w[i] == SLASH && Accepts(us, w[i + 1..])
  }

  /** Some slash of w is followed by what us accepts. */
  ghost predicate PastSome(us: seq<Tok>, w: seq<Byte>) { exists i: nat :: SlashThen(us, w, i) }

  lemma {:induction false} InnerAccepts(us: seq<Tok>, w: seq<Byte>)
    ensures Accepts([SlashDStarSlash] + us, w) <==> PastSome(us, w)
  {
    var ts := [SlashDStarSlash] + us;
    assert ts[1..] == us;
    if Accepts(ts, w) {
      var k: nat :| Fits(ts[0], w, k) && Accepts(ts[1..], w[k..]);
      assert w[..k][k - 1] == w[k - 1];
      assert SlashThen(us, w, k - 1);
    }
    if PastSome(us, w) {
      var i: nat :| SlashThen(us, w, i);
      assert w[..i + 1][i] == SLASH;
      assert Fits(ts[0], w, i + 1);
    }
  }

  lemma {:induction false} LeadingAccepts(us: seq<Tok>, w: seq<Byte>)
    ensures Accepts([DStarSlash] + us, w) <==> Accepts(us, w) || PastSome(us, w)
  {
    var ts := [DStarSlash] + us;
    assert ts[1..] == us;
    if Accepts(ts, w) {
      var k: nat :| Fits(ts[0], w, k) && Accepts(ts[1..], w[k..]);
      if k == 0 {
        assert w[0..] == w;
      } else {
        assert w[..k][k - 1] == w[k - 1];
        assert SlashThen(us, w, k - 1);
      }
    }
    if Accepts(us, w) {
      assert w[0..] == w && w[..0] == [];
      assert Fits(ts[0], w, 0);
    }
    if PastSome(us, w) {
      var i: nat :| SlashThen(us, w, i);
      assert w[..i + 1][i] == SLASH;
      assert Fits(ts[0], w, i + 1);
    }
  }

  lemma {:induction false} SlashFurther(us: seq<Tok>, w: seq<Byte>, n: nat, i: nat)
    requires n <= |w|
    ensures SlashThen(us, w[n..], i) <==> SlashThen(us, w, n + i)
  {
    if n + i < |w| {
      assert w[n..][i + 1..] == w[n + i + 1..];
    }
  }

  /** The slashes of w are the first one and those of what follows it. */
  lemma {:induction false} PastSomeStep(us: seq<Tok>, w: seq<Byte>)
    ensures var f := FirstSlash(w);
            PastSome(us, w) <==> f < |w| && (Accepts(us, w[f + 1..]) || PastSome(us, w[f + 1..]))
  {
    var f := FirstSlash(w);
    if PastSome(us, w) {
      var i: nat :| SlashThen(us, w, i);
      assert forall j :: 0 <= j < f ==> w[..f][j] == w[j];
      assert f <= i;
      if f < i {
        SlashFurther(us, w, f + 1, i - f - 1);
      }
    }
    if f < |w| && Accepts(us, w[f + 1..]) {
      assert SlashThen(us, w, f);
    }
    if f < |w| && PastSome(us, w[f + 1..]) {
      var i: nat :| SlashThen(us, w[f + 1..], i);
      SlashFurther(us, w, f + 1, i);
    }
  }

  lemma {:induction false} BeforeFirstSlash(w: seq<Byte>, k: nat)
    requires k <= |w|
    ensures NoSlash(w[..k]) <==> k <= FirstSlash(w)
    ensures k <= FirstSlash(w) ==> w[..FirstSlash(w)][..k] == w[..k]
  {
    var f := FirstSlash(w);
    assert forall j :: 0 <= j < f ==> w[..f][j] == w[j];
    assert forall j :: 0 <= j < k ==> w[..k][j] == w[j];
  }

  lemma {:induction false} PastSomeFrom(us: seq<Tok>, w: seq<Byte>, k: nat)
    requires k <= FirstSlash(w)
    ensures PastSome(us, w) <==> PastSome(us, w[k..])
  {
    if PastSome(us, w) {
      var i: nat :| SlashThen(us, w, i);
      BeforeFirstSlash(w, k);
      assert forall j :: 0 <= j < k ==> w[..k][j] == w[j];
      SlashFurther(us, w, k, i - k);
    }
    if PastSome(us, w[k..]) {
      var i: nat :| SlashThen(us, w[k..], i);
      SlashFurther(us, w, k, i);
    }
  }

  /** A component before an inner double star takes any prefix of its name. */
  lemma {:induction false} FlatThenInner(ts: seq<Tok>, us: seq<Tok>, w: seq<Byte>)
    requires Atoms(ts)
    ensures Accepts(ts + ([SlashDStarSlash] + us), w)
       <==> PrefixAccepted(ts, w[..FirstSlash(w)]) && PastSome(us, w)
  {
    var f := FirstSlash(w);
    var vs := [SlashDStarSlash] + us;
    AcceptsAppend(ts, vs, w);
    if Accepts(ts + vs, w) {
      var k: nat :| CutAt(ts, vs, w, k);
      AtomsNoSlash(ts, w[..k]);
      BeforeFirstSlash(w, k);
      InnerAccepts(us, w[k..]);
      PastSomeFrom(us, w, k);
    }
    if PrefixAccepted(ts, w[..f]) && PastSome(us, w) {
      var k: nat :| k <= |w[..f]| && Accepts(ts, w[..f][..k]);
      BeforeFirstSlash(w, k);
      InnerAccepts(us, w[k..]);
      PastSomeFrom(us, w, k);
      assert CutAt(ts, vs, w, k);
    }
  }

  /** A component before a closing double star takes its whole name. */
  lemma {:induction false} FlatThenClosing(ts: seq<Tok>, w: seq<Byte>)
    requires Atoms(ts) && Normal(w)
    ensures Accepts(ts + [SlashDStar], w) <==> Accepts(ts, w[..FirstSlash(w)])
  {
    var f := FirstSlash(w);
    AcceptsAppend(ts, [SlashDStar], w);
    if Accepts(ts + [SlashDStar], w) {
      var k: nat :| CutAt(ts, [SlashDStar], w, k);
      ClosingAccepts(w[k..]);
      AtomsNoSlash(ts, w[..k]);
      FirstSlashIs(w, k);
    }
    if Accepts(ts, w[..f]) {
      if f < |w| {
        NormalRest(w);
      }
      ClosingAccepts(w[f..]);
      assert CutAt(ts, [SlashDStar], w, f);
    }
  }

  lemma {:induction false} ClosingAccepts(v: seq<Byte>)
    ensures Accepts([SlashDStar], v) <==> v == [] || (v[0] == SLASH && |v| > 1)
  {
    var ts := [SlashDStar];
    assert ts[1..] == [];
    if v == [] || (v[0] == SLASH && |v| > 1) {
      assert v[..|v|] == v && v[|v|..] == [];
      assert Fits(SlashDStar, v, |v|);
    }
    if Accepts(ts, v) {
      var k: nat :| Fits(ts[0], v, k) && Accepts(ts[1..], v[k..]);
      assert k == |v| && v[..k] == v;
    }
  }

  lemma {:induction false} NamesSplit(w: seq<Byte>)
    ensures Names(w)[0] == w[..FirstSlash(w)]
    ensures FirstSlash(w) < |w| ==> Names(w)[1..] == Names(w[FirstSlash(w) + 1..])
    ensures FirstSlash(w) == |w| ==> Names(w)[1..] == []
  {
    assert w[..|w|] == w;
  }

  lemma {:induction false} DeepTakesAll(names: seq<seq<Byte>>, loose: bool)
    ensures Stands([Deep], names, loose)
  {
    if names != [] {
      DeepTakesAll(names[1..], loose);
    }
  }

  /** What a pattern's tokens accept is what its components stand for, loosely. */
  lemma {:induction false} FlatStands(cs: seq<Comp>, w: seq<Byte>)
    requires Ready(cs) && Normal(w)
    ensures Accepts(LowerFlat(cs), w) <==> Stands(cs, Names(w), true)
    decreases |cs|, |w|, 0
  {
    var f := FirstSlash(w);
    var ts := cs[0].toks;
    NamesSplit(w);
    SpacedTail(cs, 1);
    if f < |w| {
      NormalRest(w);
    }
    if |cs| == 1 {
      OneStands(ts, w);
      assert cs[1..] == [];
    } else if cs[1].Flat? {
      FlatThenSep(ts, LowerFlat(cs[1..]), w);
      if f < |w| {
        FlatStands(cs[1..], w[f + 1..]);
      }
    } else if |cs| == 2 {
      FlatThenClosing(ts, w);
      assert cs[1..] == [Deep];
      DeepTakesAll(Names(w)[1..], true);
    } else {
      SpacedTail(cs, 2);
      FlatThenInner(ts, LowerFlat(cs[2..]), w);
      PastSomeStep(LowerFlat(cs[2..]), w);
      assert cs[1..][1..] == cs[2..];
      assert !Stands(cs[2..], [], true) && !Stands(cs[1..], [], true);
      if f < |w| {
        DeepStands(cs[1..], w[f + 1..]);
      }
    }
  }

  lemma {:induction false} OneStands(ts: seq<Tok>, w: seq<Byte>)
    requires Atoms(ts)
    ensures Accepts(ts, w) <==> FirstSlash(w) == |w| && Accepts(ts, w[..FirstSlash(w)])
  {
    assert w[..|w|] == w;
    if Accepts(ts, w) {
      AtomsNoSlash(ts, w);
      FirstSlashIs(w, |w|);
    }
  }

  lemma {:induction false} DeepStands(cs: seq<Comp>, w: seq<Byte>)
    requires |cs| > 1 && cs[0].Deep? && Ready(cs[1..]) && Normal(w)
    ensures Accepts(LowerFlat(cs[1..]), w) || PastSome(LowerFlat(cs[1..]), w) <==> Stands(cs, Names(w), true)
    decreases |cs| - 1, |w|, 1
  {
    var f := FirstSlash(w);
    NamesSplit(w);
    FlatStands(cs[1..], w);
    PastSomeStep(LowerFlat(cs[1..]), w);
    assert !Stands(cs[1..], [], true) && !Stands(cs, [], true);
    if f < |w| {
      NormalRest(w);
      DeepStands(cs, w[f + 1..]);
    }
  }

  /** The tokens of a pattern accept exactly the paths its components loosely stand for. */
  lemma {:induction false} LowerStands(cs: seq<Comp>, w: seq<Byte>)
    requires WellSpaced(cs) && Normal(w)
    ensures Accepts(Lower(cs), w) <==> Stands(cs, Names(w), true)
  {
    if cs[0].Flat? {
      FlatStands(cs, w);
    } else {
      SpacedTail(cs, 1);
      LeadingAccepts(LowerFlat(cs[1..]), w);
      DeepStands(cs, w);
    }
  }

  // When the loose reading is the strict one.

  /** A token that takes every byte a component may hold. */
  ghost predicate Full(t: Tok)
    requires Atom(t)
  {
    t.Star? || forall c: Byte :: c != SLASH ==> Takes(t, c)
  }

  ghost predicate FullAll(ts: seq<Tok>)
    requires Atoms(ts)
  {
    forall i :: 0 <= i < |ts| ==> Full(ts[i])
  }

  /** A component with a star after which every token takes any byte: whatever it takes may go on. */
  ghost predicate OpenEnded(ts: seq<Tok>)
    requires Atoms(ts)
  {
    exists p :: 0 <= p < |ts| && ts[p].Star? && FullAll(ts[p + 1..])
  }

  ghost predicate Satisfiable(t: Tok)
    requires Atom(t)
  {
    t.Star? || exists c: Byte :: c != SLASH && Takes(t, c)
  }

  ghost predicate SatisfiableAll(ts: seq<Tok>)
    requires Atoms(ts)
  {
    forall i :: 0 <= i < |ts| ==> Satisfiable(ts[i])
  }

  /** Every component can take some name; an empty one can only before an inner double star. */
  ghost predicate Live(cs: seq<Comp>)
    requires Spaced(cs)
  {
    cs == [] || (
      SpacedTail(cs, 1);
      && (cs[0].Flat? ==> SatisfiableAll(cs[0].toks) && (cs[0].toks != [] || BeforeInner(cs)))
      && Live(cs[1..]))
  }

  /** Every component before an inner double star is open-ended. */
  ghost predicate AllOpen(cs: seq<Comp>)
    requires Spaced(cs)
  {
    cs == [] || (
      SpacedTail(cs, 1);
      && (cs[0].Flat? && BeforeInner(cs) ==> OpenEnded(cs[0].toks))
      && AllOpen(cs[1..]))
  }

  /** How many bytes the tokens take at least. */
  function MinLength(ts: seq<Tok>): nat {
    if ts == [] then 0 else (if ts[0].Star? then 0 else 1) + MinLength(ts[1..])
  }

  lemma {:induction false} TakesAtLeast(ts: seq<Tok>, w: seq<Byte>)
    requires Atoms(ts) && Accepts(ts, w)
    ensures |w| >= MinLength(ts) && SatisfiableAll(ts)
  {
    if ts != [] {
      var k: nat :| Fits(ts[0], w, k) && Accepts(ts[1..], w[k..]);
      TakesAtLeast(ts[1..], w[k..]);
      assert forall i :: 1 <= i < |ts| ==> ts[i] == ts[1..][i - 1];
      assert Satisfiable(ts[0]) by {
        if !ts[0].Star? {
          assert w[..k][0] != SLASH && Takes(ts[0], w[..k][0]);
        }
      }
    }
  }

  lemma {:induction false} FullTakes(ts: seq<Tok>, w: seq<Byte>)
    requires Atoms(ts) && FullAll(ts) && NoSlash(w) && |w| == MinLength(ts)
    ensures Accepts(ts, w)
  {
    if ts != [] {
      var k := if ts[0].Star? then 0 else 1;
      FullTakes(ts[1..], w[k..]);
      assert Fits(ts[0], w, k);
    }
  }

  /** An open-ended component that takes a prefix of a name takes the name. */
  lemma {:induction false} OpenEndedExtends(ts: seq<Tok>, name: seq<Byte>, k: nat)
    requires Atoms(ts) && OpenEnded(ts) && NoSlash(name) && k <= |name| && Accepts(ts, name[..k])
    ensures Accepts(ts, name)
  {
    var p :| 0 <= p < |ts| && ts[p].Star? && FullAll(ts[p + 1..]);
    var i: nat :| Fits(ts[0], name[..k], i) && Accepts(ts[1..], name[..k][i..]);
    if p == 0 {
      TakesAtLeast(ts[1..], name[..k][i..]);
      var m := |name| - MinLength(ts[1..]);
      FullTakes(ts[1..], name[m..]);
      assert Fits(ts[0], name, m);
    } else {
      assert name[..k][..i] == name[..i] && name[..k][i..] == name[i..][..k - i];
      assert ts[1..][p - 1].Star? && ts[1..][p..] == ts[p + 1..];
      OpenEndedExtends(ts[1..], name[i..], k - i);
      assert Fits(ts[0], name, i);
    }
  }

  /** Tokens without a star take as many bytes as they are. */
  lemma {:induction false} SinglesTake(ts: seq<Tok>, w: seq<Byte>, j: nat)
    requires Atoms(ts) && (forall i :: 0 <= i < |ts| ==> !ts[i].Star?) && Accepts(ts, w)
    ensures |w| == |ts|
    ensures j < |ts| ==> Takes(ts[j], w[j])
  {
    if ts != [] {
      var k: nat :| Fits(ts[0], w, k) && Accepts(ts[1..], w[k..]);
      assert w[..k][0] == w[0];
      if j == 0 {
        SinglesTake(ts[1..], w[k..], 0);
      } else {
        SinglesTake(ts[1..], w[k..], j - 1);
      }
    }
  }

  ghost predicate LastStar(ts: seq<Tok>, p: int) {
    && -1 <= p < |ts|
    && (p >= 0 ==> ts[p].Star?)
    && forall i :: p < i < |ts| ==> !ts[i].Star?
  }

  lemma {:induction false} FindLastStar(ts: seq<Tok>) returns (p: int)
    ensures LastStar(ts, p)
  {
    p := |ts| - 1;
    while p >= 0 && !ts[p].Star?
      invariant -1 <= p < |ts|
      invariant forall i :: p < i < |ts| ==> !ts[i].Star?
    {
      p := p - 1;
    }
  }

  ghost predicate Padded(w: seq<Byte>, c: Byte, n: nat) {
    n <= |w| && forall i :: |w| - n <= i < |w| ==> w[i] == c
  }

  /** The byte c, repeated, is refused by the tokens after any name. */
  ghost predicate Stops(ts: seq<Tok>, c: Byte) {
    c != SLASH && forall w: seq<Byte> :: Padded(w, c, |ts| + 1) ==> !Accepts(ts, w)
  }

  lemma {:induction false} PadRefused(ts: seq<Tok>, p: int, j: nat, c: Byte, w: seq<Byte>)
    requires Atoms(ts) && LastStar(ts, p) && p < j < |ts| && !Takes(ts[j], c) && Padded(w, c, |ts| + 1)
    ensures !Accepts(ts, w)
  {
    if Accepts(ts, w) {
      var front, tail := ts[..p + 1], ts[p + 1..];
      assert ts == front + tail;
      AcceptsAppend(front, tail, w);
      var k: nat :| CutAt(front, tail, w, k);
      SinglesTake(tail, w[k..], j - p - 1);
    }
  }

  /** A component that is not open-ended can be overrun. */
  lemma {:induction false} Overrun(ts: seq<Tok>) returns (c: Byte)
    requires Atoms(ts) && !OpenEnded(ts)
    ensures Stops(ts, c)
  {
    var p := FindLastStar(ts);
    if p < 0 {
      c := 97;
      forall w: seq<Byte> | Padded(w, c, |ts| + 1) ensures !Accepts(ts, w) {
        if Accepts(ts, w) {
          SinglesTake(ts, w, 0);
        }
      }
    } else {
      assert !FullAll(ts[p + 1..]);
      var i :| 0 <= i < |ts[p + 1..]| && !Full(ts[p + 1..][i]);
      var j := p + 1 + i;
      assert ts[j] == ts[p + 1..][i];
      c :| c != SLASH && !Takes(ts[j], c);
      forall w: seq<Byte> | Padded(w, c, |ts| + 1) ensures !Accepts(ts, w) {
        PadRefused(ts, p, j, c, w);
      }
    }
  }

  /** A name that the tokens take, empty only if there are none. */
  lemma {:induction false} SampleName(ts: seq<Tok>) returns (u: seq<Byte>)
    requires Atoms(ts) && SatisfiableAll(ts)
    ensures Accepts(ts, u) && NoSlash(u) && (ts != [] ==> u != [])
  {
    if ts == [] {
      u := [];
    } else {
      assert Satisfiable(ts[0]);
      assert forall i :: 0 <= i < |ts[1..]| ==> ts[1..][i] == ts[i + 1];
      var rest := SampleName(ts[1..]);
      var c: Byte := 97;
      if !ts[0].Star? {
        c :| c != SLASH && Takes(ts[0], c);
      }
      u := [c] + rest;
      assert u[..1] == [c] && u[1..] == rest;
      assert Fits(ts[0], u, 1);
    }
  }

  /** A name whose prefix the tokens take, but which they refuse unless they are open-ended. */
  lemma {:induction false} OverrunName(ts: seq<Tok>) returns (u: seq<Byte>)
    requires Atoms(ts) && SatisfiableAll(ts)
    ensures PrefixAccepted(ts, u) && NoSlash(u) && u != []
    ensures Accepts(ts, u) ==> OpenEnded(ts)
  {
    u := SampleName(ts);
    assert u[..|u|] == u;
    if !OpenEnded(ts) {
      var c := Overrun(ts);
      var pad := seq(|ts| + 1, _ => c);
      assert (u + pad)[..|u|] == u;
      assert Padded(u + pad, c, |ts| + 1);
      u := u + pad;
    }
  }

  ghost predicate PlainNames(names: seq<seq<Byte>>) {
    forall i :: 0 <= i < |names| ==> names[i] != [] && NoSlash(names[i])
  }

  function FlatCount(cs: seq<Comp>): nat {
    if cs == [] then 0 else (if cs[0].Flat? then 1 else 0) + FlatCount(cs[1..])
  }

  /** One name per component that is not a double star, each overrun where that is allowed. */
  lemma {:induction false} Witness(cs: seq<Comp>) returns (names: seq<seq<Byte>>)
    requires Spaced(cs) && Live(cs)
    ensures PlainNames(names) && |names| == FlatCount(cs)
    ensures Stands(cs, names, true)
    ensures Stands(cs, names, false) ==> AllOpen(cs)
  {
    names := [];
    if cs != [] {
      SpacedTail(cs, 1);
      var rest := Witness(cs[1..]);
      if cs[0].Deep? {
        names := rest;
        if Stands(cs, names, false) {
          TooFew(cs, names);
        }
      } else {
        var u;
        if BeforeInner(cs) {
          u := OverrunName(cs[0].toks);
        } else {
          u := SampleName(cs[0].toks);
        }
        names := [u] + rest;
        assert names[1..] == rest;
      }
    }
  }

  lemma {:induction false} EnoughNames(cs: seq<Comp>, names: seq<seq<Byte>>, loose: bool)
    requires Stands(cs, names, loose)
    ensures |names| >= FlatCount(cs)
    decreases |cs| + |names|
  {
    if cs != [] {
      if cs[0].Deep? {
        if Stands(cs[1..], names, loose) {
          EnoughNames(cs[1..], names, loose);
        } else {
          EnoughNames(cs, names[1..], loose);
        }
      } else {
        EnoughNames(cs[1..], names[1..], loose);
      }
    }
  }

  /** With no name to spare, a double star takes none. */
  lemma {:induction false} TooFew(cs: seq<Comp>, names: seq<seq<Byte>>)
    requires cs != [] && cs[0].Deep? && Stands(cs, names, false) && |names| == FlatCount(cs)
    ensures Stands(cs[1..], names, false)
  {
    if !Stands(cs[1..], names, false) {
      EnoughNames(cs, names[1..], false);
    }
  }

  /** A path with the given components. */
  lemma {:induction false} PathOf(names: seq<seq<Byte>>) returns (w: seq<Byte>)
    requires PlainNames(names) && names != []
    ensures Names(w) == names && Normal(w)
  {
    if |names| == 1 {
      w := names[0];
      NamesNoSlash(w);
    } else {
      var rest := PathOf(names[1..]);
      w := names[0] + [SLASH] + rest;
      NamesCons(names[0], rest);
      assert names == [names[0]] + names[1..];
    }
  }

  lemma {:induction false} NamesPlain(w: seq<Byte>)
    requires Normal(w)
    ensures PlainNames(Names(w))
    decreases |w|
  {
    var f := FirstSlash(w);
    assert w[..|w|] == w;
    if f < |w| {
      NormalRest(w);
      NamesPlain(w[f + 1..]);
    }
    assert Names(w)[0] in Names(w);
  }

  /** Only live patterns stand for anything. */
  lemma {:induction false} StandsLive(cs: seq<Comp>, names: seq<seq<Byte>>, loose: bool)
    requires Spaced(cs) && PlainNames(names) && Stands(cs, names, loose)
    ensures Live(cs)
    decreases |cs| + |names|
  {
    if cs != [] {
      SpacedTail(cs, 1);
      if cs[0].Deep? {
        if Stands(cs[1..], names, loose) {
          StandsLive(cs[1..], names, loose);
        } else {
          StandsLive(cs, names[1..], loose);
        }
      } else {
        StandsLive(cs[1..], names[1..], loose);
        if loose && BeforeInner(cs) {
          var k: nat :| k <= |names[0]| && Accepts(cs[0].toks, names[0][..k]);
          TakesAtLeast(cs[0].toks, names[0][..k]);
        } else {
          TakesAtLeast(cs[0].toks, names[0]);
        }
      }
    }
  }

  lemma {:induction false} StrictIsLoose(cs: seq<Comp>, names: seq<seq<Byte>>)
    requires Stands(cs, names, false)
    ensures Stands(cs, names, true)
    decreases |cs| + |names|
  {
    if cs != [] {
      if cs[0].Deep? {
        if Stands(cs[1..], names, false) {
          StrictIsLoose(cs[1..], names);
        } else {
          StrictIsLoose(cs, names[1..]);
        }
      } else {
        StrictIsLoose(cs[1..], names[1..]);
        assert names[0][..|names[0]|] == names[0];
      }
    }
  }

  lemma {:induction false} OpenIsStrict(cs: seq<Comp>, names: seq<seq<Byte>>)
    requires Spaced(cs) && AllOpen(cs) && PlainNames(names) && Stands(cs, names, true)
    ensures Stands(cs, names, false)
    decreases |cs| + |names|
  {
    if cs != [] {
      SpacedTail(cs, 1);
      if cs[0].Deep? {
        if Stands(cs[1..], names, true) {
          OpenIsStrict(cs[1..], names);
        } else {
          OpenIsStrict(cs, names[1..]);
        }
      } else {
        OpenIsStrict(cs[1..], names[1..]);
        if BeforeInner(cs) {
          var k: nat :| k <= |names[0]| && Accepts(cs[0].toks, names[0][..k]);
          OpenEndedExtends(cs[0].toks, names[0], k);
        }
      }
    }
  }

  /** The tokens accept a path exactly when its components match, one by one. */
  ghost predicate Componentwise(cs: seq<Comp>)
    requires WellSpaced(cs)
  {
    forall w: seq<Byte> :: Normal(w) ==> (Accepts(Lower(cs), w) <==> Stands(cs, Names(w), false))
  }

  /**
    * A pattern matches component by component on every path exactly when each component before an
    * inner double star is open-ended, or the pattern can match nothing.
    */
  lemma {:induction false} ComponentwiseIff(cs: seq<Comp>)
    requires WellSpaced(cs)
    ensures Componentwise(cs) <==> AllOpen(cs) || !Live(cs)
  {
    if AllOpen(cs) || !Live(cs) {
      forall w: seq<Byte> | Normal(w) ensures Accepts(Lower(cs), w) <==> Stands(cs, Names(w), false) {
        LowerStands(cs, w);
        BothReadings(cs, w);
      }
    } else {
      Differs(cs);
    }
  }

  lemma {:induction false} BothReadings(cs: seq<Comp>, w: seq<Byte>)
    requires Spaced(cs) && Normal(w) && (AllOpen(cs) || !Live(cs))
    ensures Stands(cs, Names(w), true) <==> Stands(cs, Names(w), false)
  {
    NamesPlain(w);
    if Stands(cs, Names(w), false) {
      StrictIsLoose(cs, Names(w));
    }
    if Stands(cs, Names(w), true) {
      StandsLive(cs, Names(w), true);
      OpenIsStrict(cs, Names(w));
    }
  }

  lemma {:induction false} Differs(cs: seq<Comp>)
    requires WellSpaced(cs) && Live(cs) && !AllOpen(cs)
    ensures !Componentwise(cs)
  {
    var names := Witness(cs);
    assert FlatCount(cs) > 0 by {
      if cs[0].Deep? {
        assert cs[1].Flat?;
      }
    }
    var w := PathOf(names);
    LowerStands(cs, w);
  }

  /** The pattern a/STAR STAR/b, for one, also takes the path ax/b. */
  lemma {:induction false} OverrunExample()
    ensures var cs := [Flat([Lit(97)]), Deep, Flat([Lit(98)])];
            && WellSpaced(cs)
            && Normal([97, 120, SLASH, 98])
            && Accepts(Lower(cs), [97, 120, SLASH, 98])
            && !Stands(cs, Names([97, 120, SLASH, 98]), false)
  {
    var w: seq<Byte> := [97, 120, SLASH, 98];
    assert w == [97, 120] + [SLASH] + [98];
    NamesNoSlash([98]);
    NamesCons([97, 120], [98]);
    assert Names(w) == [[97, 120], [98]];
    OverrunReadings(97, 120, 98);
    LowerStands([Flat([Lit(97)]), Deep, Flat([Lit(98)])], w);
  }

  lemma {:induction false} OverrunReadings(a: Byte, x: Byte, b: Byte)
    requires a != SLASH
    ensures var cs := [Flat([Lit(a)]), Deep, Flat([Lit(b)])];
            Stands(cs, [[a, x], [b]], true) && !Stands(cs, [[a, x], [b]], false)
  {
    var cs := [Flat([Lit(a)]), Deep, Flat([Lit(b)])];
    LiteralTakes(a);
    LiteralTakes(b);
    assert cs[1..] == [Deep, Flat([Lit(b)])] && cs[1..][1..] == [Flat([Lit(b)])];
    assert Stands([Flat([Lit(b)])], [[b]], true);
    assert Stands(cs[1..], [[b]], true);
    assert [[a, x], [b]][1..] == [[b]];
    assert [a, x][..1] == [a];
    assert PrefixAccepted([Lit(a)], [a, x]);
    SinglesRefuse([Lit(a)], [a, x]);
  }

  lemma {:induction false} LiteralTakes(b: Byte)
    ensures Accepts([Lit(b)], [b])
  {
    var ts, w := [Lit(b)], [b];
    assert ts[1..] == [] && w[1..] == [];
    assert Fits(ts[0], w, 1);
  }

  lemma {:induction false} SinglesRefuse(ts: seq<Tok>, w: seq<Byte>)
    requires Atoms(ts) && (forall i :: 0 <= i < |ts| ==> !ts[i].Star?) && |w| != |ts|
    ensures !Accepts(ts, w)
  {
    if Accepts(ts, w) {
      SinglesTake(ts, w, 0);
    }
  }
}
