/** Ignore patterns: tokens, the backtracking matcher and the rules. */
module Glob {
  import opened Bytes

  const SLASH: Byte := 47

  datatype Tok =
    | Lit(byte: Byte)
    | Any
    | Sep
    | Class(negate: bool, ranges: seq<(Byte, Byte)>)
    | Star
    | DStarSlash
    | SlashDStar
    | SlashDStarSlash

  predicate NoSlash(u: seq<Byte>) { forall i :: 0 <= i < |u| ==> u[i] != SLASH }

  predicate InRanges(ranges: seq<(Byte, Byte)>, c: Byte) {
    exists i :: 0 <= i < |ranges| && ranges[i].0 <= c <= ranges[i].1
  }

  predicate Single(t: Tok) { t.Lit? || t.Any? || t.Sep? || t.Class? }

  /** The byte c is one that the single-byte token t stands for. */
  predicate Takes(t: Tok, c: Byte)
    requires Single(t)
  {
    match t
    case Lit(b) => c == b
    case Any => c != SLASH
    case Sep => c == SLASH
    case Class(negate, ranges) => c != SLASH && InRanges(ranges, c) != negate
  }

  /** The language of a token; only a closing double star minds whether the path ends here. */
  predicate InLang(t: Tok, u: seq<Byte>, atEnd: bool) {
    match t
    case Star => NoSlash(u)
    case DStarSlash => u == [] || u[|u| - 1] == SLASH
    case SlashDStar => atEnd && (u == [] || (u[0] == SLASH && |u| > 1))
    case SlashDStarSlash => u != [] && u[|u| - 1] == SLASH
    case _ => |u| == 1 && Takes(t, u[0])
  }

  ghost predicate Fits(t: Tok, w: seq<Byte>, k: nat) { k <= |w| && InLang(t, w[..k], k == |w|) }

  /** The word w is a run of pieces, one for each token. */
  ghost predicate Accepts(ts: seq<Tok>, w: seq<Byte>)
    decreases |ts|
  {
    if ts == [] then w == []
    else exists k: nat :: Fits(ts[0], w, k) && Accepts(ts[1..], w[k..])
  }

  // Acceptance as an explicit split.

  ghost predicate SplitBy(ts: seq<Tok>, pieces: seq<seq<Byte>>) {
    && |ts| == |pieces|
    && forall j :: 0 <= j < |ts| ==> InLang(ts[j], pieces[j], Flatten(pieces[j + 1..]) == [])
  }

  /** A word is accepted exactly when it is the concatenation of one piece per token. */
  lemma {:induction false} AcceptsIffSplits(ts: seq<Tok>, w: seq<Byte>)
    ensures Accepts(ts, w) <==> exists pieces: seq<seq<Byte>> :: SplitBy(ts, pieces) && Flatten(pieces) == w
  {
    if Accepts(ts, w) {
      var pieces := SplitOf(ts, w);
    }
    if exists pieces: seq<seq<Byte>> :: SplitBy(ts, pieces) && Flatten(pieces) == w {
      var pieces: seq<seq<Byte>> :| SplitBy(ts, pieces) && Flatten(pieces) == w;
      SplitAccepted(ts, pieces);
    }
  }

  lemma {:induction false} SplitOf(ts: seq<Tok>, w: seq<Byte>) returns (pieces: seq<seq<Byte>>)
    requires Accepts(ts, w)
    ensures SplitBy(ts, pieces) && Flatten(pieces) == w
  {
    if ts == [] {
      pieces := [];
    } else {
      var k: nat :| Fits(ts[0], w, k) && Accepts(ts[1..], w[k..]);
      var rest := SplitOf(ts[1..], w[k..]);
      pieces := [w[..k]] + rest;
      SplitCons(ts, w[..k], rest);
      assert w == w[..k] + w[k..];
      assert pieces[1..] == rest;
    }
  }

  lemma {:induction false} SplitCons(ts: seq<Tok>, u: seq<Byte>, rest: seq<seq<Byte>>)
    requires ts != [] && SplitBy(ts[1..], rest) && InLang(ts[0], u, Flatten(rest) == [])
    ensures SplitBy(ts, [u] + rest)
  {
    var pieces := [u] + rest;
    forall j | 0 <= j < |ts| ensures InLang(ts[j], pieces[j], Flatten(pieces[j + 1..]) == []) {
      if j == 0 {
        assert pieces[1..] == rest;
      } else {
        assert InLang(ts[1..][j - 1], rest[j - 1], Flatten(rest[j..]) == []);
        assert pieces[j + 1..] == rest[j..];
      }
    }
  }

  lemma {:induction false} SplitAccepted(ts: seq<Tok>, pieces: seq<seq<Byte>>)
    requires SplitBy(ts, pieces)
    ensures Accepts(ts, Flatten(pieces))
  {
    if ts != [] {
      var rest := pieces[1..];
      forall j | 0 <= j < |ts[1..]| ensures InLang(ts[1..][j], rest[j], Flatten(rest[j + 1..]) == []) {
        assert rest[j] == pieces[j + 1] && rest[j + 1..] == pieces[j + 2..];
        assert InLang(ts[j + 1], pieces[j + 1], Flatten(pieces[j + 2..]) == []);
      }
      SplitAccepted(ts[1..], rest);
      var w := Flatten(pieces);
      assert w[..|pieces[0]|] == pieces[0] && w[|pieces[0]|..] == Flatten(rest);
      assert Fits(ts[0], w, |pieces[0]|);
    }
  }

  // The matcher.

  ghost predicate Reach(tokens: seq<Tok>, ti: nat, path: seq<Byte>, pi: nat)
    requires ti <= |tokens| && pi <= |path|
  {
    Accepts(tokens[ti..], path[pi..])
  }

  ghost predicate Next(tokens: seq<Tok>, ti: nat, path: seq<Byte>, k: nat)
    requires ti < |tokens| && k <= |path|
  {
    Reach(tokens, ti + 1, path, k)
  }

  ghost predicate StepTo(tokens: seq<Tok>, ti: nat, path: seq<Byte>, pi: nat, k: nat)
    requires ti < |tokens| && pi <= |path|
  {
    && pi <= k <= |path|
    && InLang(tokens[ti], path[pi..k], k == |path|)
    && Next(tokens, ti, path, k)
  }

  ghost predicate PastSlash(tokens: seq<Tok>, ti: nat, path: seq<Byte>, pi: nat, k: nat)
    requires ti < |tokens| && pi <= |path|
  {
    pi < k <= |path| && path[k - 1] == SLASH && Next(tokens, ti, path, k)
  }

  lemma {:induction false} StepIsFit(tokens: seq<Tok>, ti: nat, path: seq<Byte>, pi: nat, n: nat)
    requires ti < |tokens| && pi + n <= |path|
    ensures StepTo(tokens, ti, path, pi, pi + n)
       <==> Fits(tokens[ti..][0], path[pi..], n) && Accepts(tokens[ti..][1..], path[pi..][n..])
  {
    assert tokens[ti..][1..] == tokens[ti + 1..];
    assert path[pi..][..n] == path[pi..pi + n] && path[pi..][n..] == path[pi + n..];
  }

  lemma {:induction false} ReachStep(tokens: seq<Tok>, ti: nat, path: seq<Byte>, pi: nat)
    requires ti < |tokens| && pi <= |path|
    ensures Reach(tokens, ti, path, pi) <==> exists k: nat :: StepTo(tokens, ti, path, pi, k)
  {
    if Reach(tokens, ti, path, pi) {
      var n: nat :| Fits(tokens[ti..][0], path[pi..], n) && Accepts(tokens[ti..][1..], path[pi..][n..]);
      StepIsFit(tokens, ti, path, pi, n);
    }
    if exists k: nat :: StepTo(tokens, ti, path, pi, k) {
      var k: nat :| StepTo(tokens, ti, path, pi, k);
      StepIsFit(tokens, ti, path, pi, k - pi);
    }
  }

  /** Whether c lies in one of the ranges. */
  method FindRange(ranges: seq<(Byte, Byte)>, c: Byte) returns (hit: bool)
    ensures hit <==> InRanges(ranges, c)
  {
    hit := false;
    for i := 0 to |ranges|
      invariant !hit
      invariant forall j :: 0 <= j < i ==> !(ranges[j].0 <= c <= ranges[j].1)
    {
      if ranges[i].0 <= c <= ranges[i].1 {
        return true;
      }
    }
  }

  method MatchSingle(tokens: seq<Tok>, ti: nat, path: seq<Byte>, pi: nat) returns (r: bool)
    requires ti < |tokens| && pi <= |path| && Single(tokens[ti])
    ensures r <==> Reach(tokens, ti, path, pi)
    decreases |tokens| - ti, 0
  {
    ReachStep(tokens, ti, path, pi);
    r := false;
    if pi < |path| {
      var c := path[pi];
      assert path[pi..pi + 1] == [c];
      var taken;
      match tokens[ti] {
        case Lit(b) => taken := c == b;
        case Any => taken := c != SLASH;
        case Sep => taken := c == SLASH;
        case Class(negate, ranges) =>
          var hit := FindRange(ranges, c);
          taken := c != SLASH && hit != negate;
      }
      if taken {
        r := MatchAt(tokens, ti + 1, path, pi + 1);
        assert r ==> StepTo(tokens, ti, path, pi, pi + 1);
      }
    }
  }

  lemma {:induction false} StarMisses(tokens: seq<Tok>, ti: nat, path: seq<Byte>, pi: nat, k: nat)
    requires ti < |tokens| && pi <= k <= |path| && tokens[ti].Star?
    requires forall j: nat :: pi <= j <= k ==> !Next(tokens, ti, path, j)
    requires k == |path| || path[k] == SLASH
    ensures !Reach(tokens, ti, path, pi)
  {
    ReachStep(tokens, ti, path, pi);
    forall j: nat | k < j <= |path| ensures !StepTo(tokens, ti, path, pi, j) {
      assert path[pi..j][k - pi] == SLASH;
    }
  }

  /** Tries zero, one, two … bytes up to the next slash. */
  method MatchStar(tokens: seq<Tok>, ti: nat, path: seq<Byte>, pi: nat) returns (r: bool)
    requires ti < |tokens| && pi <= |path| && tokens[ti].Star?
    ensures r <==> Reach(tokens, ti, path, pi)
    decreases |tokens| - ti, 0
  {
    var k := pi;
    while true
      invariant pi <= k <= |path| && NoSlash(path[pi..k])
      invariant forall j: nat :: pi <= j < k ==> !Next(tokens, ti, path, j)
      decreases |path| - k
    {
      r := MatchAt(tokens, ti + 1, path, k);
      if r {
        ReachStep(tokens, ti, path, pi);
        assert StepTo(tokens, ti, path, pi, k);
        return;
      }
      if k >= |path| || path[k] == SLASH {
        StarMisses(tokens, ti, path, pi, k);
        return;
      }
      assert path[pi..k + 1] == path[pi..k] + [path[k]];
      k := k + 1;
    }
  }

  /** Tries every position just past a slash, from pi on. */
  method MatchPastSlash(tokens: seq<Tok>, ti: nat, path: seq<Byte>, pi: nat) returns (r: bool)
    requires ti < |tokens| && pi <= |path|
    ensures r <==> exists k: nat :: PastSlash(tokens, ti, path, pi, k)
    decreases |tokens| - ti, 0
  {
    r := false;
    for i := pi to |path|
      invariant forall k: nat :: k <= i ==> !PastSlash(tokens, ti, path, pi, k)
    {
      if path[i] == SLASH {
        r := MatchAt(tokens, ti + 1, path, i + 1);
        if r {
          assert PastSlash(tokens, ti, path, pi, i + 1);
          return;
        }
      }
    }
  }

  /** Decides, from token ti and byte pi on, whether the rest of the path splits along the rest of the tokens. */
  method MatchAt(tokens: seq<Tok>, ti: nat, path: seq<Byte>, pi: nat) returns (r: bool)
    requires ti <= |tokens| && pi <= |path|
    ensures r <==> Accepts(tokens[ti..], path[pi..])
    decreases |tokens| - ti, 1
  {
    if ti == |tokens| {
      return pi == |path|;
    }
    ReachStep(tokens, ti, path, pi);
    match tokens[ti] {
      case Star =>
        r := MatchStar(tokens, ti, path, pi);
      case DStarSlash =>
        r := MatchAt(tokens, ti + 1, path, pi);
        if r {
          assert StepTo(tokens, ti, path, pi, pi);
        } else {
          r := MatchPastSlash(tokens, ti, path, pi);
          PastSlashSteps(tokens, ti, path, pi);
        }
      case SlashDStar =>
        if pi == |path| {
          r := MatchAt(tokens, ti + 1, path, pi);
          assert r ==> StepTo(tokens, ti, path, pi, pi);
        } else if path[pi] == SLASH && pi + 1 < |path| {
          r := MatchAt(tokens, ti + 1, path, |path|);
          assert r ==> StepTo(tokens, ti, path, pi, |path|);
        } else {
          r := false;
        }
      case SlashDStarSlash =>
        r := MatchPastSlash(tokens, ti, path, pi);
        PastSlashSteps(tokens, ti, path, pi);
      case _ =>
        r := MatchSingle(tokens, ti, path, pi);
    }
  }

  lemma {:induction false} PastSlashStep(tokens: seq<Tok>, ti: nat, path: seq<Byte>, pi: nat, k: nat)
    requires ti < |tokens| && pi <= |path|
    requires tokens[ti].SlashDStarSlash? || (tokens[ti].DStarSlash? && !Next(tokens, ti, path, pi))
    ensures StepTo(tokens, ti, path, pi, k) <==> PastSlash(tokens, ti, path, pi, k)
  {
    if pi < k <= |path| {
      assert path[pi..k][k - pi - 1] == path[k - 1];
    }
  }

  lemma {:induction false} PastSlashSteps(tokens: seq<Tok>, ti: nat, path: seq<Byte>, pi: nat)
    requires ti < |tokens| && pi <= |path|
    requires tokens[ti].SlashDStarSlash? || (tokens[ti].DStarSlash? && !Next(tokens, ti, path, pi))
    ensures (exists k: nat :: StepTo(tokens, ti, path, pi, k))
       <==> exists k: nat :: PastSlash(tokens, ti, path, pi, k)
  {
    forall k: nat ensures StepTo(tokens, ti, path, pi, k) <==> PastSlash(tokens, ti, path, pi, k) {
      PastSlashStep(tokens, ti, path, pi, k);
    }
  }

  // Rules.

  datatype Rule = Rule(tokens: seq<Tok>, negate: bool, dirOnly: bool, anchored: bool, anchor: seq<Byte>)

  /** The path lies under the directory of the rule's ignore file, as rel. */
  ghost predicate Under(anchor: seq<Byte>, path: seq<Byte>, rel: seq<Byte>) {
    if anchor == [] then rel == path else path == anchor + [SLASH] + rel
  }

  /** Position i of w starts a path component. */
  ghost predicate Aligned(w: seq<Byte>, i: nat) { i <= |w| && (i == 0 || w[i - 1] == SLASH) }

  ghost predicate SuffixAccepted(tokens: seq<Tok>, w: seq<Byte>, i: nat) {
    Aligned(w, i) && Accepts(tokens, w[i..])
  }

  /** An anchored pattern takes the whole relative path, a loose one any run of its last components. */
  ghost predicate Hits(rule: Rule, path: seq<Byte>, isDir: bool) {
    && (rule.dirOnly ==> isDir)
    && exists rel: seq<Byte> ::
        && Under(rule.anchor, path, rel)
        && if rule.anchored then Accepts(rule.tokens, rel)
           else exists i: nat :: SuffixAccepted(rule.tokens, rel, i)
  }

  lemma {:induction false} UnderExact(anchor: seq<Byte>, path: seq<Byte>, rel: seq<Byte>)
    requires Under(anchor, path, rel)
    ensures anchor != [] ==> anchor < path && path[|anchor|] == SLASH && rel == path[|anchor| + 1..]
  {
  }

  method MatchTokens(tokens: seq<Tok>, path: seq<Byte>) returns (r: bool)
    ensures r <==> Accepts(tokens, path)
  {
    assert tokens[0..] == tokens && path[0..] == path;
    r := MatchAt(tokens, 0, path, 0);
  }

  method MatchLoose(tokens: seq<Tok>, rel: seq<Byte>) returns (r: bool)
    ensures r <==> exists i: nat :: SuffixAccepted(tokens, rel, i)
  {
    assert rel[0..] == rel;
    r := MatchTokens(tokens, rel);
    if r {
      assert SuffixAccepted(tokens, rel, 0);
      return;
    }
    for i := 0 to |rel|
      invariant forall j: nat :: j <= i ==> !SuffixAccepted(tokens, rel, j)
    {
      if rel[i] == SLASH {
        r := MatchTokens(tokens, rel[i + 1..]);
        if r {
          assert SuffixAccepted(tokens, rel, i + 1);
          return;
        }
      }
    }
    r := false;
  }

  method RuleMatches(rule: Rule, path: seq<Byte>, isDir: bool) returns (r: bool)
    ensures r <==> Hits(rule, path, isDir)
  {
    if rule.dirOnly && !isDir {
      return false;
    }
    var rel := path;
    if rule.anchor != [] {
      var n := |rule.anchor|;
      if !(rule.anchor < path) || path[n] != SLASH {
        forall rel': seq<Byte> ensures !Under(rule.anchor, path, rel') {
          if Under(rule.anchor, path, rel') {
            UnderExact(rule.anchor, path, rel');
          }
        }
        return false;
      }
      rel := path[n + 1..];
      assert path == rule.anchor + [SLASH] + rel;
    }
    assert Under(rule.anchor, path, rel);
    forall rel': seq<Byte> | Under(rule.anchor, path, rel') ensures rel' == rel {
      UnderExact(rule.anchor, path, rel');
    }
    if rule.anchored {
      r := MatchTokens(rule.tokens, rel);
    } else {
      r := MatchLoose(rule.tokens, rel);
    }
  }

  ghost predicate LastHit(rules: seq<Rule>, path: seq<Byte>, isDir: bool, i: nat) {
    && i < |rules|
    && Hits(rules[i], path, isDir)
    && forall j :: i < j < |rules| ==> !Hits(rules[j], path, isDir)
  }

  /** A path is ignored exactly when the last rule that hits it is not a negated one. */
  method Matched(rules: seq<Rule>, path: seq<Byte>, isDir: bool) returns (decision: bool)
    ensures decision <==> exists i: nat :: LastHit(rules, path, isDir, i) && !rules[i].negate
  {
    decision := false;
    ghost var last: Option<nat> := None;
    for n := 0 to |rules|
      invariant last.None? ==> !decision && forall j :: 0 <= j < n ==> !Hits(rules[j], path, isDir)
      invariant last.Some? ==>
        && last.value < n
        && Hits(rules[last.value], path, isDir)
        && decision == !rules[last.value].negate
        && forall j :: last.value < j < n ==> !Hits(rules[j], path, isDir)
    {
      var hit := RuleMatches(rules[n], path, isDir);
      if hit {
        decision := !rules[n].negate;
        last := Some(n);
      }
    }
    if last.Some? {
      assert LastHit(rules, path, isDir, last.value);
    }
  }
}
