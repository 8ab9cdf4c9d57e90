/** Exactly when rewriting keeps the literals and the binds of a query, leftover marks aside. */
module RewriteExact {
  import opened Text
  import opened BindNames
  import opened SqlLexer
  import opened BindTokens
  import opened Lookahead
  import opened Relex
  import opened RelexQuery
  import opened QueryMeaning

  /** No name byte stands directly behind a dropped marker. */
  predicate JoinFree(x: string)
    decreases |x|
  {
    x == "" ||
    var rest := x[Width(x)..];
    (BindAt(x) && MarkLen(x[BindEnd(x)..]) > 0 ==> rest == "" || !IsNameBody(rest[0])) && JoinFree(rest)
  }

  predicate AllJoinFree(segments: seq<Segment>) {
    segments == [] || ((segments[0].Run? ==> JoinFree(segments[0].text)) && AllJoinFree(segments[1..]))
  }

  lemma JoinFreeStep(x: string)
    requires x != ""
    ensures var rest := x[Width(x)..];
            JoinFree(x) <==> (BindAt(x) ==> rest == "" || !IsNameBody(rest[0])) && JoinFree(rest)
  {
    hide IsNameBody, MarkLen, BindAt, BindEnd;
    if BindAt(x) && MarkLen(x[BindEnd(x)..]) == 0 {
      UnmarkedIsClean(x);
      CleanFirst(x[Width(x)..]);
    }
  }

  /** A text without colons in front does not change the binds. */
  lemma SkipPlain(r: string, k: nat)
    requires k <= |r| && ':' !in r[..k]
    ensures Names(Tokens(r)) == Names(Tokens(r[k..]))
  {
    hide *;
    forall i | 0 <= i < k ensures !BindAt(r[i..]) {
      assert r[i] == r[..k][i];
      NotAtColon(r[i..]);
    }
    PlainSteps(r, k, 0);
  }

  lemma NotAtColon(s: string)
    requires s != "" && s[0] != ':'
    ensures !BindAt(s)
  {
  }

  /** The binds of a text that starts with a driver name: that bind, as it is read, then those behind the name. */
  lemma NamesAfterBind(name: string, r: string)
    requires name != "" && IsNameStart(name[0]) && forall i :: 0 <= i < |name| ==> IsNameBody(name[i])
    ensures var out := ":" + Encode(name) + r;
            out != "" && Names(Tokens(out)) == [First(out).name] + Names(Tokens(r))
  {
    hide *;
    var e := Encode(name);
    var out := ":" + e + r;
    DriverBindAt(name, r);
    TokenStep(out, 0);
    FirstIsBind(out);
    BindWidthIs(out);
    NameLenBound(r);
    var k := NameLen(r);
    var m := MarkLen(out[BindEnd(out)..]);
    assert out[BindEnd(out)..] == r[k..];
    assert out[Width(out)..] == r[k + m..];
    assert r[..k + m] == r[..k] + r[k..][..m];
    BodyHasNoColon(r);
    MarkHasNoColon(r[k..]);
    MarkPrefix(r[k..]);
    SkipPlain(r, k + m);
  }

  lemma BindWidthIs(out: string)
    requires BindAt(out)
    ensures Width(out) == BindEnd(out) + MarkLen(out[BindEnd(out)..]) <= |out|
  {
    hide MarkLen, BindEnd;
  }

  lemma NameLenBound(r: string)
    ensures NameLen(r) <= |r|
  {
  }

  lemma BodyHasNoColon(r: string)
    ensures ':' !in r[..NameLen(r)]
  {
  }

  lemma MarkPrefix(s: string)
    ensures MarkLen(s) <= |s| && ':' !in s[..MarkLen(s)]
  {
    hide MarkLen;
    MarkHasNoColon(s);
  }

  /** The binds of a run come back, name by name, exactly when no name byte follows a dropped marker. */
  lemma {:induction false} RunKeepsNames(x: string)
    ensures |Names(Tokens(RewriteRun(x)))| == |Names(Tokens(x))|
    ensures Names(Tokens(RewriteRun(x))) == EncodeAll(Names(Tokens(x))) <==> JoinFree(x)
    decreases |x|
  {
    hide *;
    NoBinds();
    if x == "" {
      EmptyRun();
      EmptyJoinFree();
    } else {
      var rest := x[Width(x)..];
      var r := RewriteRun(rest);
      TokenStep(x, 0);
      JoinFreeStep(x);
      RunKeepsNames(rest);
      EmptyRun();
      RunAlike(rest, "", "");
      assert rest + "" == rest && r + "" == r;
      AlikeFirst(rest, r);
      if BindAt(x) {
        var name := x[1..BindEnd(x)];
        NameOfBind(x);
        RewriteBind(x);
        NamesAfterBind(name, r);
        ReadBack(name, r);
        EncodeAllAppend([name], Names(Tokens(rest)));
        HeadsDecide(First(RewriteRun(x)).name, Encode(name), Names(Tokens(r)), EncodeAll(Names(Tokens(rest))));
        NameOfFirst(name, r);
      } else {
        RewritePlain(x);
        PlainAlike(x);
        TokenStep(RewriteRun(x), 0);
        assert ([x[0]] + r)[1..] == r;
      }
    }
  }

  lemma EmptyJoinFree()
    ensures JoinFree("")
  {
  }

  lemma HeadsDecide(a: string, b: string, s: seq<string>, t: seq<string>)
    ensures [a] + s == [b] + t <==> a == b && s == t
  {
    assert ([a] + s)[0] == a && ([b] + t)[0] == b && ([a] + s)[1..] == s && ([b] + t)[1..] == t;
  }

  lemma NameOfFirst(name: string, r: string)
    requires name != "" && IsNameStart(name[0]) && forall i :: 0 <= i < |name| ==> IsNameBody(name[i])
    ensures var out := ":" + Encode(name) + r;
            First(out).Bind? && (First(out).name == Encode(name) <==> r == "" || !IsNameBody(r[0]))
  {
    hide *;
    ReadBack(name, r);
    DriverBindAt(name, r);
    FirstIsBind(":" + Encode(name) + r);
    BindNameIs(Encode(name), r[..MarkLen(r)]);
  }

  lemma BindNameIs(e: string, mark: string)
    ensures Bind(e, mark).name == e
  {
  }

  /** Over all runs: as many binds as before, and the same ones exactly without joins. */
  lemma {:induction false} AllRunsKeepNames(segments: seq<Segment>)
    ensures |BindsOf(RewriteAll(segments))| == |BindsOf(segments)|
    ensures BindsOf(RewriteAll(segments)) == EncodeAll(BindsOf(segments)) <==> AllJoinFree(segments)
    ensures Literals(RewriteAll(segments)) == Literals(segments)
  {
    hide Tokens, RewriteRun, Names, JoinFree, Encode;
    if segments != [] {
      var g := segments[0];
      AllRunsKeepNames(segments[1..]);
      assert RewriteAll(segments)[1..] == RewriteAll(segments[1..]);
      var here := if g.Run? then Names(Tokens(g.text)) else [];
      var out := if g.Run? then Names(Tokens(RewriteRun(g.text))) else [];
      if g.Run? {
        RunKeepsNames(g.text);
      }
      EncodeAllAppend(here, BindsOf(segments[1..]));
      EncodeAllSize(here);
      PartsDecide(out, EncodeAll(here), BindsOf(RewriteAll(segments[1..])), EncodeAll(BindsOf(segments[1..])));
    }
  }

  lemma PartsDecide(a: seq<string>, b: seq<string>, s: seq<string>, t: seq<string>)
    requires |a| == |b|
    ensures a + s == b + t <==> a == b && s == t
  {
    assert (a + s)[..|a|] == a && (b + t)[..|a|] == b && (a + s)[|a|..] == s && (b + t)[|a|..] == t;
  }

  // ----- A glued q-quote changes the literals -----

  lemma {:induction false} CodeHasNoQuote(s: string)
    ensures '\'' !in s[..CodeLen(s)]
  {
    hide Head;
    if CodeLen(s) > 0 {
      CodeStep(s);
      CodeHasNoQuote(s[1..]);
      assert s[..CodeLen(s)] == [s[0]] + s[1..][..CodeLen(s) - 1];
    }
  }

  lemma {:induction false} RewriteHasNoQuote(x: string)
    requires '\'' !in x
    ensures '\'' !in RewriteRun(x)
    decreases |x|
  {
    hide *;
    if x == "" {
      EmptyRun();
    } else if BindAt(x) {
      var name := x[1..BindEnd(x)];
      NameOfBind(x);
      RewriteBind(x);
      EncodeIsPlain(name);
      BodyIsNoQuote(Encode(name));
      TokenStep(x, 0);
      RewriteHasNoQuote(x[Width(x)..]);
    } else {
      RewritePlain(x);
      RewriteHasNoQuote(x[1..]);
    }
  }

  lemma BodyIsNoQuote(e: string)
    requires forall i :: 0 <= i < |e| ==> IsNameBody(e[i])
    ensures '\'' !in e
  {
  }

  /** Behind its leading code run a text has a literal, which begins right there. */
  lemma LiteralAhead(s: string)
    requires CodeLen(s) < |s|
    ensures var ls := Literals(Segments(s)); ls != [] && ls[0].text != "" && ls[0].text[0] == s[CodeLen(s)]
  {
    hide *;
    var n := CodeLen(s);
    if n > 0 {
      SegmentsStep(s);
      CodeLenTail(s, n);
      LiteralFirst(s[n..]);
      LiteralsCons(Run(s[..n]), Segments(s[n..]));
    } else {
      LiteralFirst(s);
    }
  }

  lemma LiteralFirst(s: string)
    requires s != "" && CodeLen(s) == 0
    ensures var ls := Literals(Segments(s)); ls != [] && ls[0].text != "" && ls[0].text[0] == s[0]
  {
    hide *;
    SegmentsStep(s);
    OpaqueSize(s);
    if Head(s).Opaque? {
      LiteralsCons(Skipped(s[..Head(s).len]), Segments(s[Head(s).len..]));
    } else {
      LiteralsCons(Cut(s), []);
      assert [Cut(s)] + [] == [Cut(s)];
    }
  }

  lemma OpaqueSize(s: string)
    requires s != ""
    ensures Head(s).Opaque? ==> 0 < Head(s).len <= |s|
    ensures Head(s).Opaque? || Head(s).Broken? || Head(s).Code?
  {
    hide Head;
  }

  lemma LiteralsCons(g: Segment, rest: seq<Segment>)
    ensures Literals([g] + rest) == (if g.Run? then [] else [g]) + Literals(rest)
  {
    assert ([g] + rest)[1..] == rest;
  }

  lemma {:induction false} GlueNeedsQuote(x: string, after: string)
    requires QGlue(x, after)
    ensures after != "" && after[0] == '\''
    decreases |x|
  {
    hide BindAt, MarkLen, BindEnd, EndsWithQ;
    if Width(x) < |x| {
      GlueNeedsQuote(x[Width(x)..], after);
    }
  }

  /** The run's bind and the quote behind it become one q-quote, and the literals change. */
  lemma GlueChangesLiterals(x: string, after: string, b: string)
    requires QGlue(x, after) && CodeLen(x + after) == |x| && CodeLen(after) == 0
    requires Alike(after, b) && CodeLen(b) == 0
    ensures Literals(Segments(RewriteRun(x) + b)) != Literals(Segments(x + after))
  {
    hide *;
    var out := RewriteRun(x) + b;
    GlueNeedsQuote(x, after);
    RunStaysCode(x, after, b);
    LiteralAhead(x + after);
    LiteralAhead(out);
    CodeHasNoQuote(x + after);
    assert (x + after)[..|x|] == x;
    RewriteHasNoQuote(x);
    assert out[CodeLen(out)] == RewriteRun(x)[CodeLen(out)];
    assert (x + after)[|x|] == after[0];
  }

  lemma {:induction false} GluedDiffers(s: string)
    requires !NoQGlue(Segments(s))
    ensures Literals(Segments(Rewrite(s))) != Literals(Segments(s))
    decreases |s|
  {
    hide *;
    RewriteIs(s);
    NoSegments();
    if s != "" {
      SegmentsStep(s);
      if CodeLen(s) > 0 {
        GluedRun(s);
        if !NoQGlue(Segments(s[CodeLen(s)..])) {
          GluedDiffers(s[CodeLen(s)..]);
        }
      } else if Head(s).Opaque? {
        GluedSkipped(s);
        GluedDiffers(s[Head(s).len..]);
      } else {
        NoGlueInCut(s);
      }
    }
  }

  lemma NoGlueInCut(s: string)
    ensures NoQGlue([Cut(s)])
  {
    assert [Cut(s)][1..] == [];
  }

  lemma GluedRun(s: string)
    requires CodeLen(s) > 0
    ensures var t := s[CodeLen(s)..];
            && (NoQGlue(Segments(s)) ==> NoQGlue(Segments(t)))
            && (Literals(Segments(Rewrite(s))) == Literals(Segments(s)) ==>
                (NoQGlue(Segments(s)) <==> NoQGlue(Segments(t))) &&
                Literals(Segments(Rewrite(t))) == Literals(Segments(t)))
  {
    hide *;
    var n := CodeLen(s);
    var x, t := s[..n], s[n..];
    var rest := Segments(t);
    var b := Join(RewriteAll(rest));
    SegmentsStep(s);
    CodeStep(s);
    RewriteIs(s);
    RewriteIs(t);
    JoinSegments(t);
    JoinAlike(rest);
    CodeLenTail(s, n);
    NotCodeAlike(t, b);
    assert s == x + t;
    RewriteAllStep(Run(x), rest);
    RewriteCut(x);
    LiteralsCons(Run(x), rest);
    if QGlue(x, t) {
      GlueChangesLiterals(x, t, b);
    } else {
      RunStaysCode(x, t, b);
      RewriteRunNotEmpty(x);
      RunIsFirst(RewriteRun(x), b);
      LiteralsCons(Run(RewriteRun(x)), Segments(b));
      assert [] + Literals(Segments(b)) == Literals(Segments(b)) && [] + Literals(rest) == Literals(rest);
    }
  }

  lemma GluedSkipped(s: string)
    requires s != "" && Head(s).Opaque?
    ensures var t := s[Head(s).len..];
            && (NoQGlue(Segments(s)) <==> NoQGlue(Segments(t)))
            && (Literals(Segments(Rewrite(s))) == Literals(Segments(s)) ==>
                Literals(Segments(Rewrite(t))) == Literals(Segments(t)))
  {
    hide *;
    var k := Head(s).len;
    var y, t := s[..k], s[k..];
    var rest := Segments(t);
    var b := Join(RewriteAll(rest));
    OpaqueSize(s);
    SegmentsStep(s);
    RewriteIs(s);
    RewriteIs(t);
    JoinSegments(t);
    JoinAlike(rest);
    assert s == y + t;
    OpaqueStable(y, t, b);
    RewriteAllStep(Skipped(y), rest);
    RewriteCut(y);
    SkippedIsFirst(y, b);
    LiteralsCons(Skipped(y), rest);
    LiteralsCons(Skipped(y), Segments(b));
    assert ([Skipped(y)] + Literals(Segments(b)))[1..] == Literals(Segments(b));
    assert ([Skipped(y)] + Literals(rest))[1..] == Literals(rest);
  }

  /** What a caller can check about the markers of the query: no joined name, no glued q-quote. */
  predicate Spaced(segments: seq<Segment>) {
    NoQGlue(segments) && AllJoinFree(segments)
  }

  /**
    The rewritten query holds the same literals and comments in the same order,
    and its binds are the query's binds name by name, exactly when no name byte
    stands behind a dropped marker and no bind runs into a quote.
   */
  lemma MeaningKeptExactly(s: string)
    ensures (Literals(Segments(Rewrite(s))) == Literals(Segments(s)) &&
             BindsOf(Segments(Rewrite(s))) == EncodeAll(BindsOf(Segments(s)))) <==> Spaced(Segments(s))
  {
    hide *;
    RewriteIs(s);
    SpacedIs(Segments(s));
    SegmentsStable(s);
    AllRunsKeepNames(Segments(s));
    if !NoQGlue(Segments(s)) {
      GluedDiffers(s);
    }
  }

  lemma SpacedIs(segments: seq<Segment>)
    ensures Spaced(segments) <==> NoQGlue(segments) && AllJoinFree(segments)
  {
    hide NoQGlue, AllJoinFree;
  }

  /** Separators behind the markers are enough. */
  lemma GuardedIsSpaced(s: string)
    requires Guarded(Segments(s))
    ensures Spaced(Segments(s))
  {
    hide *;
    RewriteKeepsMeaning(s);
    MeaningKeptExactly(s);
  }
}
