/** The whole query: its segments before and after rewriting. */
module RelexQuery {
  import opened Text
  import opened BindNames
  import opened SqlLexer
  import opened BindTokens
  import opened BindTransform
  import opened Lookahead
  import opened Relex

  /** A maximal code run, a skipped literal or comment, or a broken q-quote to the end. */
  datatype Segment = Run(text: string) | Skipped(text: string) | Cut(text: string)

  function Segments(s: string): seq<Segment>
    decreases |s|
  {
    if s == "" then []
    else
      var n := CodeLen(s);
      if n > 0 then [Run(s[..n])] + Segments(s[n..])
      else match Head(s) {
        case Opaque(k) => [Skipped(s[..k])] + Segments(s[k..])
        case Broken(_) => [Cut(s)]
        case Code => assert false; []
      }
  }

  function Join(segments: seq<Segment>): string {
    if segments == [] then "" else segments[0].text + Join(segments[1..])
  }

  function RewriteSegment(g: Segment): Segment {
    if g.Run? then Run(RewriteRun(g.text)) else g
  }

  function RewriteAll(segments: seq<Segment>): (r: seq<Segment>)
    ensures |r| == |segments|
  {
    if segments == [] then [] else [RewriteSegment(segments[0])] + RewriteAll(segments[1..])
  }

  predicate EndsWithQ(name: string) {
    name != "" && (name[|name| - 1] == 'q' || name[|name| - 1] == 'Q')
  }

  /** Dropping the last marker of run x lets its bind and the quote after it read as a q-quote. */
  predicate QGlue(x: string, after: string)
    decreases |x|
  {
    x != "" &&
    if Width(x) < |x| then QGlue(x[Width(x)..], after)
    else
      && BindAt(x) && MarkLen(x[BindEnd(x)..]) > 0 && EndsWithQ(x[1..BindEnd(x)])
      && after != "" && after[0] == '\''
  }

  predicate NoQGlue(segments: seq<Segment>) {
    segments == [] ||
    ((segments[0].Run? ==> !QGlue(segments[0].text, Join(segments[1..]))) && NoQGlue(segments[1..]))
  }

  lemma {:induction false} JoinSegments(s: string)
    ensures Join(Segments(s)) == s
    decreases |s|
  {
    hide *;
    if s == "" {
      NoSegments();
    } else {
      SegmentsStep(s);
      var n := if CodeLen(s) > 0 then CodeLen(s) else if Head(s).Opaque? then Head(s).len else |s|;
      assert s == s[..n] + s[n..];
      if n < |s| || !Head(s).Broken? {
        JoinSegments(s[n..]);
      }
      RewriteAllStep(Run(s[..n]), Segments(s[n..]));
      RewriteAllStep(Skipped(s[..n]), Segments(s[n..]));
      RewriteAllStep(Cut(s), []);
      NoSegments();
      RewriteCut(s);
    }
  }

  lemma NoCodeNoRun(s: string)
    requires s != ""
    ensures CodeLen(s) == 0 <==> !Head(s).Code?
  {
  }

  lemma {:induction false} JoinAlike(segments: seq<Segment>)
    ensures Alike(Join(segments), Join(RewriteAll(segments)))
  {
    hide Alike, RewriteRun;
    EmptyRun();
    if segments != [] {
      var g := segments[0];
      var a, b := Join(segments[1..]), Join(RewriteAll(segments[1..]));
      JoinAlike(segments[1..]);
      assert RewriteAll(segments)[1..] == RewriteAll(segments[1..]);
      if g.Run? {
        RunAlike(g.text, a, b);
      } else {
        AlikePrefix(g.text, a, b);
      }
    }
  }

  // ----- A run stays a run -----

  lemma CodeLenTail(s: string, k: nat)
    requires k <= CodeLen(s)
    ensures CodeLen(s[k..]) == CodeLen(s) - k
  {
    hide Head;
    if k > 0 {
      CodeLenTail(s[1..], k - 1);
      assert s[1..][k - 1..] == s[k..];
    }
  }

  lemma {:induction false} NameIsCode(e: string, b: string)
    requires forall i :: 0 <= i < |e| ==> IsNameBody(e[i])
    ensures !(EndsWithQ(e) && b != "" && b[0] == '\'') ==> CodeLen(e + b) == |e| + CodeLen(b)
    ensures EndsWithQ(e) && b != "" && b[0] == '\'' ==> CodeLen(e + b) < |e|
  {
    hide IsNameBody;
    if e == "" {
      assert e + b == b;
    } else {
      NameIsCode(e[1..], b);
      assert (e + b)[1..] == e[1..] + b;
      NameByteIsCode(e + b);
      assert |e| > 1 ==> (e + b)[1] == e[1];
      assert |e| > 1 ==> e[1..][|e| - 2] == e[|e| - 1];
      BodyNoQuote(e);
      assert |e| == 1 ==> e + b == [e[0]] + b && (b != "" ==> (e + b)[1] == b[0]);
    }
  }

  lemma BodyNoQuote(e: string)
    requires forall i :: 0 <= i < |e| ==> IsNameBody(e[i])
    ensures |e| > 1 ==> e[1] != '\''
  {
  }

  lemma NameByteIsCode(s: string)
    requires s != "" && IsNameBody(s[0])
    ensures Head(s).Code? <==> !((s[0] == 'q' || s[0] == 'Q') && |s| > 1 && s[1] == '\'')
  {
  }

  lemma ColonIsCode(s: string)
    ensures CodeLen(":" + s) == 1 + CodeLen(s)
  {
    hide CursorLen;
    assert (":" + s)[1..] == s;
  }

  lemma EncodeEndsAlike(name: string)
    requires name != "" && forall i :: 0 <= i < |name| ==> IsNameBody(name[i])
    ensures EndsWithQ(Encode(name)) <==> EndsWithQ(name)
  {
    hide IsNameBody, Encode, NeedsEncoding, IsUserName, HasSentinel;
    EncodeIsPlain(name);
    assert |Encode(name)| > 0;
  }

  lemma CodeStep(s: string)
    ensures CodeLen(s) == if s != "" && Head(s).Code? then 1 + CodeLen(s[1..]) else 0
    ensures CodeLen(s) > 0 ==> s[0] != '\''
  {
  }

  lemma QGlueStep(x: string, after: string)
    ensures !QGlue("", after)
    ensures x != "" ==>
              (QGlue(x, after) <==>
               if Width(x) < |x| then QGlue(x[Width(x)..], after)
               else BindAt(x) && MarkLen(x[BindEnd(x)..]) > 0 && EndsWithQ(x[1..BindEnd(x)])
                    && after != "" && after[0] == '\'')
  {
    hide BindAt, MarkLen, EndsWithQ;
  }

  /** An unmarked bind at the end of a run does not run into a q-quote. */
  lemma UnmarkedAtEnd(x: string, a: string)
    requires BindAt(x) && Width(x) == |x| && CodeLen(x + a) == |x| && MarkLen(x[BindEnd(x)..]) == 0
    ensures !(EndsWithQ(x[1..BindEnd(x)]) && a != "" && a[0] == '\'')
  {
    hide *;
    BindEndsRun(x);
    NameOfBind(x);
    var name := x[1..BindEnd(x)];
    NameIsCode(name, a);
    ConcatAssoc(":", name, a);
    ColonIsCode(name + a);
  }

  lemma BindEndsRun(x: string)
    requires BindAt(x) && Width(x) == |x| && MarkLen(x[BindEnd(x)..]) == 0
    ensures BindEnd(x) == |x| && x == ":" + x[1..BindEnd(x)]
  {
    hide MarkLen;
  }

  /** A quote directly after the driver name comes from a dropped marker only. */
  lemma GlueAtBind(x: string, a: string, t: string)
    requires BindAt(x) && CodeLen(x + a) == |x| && CodeLen(x[Width(x)..] + a) == |x| - Width(x)
    requires Alike(x[Width(x)..] + a, t)
    ensures EndsWithQ(x[1..BindEnd(x)]) && t != "" && t[0] == '\'' <==> Width(x) == |x| && QGlue(x, a)
  {
    hide CodeLen, EndsWithQ, Alike, MarkLen, BindAt, BindEnd, Width, QGlue;
    var rest := x[Width(x)..];
    QGlueStep(x, a);
    AlikeFirst(rest + a, t);
    if Width(x) == |x| {
      assert rest + a == a;
      if MarkLen(x[BindEnd(x)..]) == 0 {
        UnmarkedAtEnd(x, a);
      }
    } else {
      CodeStep(rest + a);
    }
  }

  /** The rewritten run x in front of b is code up to b, unless the marker rule glues. */
  lemma {:induction false} RunStaysCode(x: string, a: string, b: string)
    requires Alike(a, b) && CodeLen(x + a) == |x| && CodeLen(b) == 0
    ensures CodeLen(RewriteRun(x) + b) == |RewriteRun(x)| <==> !QGlue(x, a)
    ensures CodeLen(RewriteRun(x) + b) <= |RewriteRun(x)|
    decreases |x|
  {
    hide *;
    QGlueStep(x, a);
    if x == "" {
      EmptyRun();
      assert "" + b == b;
    } else {
      var w := Width(x);
      var rest := x[w..];
      var r := RewriteRun(rest);
      CodeLenTail(x + a, w);
      assert (x + a)[w..] == rest + a;
      RunStaysCode(rest, a, b);
      RunAlike(rest, a, b);
      if BindAt(x) {
        var name := x[1..BindEnd(x)];
        var e := Encode(name);
        NameOfBind(x);
        RewriteBind(x);
        GlueAtBind(x, a, r + b);
        assert RewriteRun(x) + b == ":" + (e + (r + b));
        ColonIsCode(e + (r + b));
        EncodeIsPlain(name);
        EncodeEndsAlike(name);
        NameIsCode(e, r + b);
        QGlueStep(rest, a);
      } else {
        RewritePlain(x);
        TokenStep(x, 0);
        QGlueStep(rest, a);
        assert RewriteRun(x) + b == [x[0]] + (r + b);
        assert x + a == [x[0]] + (rest + a);
        AlikeCons(x[0], rest + a, r + b);
        CodeAlike(x + a, [x[0]] + (r + b));
        assert ([x[0]] + (r + b))[1..] == r + b;
        CodeStep([x[0]] + (r + b));
        CodeStep(x + a);
      }
    }
  }

  // ----- All segments -----

  lemma SegmentsStep(s: string)
    requires s != ""
    ensures CodeLen(s) > 0 ==> Segments(s) == [Run(s[..CodeLen(s)])] + Segments(s[CodeLen(s)..])
    ensures Head(s).Opaque? ==> Segments(s) == [Skipped(s[..Head(s).len])] + Segments(s[Head(s).len..])
    ensures Head(s).Broken? ==> Segments(s) == [Cut(s)]
    ensures CodeLen(s) == 0 <==> !Head(s).Code?
  {
    hide Head;
    NoCodeNoRun(s);
  }

  lemma RunIsFirst(x: string, b: string)
    requires x != "" && CodeLen(x + b) == |x|
    ensures Segments(x + b) == [Run(x)] + Segments(b)
  {
    hide *;
    SegmentsStep(x + b);
    assert (x + b)[..|x|] == x && (x + b)[|x|..] == b;
  }

  lemma ShortRunDiffers(x: string, b: string, rest: seq<Segment>)
    requires x != "" && CodeLen(x + b) < |x|
    ensures Segments(x + b) != [Run(x)] + rest
  {
    hide CodeLen, Head;
    SegmentsStep(x + b);
    assert ([Run(x)] + rest)[0] == Run(x);
    assert CodeLen(x + b) > 0 ==> Segments(x + b)[0].text == (x + b)[..CodeLen(x + b)];
    assert CodeLen(x + b) == 0 ==> !Segments(x + b)[0].Run?;
  }

  lemma SkippedIsFirst(y: string, b: string)
    requires y != "" && Head(y + b) == Opaque(|y|)
    ensures Segments(y + b) == [Skipped(y)] + Segments(b)
  {
    hide *;
    SegmentsStep(y + b);
    assert (y + b)[..|y|] == y && (y + b)[|y|..] == b;
  }

  lemma SegmentHeads(g: Segment, a: seq<Segment>, b: seq<Segment>)
    ensures [g] + a == [g] + b <==> a == b
  {
    assert ([g] + a)[1..] == a && ([g] + b)[1..] == b;
  }

  lemma RewriteAllStep(g: Segment, rest: seq<Segment>)
    ensures RewriteAll([g] + rest) == [RewriteSegment(g)] + RewriteAll(rest)
    ensures Join([g] + rest) == g.text + Join(rest)
    ensures Join(RewriteAll([g] + rest)) == RewriteSegment(g).text + Join(RewriteAll(rest))
    ensures NoQGlue([g] + rest) <==> (g.Run? ==> !QGlue(g.text, Join(rest))) && NoQGlue(rest)
  {
    hide QGlue, RewriteRun;
    assert ([g] + rest)[1..] == rest;
    assert RewriteAll([g] + rest)[1..] == RewriteAll(rest);
  }

  lemma NotCodeAlike(a: string, b: string)
    requires Alike(a, b) && CodeLen(a) == 0
    ensures CodeLen(b) == 0
  {
    hide *;
    AlikeFirst(a, b);
    CodeStep(a);
    CodeStep(b);
    if a != "" {
      CodeAlike(a, b);
    }
  }

  lemma RewriteRunNotEmpty(x: string)
    requires x != ""
    ensures RewriteRun(x) != ""
  {
    hide *;
    EmptyRun();
    RunAlike(x, "", "");
    assert x + "" == x && RewriteRun(x) + "" == RewriteRun(x);
    AlikeFirst(x, RewriteRun(x));
  }

  /** The segments of the rewritten query are the rewritten segments, unless a marker glued a q-quote. */
  lemma {:induction false} SegmentsStable(s: string)
    ensures Segments(Join(RewriteAll(Segments(s)))) == RewriteAll(Segments(s)) <==> NoQGlue(Segments(s))
    decreases |s|
  {
    hide *;
    if s == "" {
      NoSegments();
    } else {
      SegmentsStep(s);
      if CodeLen(s) > 0 {
        RunCase(s);
        SegmentsStable(s[CodeLen(s)..]);
      } else if Head(s).Opaque? {
        SkippedCase(s);
        SegmentsStable(s[Head(s).len..]);
      } else {
        NoSegments();
        RewriteAllStep(Cut(s), []);
        RewriteCut(s);
      }
    }
  }

  lemma NoSegments()
    ensures Segments("") == [] && RewriteAll([]) == [] && Join([]) == "" && NoQGlue([])
  {
  }

  lemma RewriteCut(s: string)
    ensures RewriteSegment(Cut(s)) == Cut(s) && RewriteSegment(Skipped(s)) == Skipped(s)
    ensures RewriteSegment(Run(s)) == Run(RewriteRun(s))
    ensures s + "" == s && [Cut(s)] + [] == [Cut(s)]
  {
    hide RewriteRun;
  }

  lemma RunCase(s: string)
    requires CodeLen(s) > 0
    ensures var n := CodeLen(s); var rest := Segments(s[n..]);
            && Segments(s) == [Run(s[..n])] + rest
            && (Segments(Join(RewriteAll(Segments(s)))) == RewriteAll(Segments(s)) <==>
                !QGlue(s[..n], Join(rest)) && Segments(Join(RewriteAll(rest))) == RewriteAll(rest))
            && (NoQGlue(Segments(s)) <==> !QGlue(s[..n], Join(rest)) && NoQGlue(rest))
  {
    hide *;
    var n := CodeLen(s);
    var x, after := s[..n], s[n..];
    var rest := Segments(after);
    var b := Join(RewriteAll(rest));
    CodeStep(s);
    SegmentsStep(s);
    JoinSegments(after);
    JoinAlike(rest);
    CodeLenTail(s, n);
    NotCodeAlike(after, b);
    assert s == x + after;
    RunStaysCode(x, after, b);
    RewriteRunNotEmpty(x);
    RewriteAllStep(Run(x), rest);
    RewriteCut(x);
    if QGlue(x, after) {
      ShortRunDiffers(RewriteRun(x), b, RewriteAll(rest));
    } else {
      RunIsFirst(RewriteRun(x), b);
      SegmentHeads(Run(RewriteRun(x)), Segments(b), RewriteAll(rest));
    }
  }

  lemma SkippedCase(s: string)
    requires s != "" && Head(s).Opaque?
    ensures var k := Head(s).len; var rest := Segments(s[k..]);
            && Segments(s) == [Skipped(s[..k])] + rest
            && (Segments(Join(RewriteAll(Segments(s)))) == RewriteAll(Segments(s)) <==>
                Segments(Join(RewriteAll(rest))) == RewriteAll(rest))
            && (NoQGlue(Segments(s)) <==> NoQGlue(rest))
  {
    hide *;
    var k := Head(s).len;
    var y, after := s[..k], s[k..];
    var rest := Segments(after);
    var b := Join(RewriteAll(rest));
    SegmentsStep(s);
    JoinSegments(after);
    JoinAlike(rest);
    assert s == y + after;
    OpaqueStable(y, after, b);
    RewriteAllStep(Skipped(y), rest);
    RewriteCut(y);
    SkippedIsFirst(y, b);
    SegmentHeads(Skipped(y), Segments(b), RewriteAll(rest));
  }

  // ----- The rewritten text -----

  lemma RegionsStep(q: string, at: nat)
    requires at < |q|
    ensures var s := q[at..];
            && (CodeLen(s) > 0 ==>
                RegionsFrom(q, at) == Prepend(Region(at, at + CodeLen(s)), RegionsFrom(q, at + CodeLen(s))))
            && (Head(s).Opaque? ==> RegionsFrom(q, at) == RegionsFrom(q, at + Head(s).len))
            && (Head(s).Broken? ==> RegionsFrom(q, at).Err?)
  {
    hide Head;
    NoCodeNoRun(q[at..]);
  }

  lemma RewrittenStep(q: string, from: nat, r: Region, rest: seq<Region>)
    requires from <= r.start < r.end <= |q| && Ordered(rest, r.end, |q|)
    ensures Ordered([r] + rest, from, |q|)
    ensures Rewritten(q, [r] + rest, from) ==
            q[from..r.start] + RewriteRun(q[r.start..r.end]) + Rewritten(q, rest, r.end)
    ensures from <= |q| && Rewritten(q, [], from) == q[from..]
  {
    hide RewriteRun;
    assert ([r] + rest)[1..] == rest;
  }

  /** The transformed text is the join of the rewritten segments. */
  lemma {:induction false} RewrittenIsJoin(q: string, from: nat, at: nat)
    requires from <= at <= |q| && RegionsFrom(q, at).Ok?
    ensures var regions := RegionsFrom(q, at).value;
            && Ordered(regions, from, |q|)
            && Rewritten(q, regions, from) == q[from..at] + Join(RewriteAll(Segments(q[at..])))
    decreases |q| - at
  {
    hide *;
    RegionsOrdered(q, at);
    OrderedWeaken(RegionsFrom(q, at).value, at, from, |q|);
    if at == |q| {
      NoSegments();
      NoRegions(q, from);
    } else {
      var s := q[at..];
      SegmentsStep(s);
      RegionsStep(q, at);
      if CodeLen(s) > 0 {
        var n := CodeLen(s);
        FirstOk(Region(at, at + n), RegionsFrom(q, at + n));
        RewrittenIsJoin(q, at + n, at + n);
        RewrittenStep(q, from, Region(at, at + n), RegionsFrom(q, at + n).value);
        RewriteAllStep(Run(s[..n]), Segments(s[n..]));
        RewriteCut(s[..n]);
        assert q[at..at + n] == s[..n] && q[at + n..at + n] == "" && s[n..] == q[at + n..];
        JoinRegion(q[from..at], RewriteRun(s[..n]), Join(RewriteAll(Segments(s[n..]))));
      } else {
        var k := Head(s).len;
        RewrittenIsJoin(q, from, at + k);
        RewriteAllStep(Skipped(s[..k]), Segments(s[k..]));
        RewriteCut(s[..k]);
        assert q[from..at + k] == q[from..at] + s[..k] && s[k..] == q[at + k..];
      }
    }
  }

  lemma NoRegions(q: string, from: nat)
    requires from <= |q|
    ensures RegionsFrom(q, |q|) == Ok([]) && Rewritten(q, [], from) == q[from..]
    ensures q[|q|..] == "" && q[from..] == q[from..|q|] + ""
  {
  }

  lemma FirstOk(r: Region, rest: Result<seq<Region>, QuoteError>)
    ensures Prepend(r, rest).Ok? <==> rest.Ok?
    ensures rest.Ok? ==> Prepend(r, rest).value == [r] + rest.value
  {
  }

  lemma JoinRegion(a: string, b: string, c: string)
    ensures a + b + ("" + c) == a + (b + c)
  {
    assert "" + c == c;
  }
}
