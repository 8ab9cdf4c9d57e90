/** The main results about the rewritten query, stated over its reading. */
module QueryMeaning {
  import opened Text
  import opened BindNames
  import opened SqlLexer
  import opened BindTokens
  import opened BindTransform
  import opened Lookahead
  import opened Relex
  import opened RelexQuery

  /** What a reader of the query sees: the tokens of a code run, or a stretch skipped whole. */
  datatype Piece = InCode(tokens: seq<Token>) | Whole(segment: Segment)

  function PieceOf(g: Segment): Piece {
    if g.Run? then InCode(Tokens(g.text)) else Whole(g)
  }

  function Pieces(segments: seq<Segment>): seq<Piece> {
    if segments == [] then [] else [PieceOf(segments[0])] + Pieces(segments[1..])
  }

  function Reading(s: string): seq<Piece> {
    Pieces(Segments(s))
  }

  function DriverPiece(p: Piece): Piece {
    if p.InCode? then InCode(AllForDriver(p.tokens)) else p
  }

  /** The reading the driver should get: driver names for the binds, no markers. */
  function DriverReading(ps: seq<Piece>): seq<Piece> {
    if ps == [] then [] else [DriverPiece(ps[0])] + DriverReading(ps[1..])
  }

  function Rewrite(s: string): string {
    Join(RewriteAll(Segments(s)))
  }

  lemma RewriteIs(s: string)
    ensures Rewrite(s) == Join(RewriteAll(Segments(s)))
  {
    hide Segments, RewriteAll, Join;
  }

  predicate AllRunsClean(segments: seq<Segment>) {
    segments == [] || ((segments[0].Run? ==> RunClean(segments[0].text)) && AllRunsClean(segments[1..]))
  }

  lemma {:induction false} PiecesAgree(segments: seq<Segment>)
    ensures Pieces(RewriteAll(segments)) == DriverReading(Pieces(segments)) <==> AllRunsClean(segments)
  {
    hide Tokens, RewriteRun, AllForDriver, RunClean;
    if segments != [] {
      var g := segments[0];
      var a, b := Pieces(RewriteAll(segments[1..])), DriverReading(Pieces(segments[1..]));
      PiecesAgree(segments[1..]);
      assert RewriteAll(segments)[1..] == RewriteAll(segments[1..]);
      assert Pieces(segments)[1..] == Pieces(segments[1..]);
      var p, p' := PieceOf(RewriteSegment(g)), DriverPiece(PieceOf(g));
      assert Pieces(RewriteAll(segments)) == [p] + a;
      assert DriverReading(Pieces(segments)) == [p'] + b;
      if g.Run? {
        RunReadsBack(g.text);
      }
      PieceHeads(p, p', a, b);
    }
  }

  lemma PieceHeads(p: Piece, p': Piece, a: seq<Piece>, b: seq<Piece>)
    ensures [p] + a == [p'] + b <==> p == p' && a == b
  {
    assert ([p] + a)[0] == p && ([p] + a)[1..] == a;
    assert ([p'] + b)[0] == p' && ([p'] + b)[1..] == b;
  }

  function Written(p: Piece): Segment {
    if p.InCode? then Run(Render(p.tokens)) else p.segment
  }

  function WrittenAll(ps: seq<Piece>): seq<Segment> {
    if ps == [] then [] else [Written(ps[0])] + WrittenAll(ps[1..])
  }

  lemma {:induction false} WriteReading(segments: seq<Segment>)
    ensures WrittenAll(Pieces(segments)) == segments
    ensures WrittenAll(DriverReading(Pieces(segments))) == RewriteAll(segments)
  {
    hide Tokens, AllForDriver;
    if segments != [] {
      var g := segments[0];
      WriteReading(segments[1..]);
      assert Pieces(segments)[1..] == Pieces(segments[1..]);
      assert DriverReading(Pieces(segments))[1..] == DriverReading(Pieces(segments[1..]));
      if g.Run? {
        RenderTokens(g.text);
      }
      assert segments == [g] + segments[1..];
    }
  }

  /**
    Reading the rewritten query gives the driver's reading of the query exactly
    when dropping a marker never lets the text after it join the bind, start a
    q-quote with it, or form another marker.
   */
  lemma RewriteReadsBack(s: string)
    ensures Reading(Rewrite(s)) == DriverReading(Reading(s)) <==>
            AllRunsClean(Segments(s)) && NoQGlue(Segments(s))
  {
    hide Segments, RewriteAll, Join, Pieces, DriverReading, WrittenAll, AllRunsClean, NoQGlue;
    var segments := Segments(s);
    SegmentsStable(s);
    PiecesAgree(segments);
    WriteReading(segments);
    WriteReading(Segments(Rewrite(s)));
  }

  // ----- The guard a caller can check: what follows each marker -----

  predicate Separator(c: char) {
    IsSpace(c) || c == ',' || c == ')' || c == ';'
  }

  /** Every marker of the run is followed by a separator, or by the end of the query. */
  predicate RunGuarded(x: string, last: bool)
    decreases |x|
  {
    x == "" ||
    var rest := x[Width(x)..];
    && (BindAt(x) && MarkLen(x[BindEnd(x)..]) > 0 ==> if rest == "" then last else Separator(rest[0]))
    && RunGuarded(rest, last)
  }

  predicate Guarded(segments: seq<Segment>) {
    segments == [] ||
    ((segments[0].Run? ==> RunGuarded(segments[0].text, |segments| == 1)) && Guarded(segments[1..]))
  }

  /** The literals, identifiers and comments, in order. */
  function Literals(segments: seq<Segment>): seq<Segment> {
    if segments == [] then []
    else (if segments[0].Run? then [] else [segments[0]]) + Literals(segments[1..])
  }

  function BindsOf(segments: seq<Segment>): seq<string> {
    if segments == [] then []
    else (if segments[0].Run? then Names(Tokens(segments[0].text)) else []) + BindsOf(segments[1..])
  }

  function EncodeAll(names: seq<string>): seq<string> {
    if names == [] then [] else [Encode(names[0])] + EncodeAll(names[1..])
  }

  lemma {:induction false} EncodeAllAppend(a: seq<string>, b: seq<string>)
    ensures EncodeAll(a + b) == EncodeAll(a) + EncodeAll(b)
  {
    hide Encode;
    if a == [] {
      assert a + b == b;
    } else {
      EncodeAllAppend(a[1..], b);
      assert (a + b)[1..] == a[1..] + b;
    }
  }

  lemma {:induction false} EncodeAllSize(names: seq<string>)
    ensures |EncodeAll(names)| == |names|
  {
    hide Encode;
    if names != [] {
      EncodeAllSize(names[1..]);
    }
  }

  lemma SeparatorEndsName(c: char)
    requires Separator(c)
    ensures !IsNameBody(c) && c != '\''
  {
  }

  lemma GuardStep(x: string, last: bool)
    requires x != "" && RunGuarded(x, last)
    ensures var rest := x[Width(x)..];
            && RunGuarded(rest, last)
            && (BindAt(x) ==> rest == "" || !IsNameBody(rest[0]))
            && (BindAt(x) && MarkLen(x[BindEnd(x)..]) > 0 && rest == "" ==> last)
  {
    hide IsNameBody, MarkLen, BindEnd, Separator;
    var rest := x[Width(x)..];
    if BindAt(x) {
      if MarkLen(x[BindEnd(x)..]) == 0 {
        UnmarkedIsClean(x);
      } else if rest != "" {
        SeparatorEndsName(rest[0]);
      }
    }
  }

  lemma {:induction false} GuardedNoGlue(x: string, last: bool, after: string)
    requires RunGuarded(x, last) && (last ==> after == "")
    ensures !QGlue(x, after)
    decreases |x|
  {
    hide *;
    QGlueStep(x, after);
    if x != "" {
      GuardStep(x, last);
      if Width(x) < |x| {
        GuardedNoGlue(x[Width(x)..], last, after);
      }
    }
  }

  /** The binds of a guarded run, read again after rewriting. */
  lemma {:induction false} GuardedNames(x: string, last: bool)
    requires RunGuarded(x, last)
    ensures Names(Tokens(RewriteRun(x))) == EncodeAll(Names(Tokens(x)))
    decreases |x|
  {
    hide *;
    NoBinds();
    if x == "" {
      EmptyRun();
    } else {
      var rest := x[Width(x)..];
      var r := RewriteRun(rest);
      var out := RewriteRun(x);
      TokenStep(x, 0);
      GuardStep(x, last);
      GuardedNames(rest, last);
      EmptyRun();
      RunAlike(rest, "", "");
      assert rest + "" == rest && r + "" == r;
      AlikeFirst(rest, r);
      if BindAt(x) {
        var name := x[1..BindEnd(x)];
        NameOfBind(x);
        RewriteBind(x);
        ReadBack(name, r);
        TokenStep(out, 0);
        FirstIsBind(out);
        MarkHasNoColon(r);
        NoColonNoBind(r, MarkLen(r));
        PlainSteps(r, MarkLen(r), 0);
        EncodeAllAppend([name], Names(Tokens(rest)));
      } else {
        RewritePlain(x);
        PlainAlike(x);
        TokenStep(out, 0);
        assert ([x[0]] + r)[1..] == r;
      }
    }
  }

  lemma FirstIsBind(out: string)
    requires BindAt(out)
    ensures First(out).Bind? && First(out).name == out[1..BindEnd(out)]
  {
  }

  lemma NoBinds()
    ensures Names([]) == [] && EncodeAll([]) == []
    ensures forall n :: EncodeAll([n]) == [Encode(n)]
    ensures forall ns: seq<string> :: [] + ns == ns
  {
    hide Encode;
    forall n ensures EncodeAll([n]) == [Encode(n)] {
      assert [n][1..] == [];
    }
  }

  lemma {:induction false} GuardedSegments(segments: seq<Segment>)
    requires Guarded(segments)
    ensures NoQGlue(segments)
    ensures Literals(RewriteAll(segments)) == Literals(segments)
    ensures BindsOf(RewriteAll(segments)) == EncodeAll(BindsOf(segments))
  {
    hide Tokens, RewriteRun, Names, QGlue, RunGuarded;
    if segments != [] {
      var g := segments[0];
      GuardedSegments(segments[1..]);
      assert RewriteAll(segments)[1..] == RewriteAll(segments[1..]);
      if g.Run? {
        GuardedNoGlue(g.text, |segments| == 1, Join(segments[1..]));
        GuardedNames(g.text, |segments| == 1);
      }
      EncodeAllAppend(if g.Run? then Names(Tokens(g.text)) else [], BindsOf(segments[1..]));
    }
  }

  /**
    When every marker is followed by white space, `,`, `)`, `;` or the end of
    the query, the rewritten query holds the same literals and comments in the
    same order, and its binds are the query's binds, name by name.
   */
  lemma RewriteKeepsMeaning(s: string)
    requires Guarded(Segments(s))
    ensures Literals(Segments(Rewrite(s))) == Literals(Segments(s))
    ensures BindsOf(Segments(Rewrite(s))) == EncodeAll(BindsOf(Segments(s)))
  {
    hide Segments, RewriteAll, Join, Literals, BindsOf, Guarded;
    SegmentsStable(s);
    GuardedSegments(Segments(s));
  }

  // ----- What the transform method computes -----

  lemma FirstNames(q: string, r: Region, regions: seq<Region>, g: Segment, rest: seq<Segment>)
    requires InBounds([r] + regions, |q|) && RegionText(q, r) == g.text && g.Run?
    ensures InBounds(regions, |q|)
    ensures AllNames(q, [r] + regions) == Names(Tokens(g.text)) + AllNames(q, regions)
    ensures BindsOf([g] + rest) == Names(Tokens(g.text)) + BindsOf(rest)
  {
    hide Tokens, Names;
    assert ([r] + regions)[1..] == regions && ([g] + rest)[1..] == rest;
    assert forall x :: x in regions ==> x in [r] + regions;
  }

  lemma NoNames(q: string)
    ensures AllNames(q, []) == [] && BindsOf([]) == []
  {
  }

  lemma SkippedNames(g: Segment, rest: seq<Segment>)
    requires !g.Run?
    ensures BindsOf([g] + rest) == BindsOf(rest)
  {
    hide Tokens, Names;
    assert ([g] + rest)[1..] == rest && [] + BindsOf(rest) == BindsOf(rest);
  }

  lemma {:induction false} NamesOfRegions(q: string, at: nat)
    requires at <= |q| && RegionsFrom(q, at).Ok?
    ensures InBounds(RegionsFrom(q, at).value, |q|)
    ensures AllNames(q, RegionsFrom(q, at).value) == BindsOf(Segments(q[at..]))
    decreases |q| - at
  {
    hide Head, CodeLen, Tokens, Names, Segments, BindsOf, AllNames, InBounds;
    RegionsOrdered(q, at);
    OrderedInBounds(RegionsFrom(q, at).value, at, |q|);
    if at == |q| {
      NoSegments();
      NoNames(q);
    } else {
      var s := q[at..];
      SegmentsStep(s);
      if CodeLen(s) > 0 {
        var n := CodeLen(s);
        NamesOfRegions(q, at + n);
        assert RegionText(q, Region(at, at + n)) == s[..n];
        FirstNames(q, Region(at, at + n), RegionsFrom(q, at + n).value, Run(s[..n]), Segments(s[n..]));
      } else {
        var k := Head(s).len;
        NamesOfRegions(q, at + k);
        SkippedNames(Skipped(s[..k]), Segments(s[k..]));
      }
    }
  }

  /** The transform's text and names, in terms of the segments of the query. */
  lemma TransformMeaning(q: string)
    requires RegionsFrom(q, 0).Ok?
    ensures var regions := RegionsFrom(q, 0).value;
            && Ordered(regions, 0, |q|) && InBounds(regions, |q|)
            && Rewritten(q, regions, 0) == Rewrite(q)
            && AllNames(q, regions) == BindsOf(Segments(q))
  {
    hide Head, CodeLen, Tokens, Names, Segments, Join, RewriteAll;
    RegionsOrdered(q, 0);
    RewrittenIsJoin(q, 0, 0);
    NamesOfRegions(q, 0);
    assert q[0..] == q && q[0..0] == "";
    assert "" + Join(RewriteAll(Segments(q))) == Rewrite(q);
  }
}
