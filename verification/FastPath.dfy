/**
  The one-pass scan that decides whether a query without bind options needs the
  full rewrite at all.
 */
module FastPath {
  import opened Text
  import opened BindNames
  import opened SqlLexer
  import opened BindTokens
  import opened BindTransform
  import opened RelexQuery
  import opened QueryMeaning
  import opened LexerReference

  datatype Flags = Flags(dollarHash: bool, sentinel: bool, qQuote: bool, cursor: bool, bind: bool) {
    predicate NeedsScan() {
      dollarHash || sentinel || qQuote || cursor || bind
    }
  }

  const NO_FLAGS := Flags(false, false, false, false, false)

  function Or(a: Flags, b: Flags): Flags {
    Flags(a.dollarHash || b.dollarHash, a.sentinel || b.sentinel, a.qQuote || b.qQuote,
          a.cursor || b.cursor, a.bind || b.bind)
  }

  predicate CursorWordAt(s: string, i: nat) {
    i + 6 <= |s| && Upper(s[i..i + 6]) == "CURSOR"
  }

  predicate HasCursorWord(s: string) {
    exists i :: 0 <= i < |s| && CursorWordAt(s, i)
  }

  predicate CommentOpens(s: string) {
    |s| > 1 && s[0] == '/' && s[1] == '*'
  }

  /** Bytes in front of the first end mark, or all of them. */
  function BodyLen(s: string): (n: nat)
    ensures n <= |s|
  {
    if |s| < 2 then |s| else if s[0] == '*' && s[1] == '/' then 0 else 1 + BodyLen(s[1..])
  }

  /** How far the flag scan moves on from the head of s. */
  function FlagWidth(s: string): (n: nat)
    requires s != ""
    ensures 0 < n <= |s|
  {
    if CommentOpens(s) then 2 + BlockTail(s[2..]) else 1
  }

  function HeadFlags(s: string): Flags
    requires s != ""
  {
    if IsMarked(s[0]) then NO_FLAGS.(dollarHash := true)
    else if s[0] == ':' then NO_FLAGS.(bind := |s| > 1 && s[1] != '=')
    else if QQuoteAt(s) then NO_FLAGS.(qQuote := true)
    else if CommentOpens(s) then NO_FLAGS.(cursor := HasCursorWord(s[2..2 + BodyLen(s[2..])]))
    else if s[0] == '_' then NO_FLAGS.(sentinel := SentinelAt(s, 0))
    else NO_FLAGS
  }

  function FlagsOf(s: string): Flags
    decreases |s|
  {
    if s == "" then NO_FLAGS else Or(HeadFlags(s), FlagsOf(s[FlagWidth(s)..]))
  }

  predicate Quiet(s: string) {
    !FlagsOf(s).NeedsScan()
  }

  method ContainsCursorWord(s: string) returns (found: bool)
    ensures found <==> HasCursorWord(s)
  {
    var offset := 0;
    while offset < |s|
      invariant offset <= |s|
      invariant forall i :: 0 <= i < offset ==> !CursorWordAt(s, i)
    {
      var ok := MatchCursorWord(s, offset, |s|);
      if ok {
        assert CursorWordAt(s, offset);
        return true;
      }
      offset := offset + 1;
    }
    return false;
  }

  /** Where the comment at byte `start` ends, and whether it names a cursor. */
  method ScanComment(s: string, start: nat) returns (end: nat, cursor: bool)
    requires start < |s| && CommentOpens(s[start..])
    ensures end == start + FlagWidth(s[start..])
    ensures cursor <==> HeadFlags(s[start..]).cursor
  {
    hide HasCursorWord;
    ghost var t := s[start..];
    assert t[2..] == s[start + 2..];
    var i := start + 2;
    while i + 1 < |s| && !(s[i] == '*' && s[i + 1] == '/')
      invariant start + 2 <= i <= |s|
      invariant BodyLen(t[2..]) == i - start - 2 + BodyLen(s[i..])
      invariant BlockTail(t[2..]) == i - start - 2 + BlockTail(s[i..])
    {
      i := i + 1;
    }
    if i + 1 < |s| {
      end := i + 2;
    } else {
      i := |s|;
      end := |s|;
    }
    assert s[start + 2..i] == t[2..2 + BodyLen(t[2..])];
    cursor := ContainsCursorWord(s[start + 2..i]);
  }

  lemma OrUnit(f: Flags)
    ensures Or(NO_FLAGS, f) == f == Or(f, NO_FLAGS)
  {
  }

  lemma OrAssoc(a: Flags, b: Flags, c: Flags)
    ensures Or(Or(a, b), c) == Or(a, Or(b, c))
  {
  }

  lemma NonComment(t: string)
    requires t != "" && !CommentOpens(t)
    ensures FlagWidth(t) == 1
    ensures HeadFlags(t) ==
            if IsMarked(t[0]) then NO_FLAGS.(dollarHash := true)
            else if t[0] == ':' && |t| > 1 && t[1] != '=' then NO_FLAGS.(bind := true)
            else if QQuoteAt(t) then NO_FLAGS.(qQuote := true)
            else if t[0] == '_' && SentinelAt(t, 0) then NO_FLAGS.(sentinel := true)
            else NO_FLAGS
  {
  }

  /** One pass over the query that collects the flags. */
  method ScanRewriteFlags(s: string) returns (flags: Flags)
    ensures flags == FlagsOf(s)
  {
    hide HeadFlags, FlagWidth, SentinelAt, Or;
    flags := NO_FLAGS;
    OrUnit(FlagsOf(s));
    var i := 0;
    while i < |s|
      invariant 0 <= i <= |s|
      invariant FlagsOf(s) == Or(flags, FlagsOf(s[i..]))
    {
      ghost var t := s[i..];
      OrAssoc(flags, HeadFlags(t), FlagsOf(t[FlagWidth(t)..]));
      var here := NO_FLAGS;
      var next := i + 1;
      if s[i] == '/' && i + 1 < |s| && s[i + 1] == '*' {
        var end, cursor := ScanComment(s, i);
        CommentFlags(t);
        here := NO_FLAGS.(cursor := cursor);
        next := end;
      } else {
        NonComment(t);
        if IsMarked(s[i]) {
          here := NO_FLAGS.(dollarHash := true);
        } else if s[i] == ':' && i + 1 < |s| && s[i + 1] != '=' {
          here := NO_FLAGS.(bind := true);
        } else if (s[i] == 'q' || s[i] == 'Q') && i + 1 < |s| && s[i + 1] == '\'' {
          here := NO_FLAGS.(qQuote := true);
        } else if s[i] == '_' && SentinelAt(s[i..], 0) {
          here := NO_FLAGS.(sentinel := true);
        }
      }
      flags := Or(flags, here);
      i := next;
    }
    OrUnit(flags);
  }

  lemma CommentFlags(t: string)
    requires CommentOpens(t)
    ensures HeadFlags(t) == NO_FLAGS.(cursor := HeadFlags(t).cursor)
  {
  }

  // ----- A quiet query needs no rewrite -----

  lemma QuietStep(s: string)
    requires s != "" && Quiet(s)
    ensures Quiet(s[FlagWidth(s)..]) && !HeadFlags(s).NeedsScan()
  {
    hide HeadFlags, FlagWidth;
  }

  predicate HoldsCommentOpen(s: string) {
    exists i :: 0 <= i < |s| && CommentOpens(s[i..])
  }

  /** No comment mark opens inside a quoted token or a line comment. */
  predicate Aligned(segments: seq<Segment>) {
    forall g :: g in segments && g.Skipped? && g.text != "" && g.text[0] in {'\'', '"', '-'} ==>
      !HoldsCommentOpen(g.text)
  }

  /** Reading past x byte by byte stays quiet. */
  lemma {:induction false} QuietSkips(x: string, after: string)
    requires Quiet(x + after)
    requires forall i :: 0 <= i < |x| ==> !CommentOpens(x[i..] + after)
    ensures Quiet(after)
    ensures forall i :: 0 <= i < |x| ==> !HeadFlags(x[i..] + after).NeedsScan()
  {
    hide CommentOpens, HeadFlags, Quiet;
    if x == "" {
      assert x + after == after;
    } else {
      assert x[0..] == x;
      QuietStep(x + after);
      ByteWidth(x + after);
      assert (x + after)[1..] == x[1..] + after;
      forall i | 0 <= i < |x| - 1 ensures !CommentOpens(x[1..][i..] + after) {
        assert x[1..][i..] == x[i + 1..];
      }
      QuietSkips(x[1..], after);
      forall i | 0 <= i < |x| ensures !HeadFlags(x[i..] + after).NeedsScan() {
        if i > 0 {
          assert x[1..][i - 1..] == x[i..];
        }
      }
    }
  }

  lemma ByteWidth(s: string)
    requires s != "" && !CommentOpens(s)
    ensures FlagWidth(s) == 1
  {
  }

  /** A cursor comment at the head raises the cursor flag. */
  lemma CursorRaisesFlag(s: string)
    requires CursorLen(s) > 0
    ensures HeadFlags(s).cursor
  {
    var a := 2 + SpaceLen(s[2..]);
    var n := CursorLen(s);
    CursorHasNoColon(s);
    assert forall i :: 0 <= i < n - 4 ==> s[2..][i] == s[i + 2];
    BodyReaches(s[2..], n - 4);
    var body := s[2..2 + BodyLen(s[2..])];
    assert 2 + BodyLen(s[2..]) >= a + 6;
    SliceOfSlice(s, 2, 2 + BodyLen(s[2..]), a - 2, a + 4);
    assert CursorWordAt(body, a - 2);
  }

  lemma {:induction false} BodyReaches(s: string, k: nat)
    requires k <= |s| - 2
    requires forall i :: 0 <= i < k ==> s[i] != '*'
    ensures BodyLen(s) >= k
  {
    if k > 0 {
      assert forall i :: 0 <= i < k - 1 ==> s[1..][i] == s[i + 1];
      BodyReaches(s[1..], k - 1);
    }
  }

  /** Every colon of the text is the one of an assignment, or its last byte. */
  predicate Untouched(x: string) {
    forall i :: 0 <= i < |x| - 1 && x[i] == ':' ==> x[i + 1] == '='
  }

  lemma QuietHead(s: string)
    requires Quiet(s) && s != "" && Head(s).Code?
    ensures !CommentOpens(s) && Quiet(s[1..])
    ensures |s| > 1 && s[0] == ':' ==> s[1] == '='
  {
    QuietStep(s);
    hide FlagsOf, SentinelAt, HasCursorWord, Quiet;
    if CommentOpens(s) {
      CursorRaisesFlag(s);
    }
  }

  lemma {:induction false} QuietRun(s: string)
    requires Quiet(s)
    ensures Quiet(s[CodeLen(s)..]) && Untouched(s[..CodeLen(s)])
  {
    hide Quiet, Head;
    if CodeLen(s) > 0 {
      QuietHead(s);
      QuietRun(s[1..]);
      var n := CodeLen(s);
      var t := s[1..][..n - 1];
      assert s[1..][n - 1..] == s[n..];
      forall i | 0 <= i < n - 1 && s[..n][i] == ':' ensures s[..n][i + 1] == '=' {
        if i > 0 {
          assert t[i - 1] == s[..n][i] && t[i] == s[..n][i + 1];
        }
      }
    }
  }

  /** A quiet text is read on quietly after an aligned token; it opens no q-quote. */
  lemma QuietOpaque(s: string)
    requires Quiet(s) && s != "" && !Head(s).Code?
    ensures Head(s).Opaque?
    ensures s[0] in {'\'', '"', '-'} ==> !HoldsCommentOpen(s[..Head(s).len]) ==> Quiet(s[Head(s).len..])
    ensures s[0] !in {'\'', '"', '-'} ==> Quiet(s[Head(s).len..])
  {
    hide FlagsOf, SentinelAt, HasCursorWord, HoldsCommentOpen, Quiet, QuoteTail, LineTail, BlockTail, CursorLen;
    QuietStep(s);
    if s[0] in {'\'', '"', '-'} {
      var k := Head(s).len;
      if !HoldsCommentOpen(s[..k]) {
        NoOpenInside(s);
        assert s == s[..k] + s[k..];
        QuietSkips(s[..k], s[k..]);
      }
    }
  }

  lemma NoOpenInside(s: string)
    requires s != "" && s[0] in {'\'', '"', '-'} && Head(s).Opaque? && !HoldsCommentOpen(s[..Head(s).len])
    ensures var k := Head(s).len; forall i :: 0 <= i < k ==> !CommentOpens(s[..k][i..] + s[k..])
  {
    hide QuoteTail, LineTail;
    var k := Head(s).len;
    TokenEnd(s);
    forall i | 0 <= i < k ensures !CommentOpens(s[..k][i..] + s[k..]) {
      assert !CommentOpens(s[..k][i..]);
      assert s[..k][i..] + s[k..] == s[i..];
      assert i < k - 1 ==> s[..k][i..][0] == s[i] && s[..k][i..][1] == s[i + 1];
      assert s[i..][0] == s[i] && (i + 1 < |s| ==> s[i..][1] == s[i + 1]);
    }
  }

  /** No quoted token or line comment shares a comment mark with what follows it. */
  lemma TokenEnd(s: string)
    requires s != "" && s[0] in {'\'', '"', '-'} && Head(s).Opaque?
    ensures var k := Head(s).len; k < |s| ==> s[k - 1] != '/' || s[k] != '*'
  {
    if s[0] == '-' {
      LineTailEnds(s[2..]);
      var n := LineTail(s[2..]);
      assert s[2..][n..] == s[2 + n..];
      assert 2 + n < |s| ==> s[2..][n] == s[2 + n];
    } else {
      QuoteTailEnds(s[1..], s[0]);
      var n := QuoteTail(s[1..], s[0]);
      assert n > 0 ==> s[1..][n - 1] == s[n];
    }
  }

  predicate AllUntouched(q: string, regions: seq<Region>)
    requires InBounds(regions, |q|)
  {
    regions == [] || (Untouched(RegionText(q, regions[0])) && AllUntouched(q, regions[1..]))
  }

  lemma AlignedSplit(g: Segment, rest: seq<Segment>)
    requires Aligned([g] + rest)
    ensures Aligned(rest)
    ensures g.Skipped? && g.text != "" && g.text[0] in {'\'', '"', '-'} ==> !HoldsCommentOpen(g.text)
  {
    hide HoldsCommentOpen;
    assert g in [g] + rest;
    assert forall h :: h in rest ==> h in [g] + rest;
  }

  lemma {:induction false} QuietScan(q: string, at: nat)
    requires at <= |q| && Quiet(q[at..]) && Aligned(Segments(q[at..]))
    ensures RegionsFrom(q, at).Ok? && InBounds(RegionsFrom(q, at).value, |q|)
    ensures AllUntouched(q, RegionsFrom(q, at).value)
    decreases |q| - at
  {
    hide Head, CodeLen, Quiet, Segments, Untouched, Aligned;
    if at < |q| {
      var s := q[at..];
      SegmentsStep(s);
      if CodeLen(s) > 0 {
        var n := CodeLen(s);
        QuietRun(s);
        AlignedSplit(Run(s[..n]), Segments(s[n..]));
        QuietScan(q, at + n);
        assert RegionText(q, Region(at, at + n)) == s[..n];
      } else {
        QuietOpaque(s);
        var k := Head(s).len;
        AlignedSplit(Skipped(s[..k]), Segments(s[k..]));
        assert s[..k][0] == s[0];
        QuietScan(q, at + k);
      }
    }
  }

  lemma UntouchedRun(x: string, at: nat, unsafe: set<string>)
    requires Untouched(x)
    ensures RewriteRun(x) == x && Names(Tokens(x)) == [] && NoBadStart(x)
    ensures MarkersIn(x, at, unsafe) == Found([], [])
  {
    hide Tokens, RewriteRun, Names, MarkLen;
    forall i | 0 <= i < |x| ensures !BindAt(x[i..]) && !MarkedColon(x[i..]) {
      assert i + 1 < |x| ==> x[i..][0] == x[i] && x[i..][1] == x[i + 1];
    }
    PlainSteps(x, |x|, at);
    MarkersSkip(x, |x|, at, unsafe);
    EmptyTail(x, at, unsafe);
  }

  lemma EmptyTail(x: string, at: nat, unsafe: set<string>)
    ensures x[|x|..] == "" && x[..|x|] == x
    ensures RewriteRun("") == "" && Names(Tokens("")) == [] && MarkersIn("", at + |x|, unsafe) == Found([], [])
  {
  }

  lemma {:induction false} UntouchedRegions(q: string, regions: seq<Region>, at: nat, unsafe: set<string>)
    requires Ordered(regions, at, |q|) && InBounds(regions, |q|) && AllUntouched(q, regions)
    ensures Rewritten(q, regions, at) == q[at..]
    ensures AllNames(q, regions) == [] && AllGoodStarts(q, regions)
    ensures AllMarkers(q, regions, unsafe) == Found([], [])
  {
    hide Tokens, RewriteRun, Names, MarkersIn, NoBadStart, Untouched;
    if regions != [] {
      var r := regions[0];
      UntouchedRun(RegionText(q, r), r.start, unsafe);
      UntouchedRegions(q, regions[1..], r.end, unsafe);
      assert q[at..] == q[at..r.start] + q[r.start..r.end] + q[r.end..];
    }
  }

  /**
    When the flag scan finds nothing and no comment mark opens inside a quoted
    token or a line comment, the full scan would change nothing: it succeeds,
    finds no bind and no marker, and returns the query as it is.
   */
  lemma FastPathRefinesFullScan(q: string, unsafe: set<string>)
    requires Quiet(q) && Aligned(Segments(q))
    ensures RegionsFrom(q, 0).Ok?
    ensures var regions := RegionsFrom(q, 0).value;
            && Ordered(regions, 0, |q|) && InBounds(regions, |q|)
            && AllMarkers(q, regions, unsafe) == Found([], [])
            && AllNames(q, regions) == [] && AllGoodStarts(q, regions)
            && Rewritten(q, regions, 0) == q
  {
    assert q[0..] == q;
    QuietScan(q, 0);
    RegionsOrdered(q, 0);
    UntouchedRegions(q, RegionsFrom(q, 0).value, 0, unsafe);
  }

  lemma {:induction false} NoStarNoEnd(s: string)
    requires '*' !in s
    ensures BlockTail(s) == |s| == BodyLen(s)
  {
    if |s| >= 2 {
      NoStarNoEnd(s[1..]);
    }
  }

  /**
    Outside that condition the flag scan can miss a bind: here it takes the
    comment mark inside the literal for a comment that never ends.
   */
  lemma FastPathMissesBind()
    ensures Quiet("'/*':x") && !Aligned(Segments("'/*':x"))
    ensures BindsOf(Segments("'/*':x")) == ["x"]
  {
    hide Quiet, Segments, Tokens, Names;
    QuietLiteral();
    LiteralThenRun();
    OneBind();
    var lit, run := Skipped("'/*'"), Run(":x");
    assert CommentOpens("'/*'"[1..]) && HoldsCommentOpen("'/*'");
    assert lit in [lit, run];
    assert [lit, run][1..] == [run] && [run][1..] == [];
    assert BindsOf([]) == [] && BindsOf([run]) == ["x"] + [];
    assert BindsOf([lit, run]) == [] + BindsOf([run]);
  }

  lemma QuietLiteral()
    ensures Quiet("'/*':x")
  {
    var q, t := "'/*':x", "/*':x";
    assert q[1..] == t && t[2..] == "':x";
    NoStarNoEnd("':x");
    assert FlagWidth(t) == |t| && t[|t|..] == "";
    assert HeadFlags(t) == NO_FLAGS && FlagsOf("") == NO_FLAGS;
    assert FlagsOf(t) == NO_FLAGS;
  }

  lemma LiteralThenRun()
    ensures Segments("'/*':x") == [Skipped("'/*'"), Run(":x")]
  {
    hide *;
    var q := "'/*':x";
    NothingDoubled();
    QuotedTokenLexes("/*", '\'', ":x");
    assert q == ['\''] + "/*" + ['\''] + ":x";
    assert q[..4] == "'/*'" && q[4..] == ":x";
    BindIsCode();
    SegmentsStep(q);
    SegmentsStep(":x");
    NoSegments();
    assert ":x"[..2] == ":x" && ":x"[2..] == "";
  }

  lemma NothingDoubled()
    ensures Doubled("/*", '\'') == "/*"
  {
    assert "/*"[1..] == "*" && "*"[1..] == "";
  }

  lemma BindIsCode()
    ensures CodeLen(":x") == 2
  {
    hide CursorLen, QTail;
    assert ":x"[1..] == "x" && "x"[1..] == "";
    assert CodeLen("") == 0 && CodeLen("x") == 1;
  }

  lemma OneBind()
    ensures Names(Tokens(":x")) == ["x"]
  {
    hide CursorLen;
    var b := ":x";
    assert b[1..] == "x" && "x"[1..] == "" && NameLen("x") == 1;
    assert BindAt(b) && BindEnd(b) == 2 && b[2..] == "" && b[1..2] == "x";
    NoMarkInNothing();
    TokenStep(b, 0);
    assert Tokens("") == [] && Names([]) == [];
  }

  lemma NoMarkInNothing()
    ensures MarkLen("") == 0
  {
  }
}
