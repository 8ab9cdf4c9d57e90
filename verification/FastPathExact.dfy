/** Exactly when the flag scan may let a query through without the full rewrite. */
module FastPathExact {
  import opened Text
  import opened BindNames
  import opened SqlLexer
  import opened BindTokens
  import opened BindTransform
  import opened RelexQuery
  import opened QueryMeaning
  import opened FastPath

  /** The flag scan of s stops at position p, and does not skip it inside what it takes for a comment. */
  predicate Visited(s: string, p: nat)
    decreases |s|
  {
    s != "" && (p == 0 || (p >= FlagWidth(s) && Visited(s[FlagWidth(s)..], p - FlagWidth(s))))
  }

  /** What is left, at position p, of the code run that holds it; empty outside code. */
  function CodeAt(s: string, p: nat): string
    decreases |s|
  {
    if s == "" then ""
    else
      var n := CodeLen(s);
      if n > 0 then if p < n then s[p..n] else CodeAt(s[n..], p - n)
      else match Head(s) {
        case Opaque(k) => if p < k then "" else CodeAt(s[k..], p - k)
        case _ => ""
      }
  }

  /** A q-quote that breaks the scan begins at position p. */
  predicate BreaksAt(s: string, p: nat)
    decreases |s|
  {
    s != "" &&
    var n := CodeLen(s);
    if n > 0 then p >= n && BreaksAt(s[n..], p - n)
    else match Head(s) {
      case Opaque(k) => p >= k && BreaksAt(s[k..], p - k)
      case Broken(_) => p == 0
      case Code => false
    }
  }

  /** The code x begins with a bind, a rejected bind or a marked name. */
  predicate Telling(x: string) {
    BindAt(x) || BadBindAt(x) || MarkedColon(x)
  }

  predicate TellingAt(s: string, p: nat) {
    Telling(CodeAt(s, p)) || BreaksAt(s, p)
  }

  /** What the flag scan takes for a comment covers something that the full scan would act on. */
  predicate HidesCode(s: string) {
    exists p :: 0 <= p < |s| && !Visited(s, p) && TellingAt(s, p)
  }

  predicate HidesBind(s: string) {
    exists p :: 0 <= p < |s| && !Visited(s, p) && BindAt(CodeAt(s, p))
  }

  /** The full scan succeeds, finds no name and no marker, and changes nothing. */
  predicate FindsNothing(q: string, unsafe: set<string>) {
    RegionsFrom(q, 0).Ok? &&
    var regions := RegionsFrom(q, 0).value;
    && Ordered(regions, 0, |q|) && InBounds(regions, |q|)
    && AllMarkers(q, regions, unsafe) == Found([], [])
    && AllNames(q, regions) == [] && AllGoodStarts(q, regions)
    && Rewritten(q, regions, 0) == q
  }

  /** What makes the full scan necessary, at the head of s. */
  predicate Raises(s: string)
    requires s != ""
  {
    || s[0] == '$' || s[0] == '#'
    || (s[0] == ':' && |s| > 1 && s[1] != '=')
    || ((s[0] == 'q' || s[0] == 'Q') && |s| > 1 && s[1] == '\'')
    || (s[0] == '_' && SentinelAt(s, 0))
    || (s[0] == '/' && |s| > 1 && s[1] == '*' && HasCursorWord(s[2..2 + BodyLen(s[2..])]))
  }

  lemma RaisesIs(s: string)
    requires s != ""
    ensures Raises(s) <==> HeadFlags(s).NeedsScan()
  {
    hide SentinelAt, HasCursorWord, BodyLen;
  }

  lemma VisitedStep(s: string, p: nat)
    requires s != ""
    ensures Visited(s, p) <==> p == 0 || (p >= FlagWidth(s) && Visited(s[FlagWidth(s)..], p - FlagWidth(s)))
  {
    hide FlagWidth;
  }

  /**
    A query is let through exactly when no position at which the scan stops holds
    a `$` or `#`, a colon in front of anything but `=`, a q-quote, a sentinel, or
    a comment that contains the cursor word.
   */
  lemma {:induction false} QuietExactly(s: string)
    ensures Quiet(s) <==> forall p: nat :: p < |s| && Visited(s, p) ==> !Raises(s[p..])
    decreases |s|
  {
    hide HeadFlags, FlagWidth, Raises, Visited;
    if s != "" {
      var w := FlagWidth(s);
      RaisesIs(s);
      QuietExactly(s[w..]);
      assert s[0..] == s;
      VisitedStep(s, 0);
      forall p: nat | w <= p < |s| ensures s[w..][p - w..] == s[p..] && (Visited(s, p) <==> Visited(s[w..], p - w)) {
        VisitedStep(s, p);
      }
      forall p: nat | p < |s| && Visited(s, p) ensures p == 0 || p >= w {
        VisitedStep(s, p);
      }
      if !Quiet(s[w..]) {
        var p: nat :| p < |s[w..]| && Visited(s[w..], p) && Raises(s[w..][p..]);
        assert s[w..][p..] == s[p + w..] && Visited(s, p + w);
      }
      QuietParts(s);
    }
  }

  lemma QuietParts(s: string)
    requires s != ""
    ensures Quiet(s) <==> !HeadFlags(s).NeedsScan() && Quiet(s[FlagWidth(s)..])
  {
    hide HeadFlags, FlagWidth;
  }

  lemma {:induction false} VisitedQuiet(s: string, p: nat)
    requires Quiet(s) && Visited(s, p)
    ensures p < |s| && Quiet(s[p..])
    decreases |s|
  {
    hide Quiet, FlagWidth;
    if p == 0 {
      assert s[0..] == s;
    } else {
      var w := FlagWidth(s);
      QuietStep(s);
      VisitedQuiet(s[w..], p - w);
      assert s[w..][p - w..] == s[p..];
    }
  }

  lemma {:induction false} CodeAtIs(s: string, p: nat)
    ensures p <= |s| && CodeAt(s, p) != "" ==> CodeAt(s, p) <= s[p..]
    ensures CodeAt(s, p) != "" ==> p < |s|
    ensures BreaksAt(s, p) ==> p < |s| && Head(s[p..]).Broken?
    decreases |s|
  {
    hide Head;
    if s != "" {
      NoCodeNoRun(s);
      var k := if CodeLen(s) > 0 then CodeLen(s) else if Head(s).Opaque? then Head(s).len else |s|;
      if p >= k {
        CodeAtIs(s[k..], p - k);
        assert p <= |s| ==> s[k..][p - k..] == s[p..];
      } else {
        assert s[0..] == s;
        assert CodeLen(s) > 0 ==> s[p..CodeLen(s)] <= s[p..];
      }
    }
  }

  lemma TellingRaisesFlag(s: string, x: string)
    requires s != "" && ((Telling(x) && x <= s) || Head(s).Broken?)
    ensures HeadFlags(s).NeedsScan()
  {
    hide MarkLen, CursorLen, HasCursorWord;
    if Telling(x) && x <= s {
      assert x[0] == s[0] && x[1] == s[1];
    }
  }

  /** Every position at which the scan of a quiet text stops is harmless. */
  lemma VisitedIsHarmless(s: string, p: nat)
    requires Quiet(s) && TellingAt(s, p)
    ensures !Visited(s, p) && p < |s|
  {
    hide Quiet, Telling, HeadFlags, CodeAt, BreaksAt, Head;
    CodeAtIs(s, p);
    NothingTells();
    if Visited(s, p) {
      VisitedQuiet(s, p);
      QuietStep(s[p..]);
      TellingRaisesFlag(s[p..], CodeAt(s, p));
    }
  }

  lemma NothingTells()
    ensures !Telling("")
  {
  }

  ghost predicate Harmless(s: string) {
    forall p :: 0 <= p < |s| ==> !TellingAt(s, p)
  }

  predicate RunHarmless(x: string) {
    forall i :: 0 <= i < |x| ==> !Telling(x[i..])
  }

  lemma CodeAtStep(s: string, p: nat)
    requires s != "" && p < |s|
    ensures CodeLen(s) > 0 ==>
              if p < CodeLen(s) then CodeAt(s, p) == s[p..CodeLen(s)] && !BreaksAt(s, p)
              else CodeAt(s, p) == CodeAt(s[CodeLen(s)..], p - CodeLen(s)) &&
                   BreaksAt(s, p) == BreaksAt(s[CodeLen(s)..], p - CodeLen(s))
    ensures Head(s).Opaque? ==>
              if p < Head(s).len then CodeAt(s, p) == "" && !BreaksAt(s, p)
              else CodeAt(s, p) == CodeAt(s[Head(s).len..], p - Head(s).len) &&
                   BreaksAt(s, p) == BreaksAt(s[Head(s).len..], p - Head(s).len)
    ensures Head(s).Broken? ==> BreaksAt(s, 0) && CodeAt(s, p) == ""
  {
    hide Head;
    NoCodeNoRun(s);
  }

  lemma HarmlessBehind(s: string, n: nat)
    requires 0 < n <= |s|
    requires forall p :: n <= p < |s| ==> TellingAt(s, p) == TellingAt(s[n..], p - n)
    ensures Harmless(s) <==> (forall p :: 0 <= p < n ==> !TellingAt(s, p)) && Harmless(s[n..])
  {
    hide TellingAt;
    var t := s[n..];
    if Harmless(s) {
      forall p | 0 <= p < |t| ensures !TellingAt(t, p) {
        assert TellingAt(s, p + n) == TellingAt(t, p + n - n);
      }
    }
  }

  /** The positions of s, split behind its first segment. */
  lemma HarmlessStep(s: string)
    requires s != ""
    ensures CodeLen(s) > 0 ==>
              (Harmless(s) <==> RunHarmless(s[..CodeLen(s)]) && Harmless(s[CodeLen(s)..]))
    ensures Head(s).Opaque? ==> (Harmless(s) <==> Harmless(s[Head(s).len..]))
    ensures Head(s).Broken? ==> !Harmless(s)
  {
    hide Head, CodeLen, CodeAt, BreaksAt, Telling;
    NoCodeNoRun(s);
    NothingTells();
    CodeAtStep(s, 0);
    var n := if CodeLen(s) > 0 then CodeLen(s) else if Head(s).Opaque? then Head(s).len else 0;
    var x, t := s[..n], s[n..];
    forall p | 0 <= p < |s|
      ensures n > 0 && p >= n ==> TellingAt(s, p) == TellingAt(t, p - n)
      ensures CodeLen(s) > 0 && p < n ==> TellingAt(s, p) == Telling(x[p..])
      ensures CodeLen(s) == 0 && p < n ==> !TellingAt(s, p)
    {
      CodeAtStep(s, p);
      assert p < n ==> x[p..] == s[p..n];
    }
    if n > 0 {
      HarmlessBehind(s, n);
    } else {
      assert TellingAt(s, 0);
    }
  }

  lemma {:induction false} BindIsNamed(x: string, i: nat)
    requires i < |x| && BindAt(x[i..])
    ensures Names(Tokens(x)) != []
    decreases |x|
  {
    hide Tokens, Names, BindAt, MarkLen, BindEnd;
    TokenStep(x, 0);
    assert x[0..] == x;
    if !BindAt(x) {
      assert x[1..][i - 1..] == x[i..];
      BindIsNamed(x[1..], i - 1);
    }
  }

  lemma {:induction false} MarkedIsFound(x: string, i: nat, at: nat, unsafe: set<string>)
    requires i < |x| && MarkedColon(x[i..])
    ensures MarkersIn(x, at, unsafe) != Found([], [])
    decreases |x|
  {
    hide MarkedColon, MarkLen, BroadLen, ValidUser;
    assert x[0..] == x;
    if !MarkedColon(x) {
      assert x[1..][i - 1..] == x[i..];
      MarkedIsFound(x[1..], i - 1, at + 1, unsafe);
    }
  }

  lemma BadIsBad(x: string, i: nat)
    requires i < |x| && BadBindAt(x[i..])
    ensures !NoBadStart(x)
  {
    assert x[i] == ':' && IsBadStart(x[i + 1]);
  }

  lemma GoodWithoutBad(x: string)
    requires forall i :: 0 <= i < |x| ==> !BadBindAt(x[i..])
    ensures NoBadStart(x)
  {
    forall p | 0 <= p < |x| - 1 && x[p] == ':' ensures !IsBadStart(x[p + 1]) {
      assert !BadBindAt(x[p..]) && x[p..][0] == x[p] && x[p..][1] == x[p + 1];
    }
  }

  /** A code run tells nothing exactly when the full scan takes nothing from it. */
  lemma RunTells(x: string, at: nat, unsafe: set<string>)
    ensures RunHarmless(x) <==>
            Names(Tokens(x)) == [] && NoBadStart(x) && MarkersIn(x, at, unsafe) == Found([], [])
    ensures RunHarmless(x) ==> RewriteRun(x) == x
  {
    hide Tokens, Names, RewriteRun, MarkersIn, NoBadStart, BindAt, BadBindAt, MarkedColon;
    if RunHarmless(x) {
      assert forall i :: 0 <= i < |x| ==> !Telling(x[i..]);
      PlainSteps(x, |x|, at);
      MarkersSkip(x, |x|, at, unsafe);
      GoodWithoutBad(x);
      EmptyTail(x, at, unsafe);
    } else {
      var i :| 0 <= i < |x| && Telling(x[i..]);
      if BindAt(x[i..]) {
        BindIsNamed(x, i);
      } else if BadBindAt(x[i..]) {
        BadIsBad(x, i);
      } else {
        MarkedIsFound(x, i, at, unsafe);
      }
    }
  }

  /** The regions hold nothing to act on. */
  predicate Idle(q: string, regions: seq<Region>, unsafe: set<string>) {
    && InBounds(regions, |q|) && AllMarkers(q, regions, unsafe) == Found([], [])
    && AllNames(q, regions) == [] && AllGoodStarts(q, regions)
  }

  lemma IdleStep(q: string, r: Region, rest: seq<Region>, unsafe: set<string>)
    requires r.start < r.end <= |q|
    ensures var x := q[r.start..r.end];
            Idle(q, [r] + rest, unsafe) <==> RunHarmless(x) && Idle(q, rest, unsafe)
  {
    hide Tokens, Names, MarkersIn, NoBadStart, RunHarmless;
    var x := q[r.start..r.end];
    RunTells(x, r.start, unsafe);
    assert ([r] + rest)[1..] == rest && ([r] + rest)[0] == r;
    assert InBounds([r] + rest, |q|) <==> InBounds(rest, |q|);
    if InBounds(rest, |q|) {
      PlusNothing(MarkersIn(x, r.start, unsafe), AllMarkers(q, rest, unsafe));
    }
  }

  lemma PlusNothing(a: Found, b: Found)
    ensures Plus(a, b) == Found([], []) <==> a == Found([], []) && b == Found([], [])
  {
  }

  lemma {:induction false} ScanTells(q: string, at: nat, unsafe: set<string>)
    requires at <= |q|
    ensures Harmless(q[at..]) <==> RegionsFrom(q, at).Ok? && Idle(q, RegionsFrom(q, at).value, unsafe)
    ensures Harmless(q[at..]) ==>
              Ordered(RegionsFrom(q, at).value, at, |q|) && Rewritten(q, RegionsFrom(q, at).value, at) == q[at..]
    decreases |q| - at
  {
    hide *;
    var s := q[at..];
    if at == |q| {
      NothingIdle(q, unsafe);
    } else {
      SegmentsStep(s);
      RegionsStep(q, at);
      HarmlessStep(s);
      if CodeLen(s) > 0 {
        var n := CodeLen(s);
        assert q[at + n..] == s[n..] && q[at..at + n] == s[..n];
        ScanTells(q, at + n, unsafe);
        FirstOk(Region(at, at + n), RegionsFrom(q, at + n));
        if RegionsFrom(q, at + n).Ok? {
          IdleStep(q, Region(at, at + n), RegionsFrom(q, at + n).value, unsafe);
        }
        if Harmless(s) {
          RunTells(s[..n], at, unsafe);
          RewrittenStep(q, at, Region(at, at + n), RegionsFrom(q, at + n).value);
          assert q[at..at] + s[..n] + q[at + n..] == s;
        }
      } else if Head(s).Opaque? {
        var k := Head(s).len;
        assert q[at + k..] == s[k..];
        ScanTells(q, at + k, unsafe);
        if Harmless(s) {
          RewrittenFrom(q, RegionsFrom(q, at + k).value, at, at + k);
        }
      }
    }
  }

  lemma RewrittenFrom(q: string, regions: seq<Region>, from: nat, at: nat)
    requires from <= at <= |q| && Ordered(regions, at, |q|) && Rewritten(q, regions, at) == q[at..]
    ensures Ordered(regions, from, |q|) && Rewritten(q, regions, from) == q[from..]
  {
    hide RewriteRun;
    if regions != [] {
      var r := regions[0];
      var tail := RewriteRun(RegionText(q, r)) + Rewritten(q, regions[1..], r.end);
      assert q[at..r.start] + tail == Rewritten(q, regions, at);
      assert q[from..r.start] == q[from..at] + q[at..r.start];
      assert q[from..] == q[from..at] + q[at..];
      assert Rewritten(q, regions, from) == q[from..r.start] + tail;
    }
  }

  lemma NothingIdle(q: string, unsafe: set<string>)
    ensures Harmless(q[|q|..]) && RegionsFrom(q, |q|) == Ok([]) && Idle(q, [], unsafe)
    ensures Ordered([], |q|, |q|) && Rewritten(q, [], |q|) == q[|q|..]
  {
  }

  /**
    The full scan of a query that the flag scan lets through finds nothing and
    changes nothing exactly when no stretch that the flag scan took for a comment
    covers code with a bind, a rejected bind, a marked name or a broken q-quote.
   */
  lemma FastPathIsExact(q: string, unsafe: set<string>)
    requires Quiet(q)
    ensures FindsNothing(q, unsafe) <==> !HidesCode(q)
  {
    hide Quiet, TellingAt, Visited, RegionsFrom, AllMarkers, AllNames, AllGoodStarts, Rewritten;
    assert q[0..] == q;
    ScanTells(q, 0, unsafe);
    forall p | 0 <= p < |q| && TellingAt(q, p) ensures !Visited(q, p) {
      VisitedIsHarmless(q, p);
    }
  }

  /** Without a comment mark inside a quoted token or a line comment nothing is hidden. */
  lemma AlignedHidesNothing(q: string)
    requires Quiet(q) && Aligned(Segments(q))
    ensures !HidesCode(q)
  {
    hide *;
    FastPathRefinesFullScan(q, {});
    FindsNothingIs(q, {});
    FastPathIsExact(q, {});
  }

  lemma FindsNothingIs(q: string, unsafe: set<string>)
    requires RegionsFrom(q, 0).Ok?
    requires var regions := RegionsFrom(q, 0).value;
             && Ordered(regions, 0, |q|) && InBounds(regions, |q|)
             && AllMarkers(q, regions, unsafe) == Found([], [])
             && AllNames(q, regions) == [] && AllGoodStarts(q, regions)
             && Rewritten(q, regions, 0) == q
    ensures FindsNothing(q, unsafe)
  {
    hide RegionsFrom, AllMarkers, AllNames, AllGoodStarts, Rewritten;
  }

  /** A bind at a position of the code is one of the query's binds. */
  lemma {:induction false} BindInCode(s: string, p: nat)
    requires p < |s| && BindAt(CodeAt(s, p))
    ensures BindsOf(Segments(s)) != []
    decreases |s|
  {
    hide Head, BindAt, Tokens, Names, CodeAt, Segments, BindsOf;
    NoBindInNothing();
    SegmentsStep(s);
    CodeAtStep(s, p);
    if CodeLen(s) > 0 {
      var n := CodeLen(s);
      RunBinds(s[..n], Segments(s[n..]));
      if p < n {
        assert s[..n][p..] == s[p..n];
        BindIsNamed(s[..n], p);
      } else {
        BindInCode(s[n..], p - n);
      }
    } else if Head(s).Opaque? {
      SkippedNames(Skipped(s[..Head(s).len]), Segments(s[Head(s).len..]));
      BindInCode(s[Head(s).len..], p - Head(s).len);
    }
  }

  lemma NoBindInNothing()
    ensures !BindAt("") && Segments("") == [] && BindsOf([]) == [] && Names(Tokens("")) == []
  {
  }

  lemma RunBinds(x: string, rest: seq<Segment>)
    ensures BindsOf([Run(x)] + rest) == Names(Tokens(x)) + BindsOf(rest)
  {
    hide Tokens, Names;
    assert ([Run(x)] + rest)[1..] == rest;
  }

  /** Every bind of the query begins at some position of its code. */
  lemma {:induction false} BindHasPosition(s: string) returns (p: nat)
    requires BindsOf(Segments(s)) != []
    ensures p < |s| && BindAt(CodeAt(s, p))
    decreases |s|
  {
    hide *;
    NoBindInNothing();
    p := 0;
    if s != "" {
      SegmentsStep(s);
      var n := CodeLen(s);
      if n > 0 {
        RunBinds(s[..n], Segments(s[n..]));
        if Names(Tokens(s[..n])) != [] {
          p := NameHasPosition(s[..n]);
          assert s[..n][p..] == s[p..n];
        } else {
          p := BindHasPosition(s[n..]);
          p := p + n;
        }
        CodeAtStep(s, p);
      } else if Head(s).Opaque? {
        var k := Head(s).len;
        SkippedNames(Skipped(s[..k]), Segments(s[k..]));
        p := BindHasPosition(s[k..]);
        p := p + k;
        CodeAtStep(s, p);
      } else {
        CutHasNoBind(s);
      }
    }
  }

  lemma CutHasNoBind(s: string)
    ensures BindsOf([Cut(s)]) == []
  {
    assert [Cut(s)][1..] == [];
  }

  lemma {:induction false} NameHasPosition(x: string) returns (i: nat)
    requires Names(Tokens(x)) != []
    ensures i < |x| && BindAt(x[i..])
    decreases |x|
  {
    hide *;
    NoBindInNothing();
    TokenStep(x, 0);
    i := 0;
    assert x[0..] == x;
    if !BindAt(x) {
      i := NameHasPosition(x[1..]);
      assert x[1..][i..] == x[i + 1..];
      i := i + 1;
    }
  }

  /** A query that is let through has a bind exactly when what looked like a comment hides one. */
  lemma FastPathMissesExactly(q: string)
    requires Quiet(q)
    ensures BindsOf(Segments(q)) == [] <==> !HidesBind(q)
  {
    hide Quiet, Visited, CodeAt, BreaksAt, BindAt, Segments, BindsOf;
    if BindsOf(Segments(q)) != [] {
      var p := BindHasPosition(q);
      VisitedIsHarmless(q, p);
    }
    if HidesBind(q) {
      var p :| 0 <= p < |q| && !Visited(q, p) && BindAt(CodeAt(q, p));
      BindInCode(q, p);
    }
  }
}
