/**
  The way back for queries with cursor markers: the rewrite drops the markers, so
  what should come back is the query without them.
 */
module MarksReversed {
  import opened Text
  import opened BindNames
  import opened NameMap
  import opened SqlLexer
  import opened BindTokens
  import opened BindTransform
  import opened Lookahead
  import opened Relex
  import opened RelexQuery
  import opened QueryMeaning
  import opened ReverseNames
  import opened BareTemplates
  import opened NamesRestored
  import opened QueryRestored

  /** The run without its markers. */
  function StripRun(x: string): string
    decreases |x|
  {
    if x == "" then ""
    else (if BindAt(x) then x[..BindEnd(x)] else [x[0]]) + StripRun(x[Width(x)..])
  }

  function StripSegment(g: Segment): Segment {
    if g.Run? then Run(StripRun(g.text)) else g
  }

  function StripAll(segments: seq<Segment>): seq<Segment> {
    if segments == [] then [] else [StripSegment(segments[0])] + StripAll(segments[1..])
  }

  function Stripped(s: string): string {
    Join(StripAll(Segments(s)))
  }

  /** The driver name of a bind, read together with the name bytes t behind it, gives back the name and t. */
  predicate NameBack(m: NameTable, name: string, t: string) {
    var seen := Encode(name) + t;
    (if seen in m.driverToUser then m.driverToUser[seen] else seen) == name + t
  }

  /** Every bind of the run comes back from how it is read in the rewritten text. */
  predicate RunBackable(x: string, after: string, m: NameTable)
    decreases |x|
  {
    x != "" ==>
      var rest := x[Width(x)..];
      (BindAt(x) ==> NameBack(m, x[1..BindEnd(x)], NameOf(rest + after))) && RunBackable(rest, after, m)
  }

  predicate Backable(segments: seq<Segment>, m: NameTable) {
    segments != [] ==>
    && (if segments[0].Run? then RunBackable(segments[0].text, Join(segments[1..]), m)
        else NoDriverIn(segments[0].text, m.driverToUser))
    && Backable(segments[1..], m)
  }

  /** No bad colons, and all names registered; markers are allowed. */
  predicate Accepted(segments: seq<Segment>, m: NameTable) {
    segments != [] ==>
    && (segments[0].Run? ==>
          && NoBadStart(segments[0].text)
          && forall n :: n in BindTokens.Names(Tokens(segments[0].text)) ==> n in m.userToDriver)
    && Accepted(segments[1..], m)
  }

  // ----- One run -----

  lemma StripEmpty()
    ensures StripRun("") == "" && RunBackable("", "", NO_NAMES)
  {
  }

  lemma StripBind(x: string)
    requires BindAt(x)
    ensures StripRun(x) == ":" + x[1..BindEnd(x)] + StripRun(x[Width(x)..])
  {
    hide MarkLen, BindEnd;
    assert x[..BindEnd(x)] == ":" + x[1..BindEnd(x)];
  }

  lemma StripPlain(x: string)
    requires x != "" && !BindAt(x)
    ensures StripRun(x) == [x[0]] + StripRun(x[1..])
  {
    hide BindAt;
    TokenStep(x, 0);
  }

  lemma BackableStep(x: string, after: string, m: NameTable)
    ensures RunBackable("", after, m)
    ensures x != "" ==>
              (RunBackable(x, after, m) <==>
               (BindAt(x) ==> NameBack(m, x[1..BindEnd(x)], NameOf(x[Width(x)..] + after))) &&
               RunBackable(x[Width(x)..], after, m))
  {
    hide BindAt, NameBack, MarkLen, BindEnd, NameOf;
  }

  /** Without its markers a run still looks the same up to its first colon. */
  lemma {:induction false} StripAlike(x: string, a: string, b: string)
    requires Alike(a, b)
    ensures Alike(x + a, StripRun(x) + b)
    decreases |x|
  {
    hide *;
    if x == "" {
      StripEmpty();
      assert x + a == a && "" + b == b;
    } else if BindAt(x) {
      StripBind(x);
      BindColon(x);
      var y := x[1..] + a;
      var z := x[1..BindEnd(x)] + StripRun(x[Width(x)..]) + b;
      AlikeColon(y, z);
      assert x + a == ":" + y;
      assert StripRun(x) + b == ":" + z;
    } else {
      StripPlain(x);
      StripAlike(x[1..], a, b);
      AlikeCons(x[0], x[1..] + a, StripRun(x[1..]) + b);
      assert x + a == [x[0]] + (x[1..] + a);
      assert StripRun(x) + b == [x[0]] + (StripRun(x[1..]) + b);
    }
  }

  /** Alike texts begin with the same name. */
  lemma {:induction false} NameAlike(a: string, b: string)
    requires Alike(a, b)
    ensures NameOf(a) == NameOf(b)
  {
    hide Alike, IsNameBody;
    AlikeFirst(a, b);
    if a != "" && IsNameBody(a[0]) {
      ColonIsNoName();
      AlikeTail(a, b);
      NameAlike(a[1..], b[1..]);
      assert NameOf(a) == [a[0]] + NameOf(a[1..]) && NameOf(b) == [b[0]] + NameOf(b[1..]);
    }
  }

  lemma ColonIsNoName()
    ensures !IsNameBody(':')
  {
  }

  lemma BothAlike(a: string, b: string, c: string)
    requires Alike(a, b) && Alike(a, c)
    ensures Alike(b, c)
  {
  }

  /** A text is its leading name and a rest that no name byte begins. */
  lemma NameSplits(y: string)
    ensures NameLen(y) <= |y| && y == NameOf(y) + y[NameLen(y)..]
    ensures forall i :: 0 <= i < |NameOf(y)| ==> IsNameBody(NameOf(y)[i])
    ensures y[NameLen(y)..] == "" || !IsNameBody(y[NameLen(y)..][0])
  {
    hide IsNameBody;
  }

  lemma BodyJoin(a: string, b: string)
    requires forall i :: 0 <= i < |a| ==> IsNameBody(a[i])
    requires forall i :: 0 <= i < |b| ==> IsNameBody(b[i])
    ensures forall i :: 0 <= i < |a + b| ==> IsNameBody((a + b)[i])
  {
    hide IsNameBody;
  }

  /** The names the table gives back are names. */
  lemma BackIsName(m: NameTable, unsafe: set<string>, seen: string)
    requires Consistent(m, unsafe) && forall i :: 0 <= i < |seen| ==> IsNameBody(seen[i])
    ensures var w := if seen in m.driverToUser then m.driverToUser[seen] else seen;
            forall i :: 0 <= i < |w| ==> IsNameBody(w[i])
  {
    hide *;
    ChangesOf(m, unsafe);
    if seen in m.driverToUser {
      KeyIs(m, seen);
      KeyUser(m, unsafe, m.driverToUser[seen]);
      UserNameBody(m.driverToUser[seen]);
    }
  }

  lemma NameBackIs(m: NameTable, name: string, t: string)
    ensures var seen := Encode(name) + t;
            NameBack(m, name, t) <==> (if seen in m.driverToUser then m.driverToUser[seen] else seen) == name + t
  {
    hide Encode;
  }

  lemma Regroup(a: string, t: string, rest: string)
    ensures ":" + a + (t + rest) == ":" + (a + t) + rest
  {
    assert ":" + (a + t) + rest == (":" + a) + t + rest == ":" + a + (t + rest);
  }

  /** What the colon pass makes of a bind in front of y: the name it sees, looked up, and the rest. */
  lemma BindSeen(m: NameTable, unsafe: set<string>, name: string, y: string)
    requires Consistent(m, unsafe) && name in m.userToDriver
    ensures var seen := Encode(name) + NameOf(y);
            var w := if seen in m.driverToUser then m.driverToUser[seen] else seen;
            && (forall i :: 0 <= i < |w| ==> IsNameBody(w[i]))
            && (forall i :: 0 <= i < |name + NameOf(y)| ==> IsNameBody((name + NameOf(y))[i]))
            && ReverseColons(":" + Encode(name) + y, m.driverToUser) ==
               ":" + w + ReverseColons(y[NameLen(y)..], m.driverToUser)
  {
    hide *;
    NameSplits(y);
    KeyUser(m, unsafe, name);
    UserNameBody(name);
    EncodeIsPlain(name);
    BodyJoin(Encode(name), NameOf(y));
    BodyJoin(name, NameOf(y));
    BackIsName(m, unsafe, Encode(name) + NameOf(y));
    Regroup(Encode(name), NameOf(y), y[NameLen(y)..]);
    ReplaceName(Encode(name) + NameOf(y), y[NameLen(y)..], m.driverToUser);
  }

  /** How a bind comes back in front of y, when z is what y should become. */
  lemma BindBack(m: NameTable, unsafe: set<string>, name: string, y: string, z: string)
    requires Consistent(m, unsafe) && name in m.userToDriver && Alike(y, z)
    ensures var out := ReverseColons(":" + Encode(name) + y, m.driverToUser);
            if NameBack(m, name, NameOf(y)) then out == ":" + name + ReverseColons(y, m.driverToUser)
            else out != ":" + name + z
  {
    hide *;
    var table := m.driverToUser;
    var t, rest := NameOf(y), y[NameLen(y)..];
    var seen := Encode(name) + t;
    var w := if seen in table then table[seen] else seen;
    NameSplits(y);
    NameBackIs(m, name, t);
    BindSeen(m, unsafe, name, y);
    if w == name + t {
      NamesHaveNoColon(t);
      CopyPrefix(t, rest, table);
      Regroup(name, t, ReverseColons(rest, table));
    } else {
      OtherName(w, name, y, z, ReverseColons(rest, table));
      FirstStays(rest, table);
    }
  }

  /** A wrong name shows, whatever follows. */
  lemma OtherName(w: string, name: string, y: string, z: string, r: string)
    requires w != name + NameOf(y) && Alike(y, z)
    requires forall i :: 0 <= i < |w| ==> IsNameBody(w[i])
    requires forall i :: 0 <= i < |name + NameOf(y)| ==> IsNameBody((name + NameOf(y))[i])
    ensures r == "" || !IsNameBody(r[0]) ==> ":" + w + r != ":" + name + z
  {
    hide *;
    NameSplits(z);
    NameAlike(y, z);
    Regroup(name, NameOf(z), z[NameLen(z)..]);
    if r == "" || !IsNameBody(r[0]) {
      NamesTell(w, name + NameOf(y), r, z[NameLen(z)..]);
    }
  }

  lemma FirstStays(y: string, table: map<string, string>)
    requires y == "" || !IsNameBody(y[0])
    ensures var r := ReverseColons(y, table); r == "" || !IsNameBody(r[0])
  {
    hide *;
    ReverseStep(y, table);
    ColonIsNoName();
  }

  /** Nothing joined: a bind that no name byte follows always comes back. */
  lemma AloneIsBack(m: NameTable, unsafe: set<string>, name: string)
    requires Consistent(m, unsafe) && name in m.userToDriver
    ensures NameBack(m, name, "")
  {
    hide *;
    OwnName(m, unsafe, name);
    NameBackIs(m, name, "");
    assert Encode(name) + "" == Encode(name) && name + "" == name;
  }

  /**
    When a bind comes back together with the name bytes t that come to stand
    behind it: an unchanged name unless the longer word is a driver name, a
    changed name only if the longer word is the driver name of the longer bind.
   */
  lemma NameBackMeaning(m: NameTable, unsafe: set<string>, name: string, t: string)
    requires Consistent(m, unsafe) && name in m.userToDriver
    ensures !NeedsEncoding(name) ==> (NameBack(m, name, t) <==> name + t !in m.driverToUser)
    ensures NeedsEncoding(name) ==>
              (NameBack(m, name, t) <==>
               Encode(name) + t in m.driverToUser && m.driverToUser[Encode(name) + t] == name + t)
  {
    hide *;
    var seen := Encode(name) + t;
    NameBackIs(m, name, t);
    ChangesOf(m, unsafe);
    if NeedsEncoding(name) {
      EncodedTells(name, t, t);
      assert ":" + Encode(name) + t == ":" + (Encode(name) + t) && ":" + name + t == ":" + (name + t);
    } else {
      EncodeUnchanged(name);
      if seen in m.driverToUser {
        KeyIs(m, seen);
        var k := EncodeDiverges(m.driverToUser[seen]);
      }
    }
  }

  /** The run x, rewritten in front of b, comes back without its markers in front of what b becomes. */
  lemma {:induction false} RunBackTo(x: string, a: string, b: string, c: string, m: NameTable, unsafe: set<string>)
    requires Consistent(m, unsafe) && NoBadStart(x)
    requires forall n :: n in BindTokens.Names(Tokens(x)) ==> n in m.userToDriver
    requires CodeLen(a) == 0 && Alike(a, b) && Alike(a, c)
    ensures var out := ReverseColons(RewriteRun(x) + b, m.driverToUser);
            if RunBackable(x, a, m) then out == StripRun(x) + ReverseColons(b, m.driverToUser)
            else out != StripRun(x) + c
    decreases |x|
  {
    hide *;
    BackableStep(x, a, m);
    var end := ReverseColons(b, m.driverToUser);
    if x == "" {
      EmptyRun();
      StripEmpty();
      assert "" + b == b && "" + end == end;
    } else {
      var rest := x[Width(x)..];
      var y, z := RewriteRun(rest) + b, StripRun(rest) + c;
      var back := ReverseColons(y, m.driverToUser);
      NoBadStartStep(x);
      NamesStep(x);
      RunAlike(rest, a, b);
      StripAlike(rest, a, c);
      BothAlike(rest + a, y, z);
      NameAlike(rest + a, y);
      RunBackTo(rest, a, b, c, m, unsafe);
      ChangesOf(m, unsafe);
      if BindAt(x) {
        var name := x[1..BindEnd(x)];
        BindBack(m, unsafe, name, y, z);
        RewriteBind(x);
        StripBind(x);
        assert RewriteRun(x) + b == ":" + Encode(name) + y;
        Unprefix(":" + name, back, z);
        assert StripRun(x) + c == ":" + name + z;
        assert StripRun(x) + end == ":" + name + (StripRun(rest) + end);
      } else {
        RewritePlain(x);
        StripPlain(x);
        TokenStep(x, 0);
        PlainReverse(x, a, y, m);
        assert RewriteRun(x) + b == [x[0]] + y;
        Unprefix([x[0]], back, z);
        assert StripRun(x) + c == [x[0]] + z;
        assert StripRun(x) + end == [x[0]] + (StripRun(rest) + end);
      }
    }
  }

  // ----- The whole query -----

  lemma StripCons(g: Segment, rest: seq<Segment>)
    ensures Join(StripAll([])) == ""
    ensures Join(StripAll([g] + rest)) == StripSegment(g).text + Join(StripAll(rest))
    ensures StripSegment(Run(g.text)).text == StripRun(g.text)
    ensures !g.Run? ==> StripSegment(g).text == g.text
  {
    hide StripRun;
    assert ([g] + rest)[1..] == rest;
    assert StripAll([g] + rest)[1..] == StripAll(rest);
  }

  lemma {:induction false} JoinStripAlike(segments: seq<Segment>)
    ensures Alike(Join(segments), Join(StripAll(segments)))
  {
    hide *;
    if segments == [] {
      NoSegments();
      EmptyRun();
      StripCons(Cut(""), []);
    } else {
      var g, rest := segments[0], segments[1..];
      assert segments == [g] + rest;
      JoinStripAlike(rest);
      StripCons(g, rest);
      RewriteAllStep(g, rest);
      if g.Run? {
        assert g == Run(g.text);
        StripAlike(g.text, Join(rest), Join(StripAll(rest)));
      } else {
        AlikePrefix(g.text, Join(rest), Join(StripAll(rest)));
      }
    }
  }

  lemma StrippedIs(s: string)
    ensures Stripped(s) == Join(StripAll(Segments(s)))
  {
    hide Segments, StripAll, Join;
  }

  lemma BackableCons(g: Segment, rest: seq<Segment>, m: NameTable)
    ensures Backable([], m)
    ensures Backable([g] + rest, m) <==>
            && (if g.Run? then RunBackable(g.text, Join(rest), m) else NoDriverIn(g.text, m.driverToUser))
            && Backable(rest, m)
    ensures Accepted([g] + rest, m) ==>
            && (g.Run? ==>
                  NoBadStart(g.text) && forall n :: n in BindTokens.Names(Tokens(g.text)) ==> n in m.userToDriver)
            && Accepted(rest, m)
  {
    hide RunBackable, NoDriverIn, NoBadStart, Tokens, BindTokens.Names, Join;
    assert ([g] + rest)[1..] == rest;
  }

  lemma RunGivenBack(s: string, m: NameTable, unsafe: set<string>)
    requires Consistent(m, unsafe) && Accepted(Segments(s), m) && CodeLen(s) > 0
    ensures var x, t := s[..CodeLen(s)], s[CodeLen(s)..];
            var ok := RunBackable(x, t, m);
            && Accepted(Segments(t), m)
            && (Backable(Segments(s), m) <==> ok && Backable(Segments(t), m))
            && (ReverseColons(Rewrite(s), m.driverToUser) == Stripped(s) <==>
                ok && ReverseColons(Rewrite(t), m.driverToUser) == Stripped(t))
  {
    hide *;
    var n := CodeLen(s);
    var x, t := s[..n], s[n..];
    var rest := Segments(t);
    CodeStep(s);
    SegmentsStep(s);
    RewriteIs(s);
    RewriteIs(t);
    StrippedIs(s);
    StrippedIs(t);
    JoinSegments(t);
    JoinAlike(rest);
    JoinStripAlike(rest);
    CodeLenTail(s, n);
    RewriteAllStep(Run(x), rest);
    RewriteCut(x);
    StripCons(Run(x), rest);
    BackableCons(Run(x), rest, m);
    RunBackTo(x, t, Rewrite(t), Stripped(t), m, unsafe);
    Unprefix(StripRun(x), ReverseColons(Rewrite(t), m.driverToUser), Stripped(t));
  }

  lemma SkippedGivenBack(s: string, m: NameTable, unsafe: set<string>)
    requires Consistent(m, unsafe) && Accepted(Segments(s), m) && s != "" && Head(s).Opaque?
    ensures var y, t := s[..Head(s).len], s[Head(s).len..];
            var ok := NoDriverIn(y, m.driverToUser);
            && Accepted(Segments(t), m)
            && (Backable(Segments(s), m) <==> ok && Backable(Segments(t), m))
            && (ReverseColons(Rewrite(s), m.driverToUser) == Stripped(s) <==>
                ok && ReverseColons(Rewrite(t), m.driverToUser) == Stripped(t))
  {
    hide *;
    var k := Head(s).len;
    var y, t := s[..k], s[k..];
    var rest := Segments(t);
    SegmentsStep(s);
    RewriteIs(s);
    RewriteIs(t);
    StrippedIs(s);
    StrippedIs(t);
    JoinSegments(t);
    JoinAlike(rest);
    SkippedApart(s);
    ApartAlike(y, t, Rewrite(t));
    RewriteAllStep(Skipped(y), rest);
    RewriteCut(y);
    StripCons(Skipped(y), rest);
    BackableCons(Skipped(y), rest, m);
    SkippedReverse(y, Stripped(t), Rewrite(t), m, unsafe);
    Unprefix(y, ReverseColons(Rewrite(t), m.driverToUser), Stripped(t));
  }

  lemma CutGivenBack(s: string, m: NameTable, unsafe: set<string>)
    requires Consistent(m, unsafe) && s != "" && Head(s).Broken?
    ensures ReverseColons(Rewrite(s), m.driverToUser) == Stripped(s) <==> Backable(Segments(s), m)
  {
    hide *;
    SegmentsStep(s);
    RewriteIs(s);
    StrippedIs(s);
    NoSegments();
    assert [Cut(s)] + [] == [Cut(s)] && s + "" == s;
    RewriteAllStep(Cut(s), []);
    RewriteCut(s);
    StripCons(Cut(s), []);
    BackableCons(Cut(s), [], m);
    EmptyApart(s);
    SkippedReverse(s, "", "", m, unsafe);
    ReverseStep("", m.driverToUser);
  }

  /** The colon pass gives back the query without its markers exactly when it is backable. */
  lemma {:induction false} ColonsGiveStripped(s: string, m: NameTable, unsafe: set<string>)
    requires Consistent(m, unsafe) && Accepted(Segments(s), m)
    ensures ReverseColons(Rewrite(s), m.driverToUser) == Stripped(s) <==> Backable(Segments(s), m)
    decreases |s|
  {
    hide *;
    if s == "" {
      RewriteIs(s);
      StrippedIs(s);
      NoSegments();
      ReverseStep("", m.driverToUser);
      StripCons(Cut(""), []);
      BackableCons(Cut(""), [], m);
    } else {
      SegmentsStep(s);
      if CodeLen(s) > 0 {
        RunGivenBack(s, m, unsafe);
        ColonsGiveStripped(s[CodeLen(s)..], m, unsafe);
      } else if Head(s).Opaque? {
        SkippedGivenBack(s, m, unsafe);
        ColonsGiveStripped(s[Head(s).len..], m, unsafe);
      } else {
        CutGivenBack(s, m, unsafe);
      }
    }
  }

  // ----- What the transform accepted -----

  lemma RunAccepted(q: string, r: Region, regions: seq<Region>, rest: seq<Segment>, m: NameTable)
    requires InBounds([r] + regions, |q|) && r.start < r.end && AllGoodStarts(q, [r] + regions)
    requires forall n :: n in AllNames(q, [r] + regions) ==> n in m.userToDriver
    ensures InBounds(regions, |q|) && AllGoodStarts(q, regions)
    ensures forall n :: n in AllNames(q, regions) ==> n in m.userToDriver
    ensures Accepted(rest, m) ==> Accepted([Run(RegionText(q, r))] + rest, m)
  {
    hide Tokens, BindTokens.Names, NoBadStart;
    var x := RegionText(q, r);
    assert ([r] + regions)[1..] == regions && forall y :: y in regions ==> y in [r] + regions;
    assert ([Run(x)] + rest)[1..] == rest;
    assert forall n :: n in BindTokens.Names(Tokens(x)) ==> n in AllNames(q, [r] + regions);
  }

  lemma OthersAccepted(g: Segment, rest: seq<Segment>, m: NameTable)
    ensures Accepted([], m)
    ensures Accepted(rest, m) && !g.Run? ==> Accepted([g] + rest, m)
  {
    hide NoBadStart, Tokens, BindTokens.Names;
    assert ([g] + rest)[1..] == rest;
  }

  lemma {:induction false} TransformAccepts(q: string, at: nat, m: NameTable)
    requires at <= |q| && RegionsFrom(q, at).Ok? && InBounds(RegionsFrom(q, at).value, |q|)
    requires AllGoodStarts(q, RegionsFrom(q, at).value)
    requires forall n :: n in AllNames(q, RegionsFrom(q, at).value) ==> n in m.userToDriver
    ensures Accepted(Segments(q[at..]), m)
    decreases |q| - at
  {
    hide Head, CodeLen, Tokens, BindTokens.Names, Segments, AllNames, InBounds, AllGoodStarts, Accepted;
    var s := q[at..];
    if at == |q| {
      NoSegments();
      OthersAccepted(Cut(""), [], m);
    } else {
      SegmentsStep(s);
      if CodeLen(s) > 0 {
        var n := CodeLen(s);
        assert RegionText(q, Region(at, at + n)) == s[..n];
        RunAccepted(q, Region(at, at + n), RegionsFrom(q, at + n).value, Segments(s[n..]), m);
        TransformAccepts(q, at + n, m);
      } else {
        var k := Head(s).len;
        TransformAccepts(q, at + k, m);
        OthersAccepted(Skipped(s[..k]), Segments(s[k..]), m);
      }
    }
  }

  /**
    For every accepted query, markers or not, whose rewritten text holds none of
    the three phrases: the text is restored to the query without its markers
    exactly when no literal or comment holds a changed driver name after a colon,
    and every bind, read with the name bytes that come to stand behind it, gives
    itself and those bytes back.
   */
  lemma ReverseGivesStripped(q: string, m: NameTable, unsafe: set<string>)
    requires RegionsFrom(q, 0).Ok? && Consistent(m, unsafe)
    requires var regions := RegionsFrom(q, 0).value;
             && Ordered(regions, 0, |q|) && InBounds(regions, |q|) && AllGoodStarts(q, regions)
             && forall n :: n in AllNames(q, regions) ==> n in m.userToDriver
    requires forall t, k, p :: t in TEMPLATES && k in m.driverToUser && 0 <= p ==>
               !Quoted(Rewritten(q, RegionsFrom(q, 0).value, 0), t, k, p)
    ensures Restored(Rewritten(q, RegionsFrom(q, 0).value, 0), m.driverToUser) == Stripped(q) <==>
            Backable(Segments(q), m)
  {
    hide *;
    TransformMeaning(q);
    assert q[0..] == q;
    TransformAccepts(q, 0, m);
    KeysOf(m, unsafe);
    NoPhraseNoHits(Rewritten(q, RegionsFrom(q, 0).value, 0), m.driverToUser);
    ColonsGiveStripped(q, m, unsafe);
  }
}
