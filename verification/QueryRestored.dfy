/** Reversing the names of a rewritten query gives the query back. */
module QueryRestored {
  import opened Text
  import opened BindNames
  import opened NameMap
  import opened SqlLexer
  import opened BindTokens
  import opened BindTransform
  import opened RelexQuery
  import opened QueryMeaning
  import opened ReverseNames
  import opened NamesRestored
  import opened BareTemplates

  lemma {:induction false} NoMarkersUnmarked(x: string, at: nat)
    requires MarkersOf(Tokens(x), at) == []
    ensures Unmarked(x)
    decreases |x|
  {
    hide MarkLen, BindEnd, BindAt, Width;
    if x != "" {
      TokenStep(x, at);
      NoMarkersUnmarked(x[Width(x)..], at + Width(x));
    }
  }

  lemma RunRegistered(q: string, r: Region, regions: seq<Region>, rest: seq<Segment>, m: NameTable)
    requires InBounds([r] + regions, |q|) && r.start < r.end
    requires TokenMarkers(q, [r] + regions) == [] && AllGoodStarts(q, [r] + regions)
    requires forall n :: n in AllNames(q, [r] + regions) ==> n in m.userToDriver
    ensures InBounds(regions, |q|) && TokenMarkers(q, regions) == [] && AllGoodStarts(q, regions)
    ensures forall n :: n in AllNames(q, regions) ==> n in m.userToDriver
    ensures Registered(rest, m) ==> Registered([Run(RegionText(q, r))] + rest, m)
  {
    hide Tokens, Names, MarkersOf, Unmarked, NoBadStart;
    var x := RegionText(q, r);
    assert ([r] + regions)[1..] == regions && forall y :: y in regions ==> y in [r] + regions;
    assert ([Run(x)] + rest)[1..] == rest;
    SplitMarkers(q, [r] + regions);
    NoMarkersUnmarked(x, r.start);
    assert forall n :: n in Names(Tokens(x)) ==> n in AllNames(q, [r] + regions);
  }

  lemma OthersRegistered(g: Segment, rest: seq<Segment>, m: NameTable)
    requires Registered(rest, m) && !g.Run?
    ensures Registered([g] + rest, m) && Registered([], m)
  {
    assert ([g] + rest)[1..] == rest;
  }

  /** What the transform accepted, in terms of the segments of the query. */
  lemma {:induction false} TransformRegisters(q: string, at: nat, m: NameTable)
    requires at <= |q| && RegionsFrom(q, at).Ok? && InBounds(RegionsFrom(q, at).value, |q|)
    requires TokenMarkers(q, RegionsFrom(q, at).value) == [] && AllGoodStarts(q, RegionsFrom(q, at).value)
    requires forall n :: n in AllNames(q, RegionsFrom(q, at).value) ==> n in m.userToDriver
    ensures Registered(Segments(q[at..]), m)
    decreases |q| - at
  {
    hide Head, CodeLen, Tokens, Names, Segments, AllNames, InBounds, TokenMarkers, AllGoodStarts, Registered;
    if at == |q| {
      NoSegments();
      OthersRegistered(Cut(""), [], m) by { NothingRegistered(m); }
    } else {
      var s := q[at..];
      SegmentsStep(s);
      if CodeLen(s) > 0 {
        var n := CodeLen(s);
        var rest := RegionsFrom(q, at + n).value;
        assert RegionText(q, Region(at, at + n)) == s[..n];
        RunRegistered(q, Region(at, at + n), rest, Segments(s[n..]), m);
        TransformRegisters(q, at + n, m);
      } else {
        var k := Head(s).len;
        TransformRegisters(q, at + k, m);
        OthersRegistered(Skipped(s[..k]), Segments(s[k..]), m);
      }
    }
  }

  lemma NothingRegistered(m: NameTable)
    ensures Registered([], m)
  {
  }

  lemma KeysOf(m: NameTable, unsafe: set<string>)
    requires Consistent(m, unsafe)
    ensures KeysAreNames(m.driverToUser)
  {
    hide ChangesKnown, HasSentinel, UsersKnown, DriversKnown, NeedsEncoding;
    forall k | k in m.driverToUser ensures k != "" && forall i :: 0 <= i < |k| ==> IsNameBody(k[i]) {
      ChangesOf(m, unsafe);
      KeyIs(m, k);
      KeyUser(m, unsafe, m.driverToUser[k]);
      EncodeIsPlain(m.driverToUser[k]);
    }
  }

  /**
    The rewritten text of an accepted query without markers, when it holds none
    of the three phrases, is restored to the query exactly when no literal or
    comment holds a changed driver name after a colon and no changed bind runs
    into a q-quote.
   */
  lemma ReverseUndoesRewrite(q: string, m: NameTable, unsafe: set<string>)
    requires RegionsFrom(q, 0).Ok? && Consistent(m, unsafe)
    requires var regions := RegionsFrom(q, 0).value;
             && Ordered(regions, 0, |q|) && InBounds(regions, |q|)
             && TokenMarkers(q, regions) == [] && AllGoodStarts(q, regions)
             && forall n :: n in AllNames(q, regions) ==> n in m.userToDriver
    requires forall t, k, p :: t in TEMPLATES && k in m.driverToUser && 0 <= p ==>
               !Quoted(Rewritten(q, RegionsFrom(q, 0).value, 0), t, k, p)
    ensures Restored(Rewritten(q, RegionsFrom(q, 0).value, 0), m.driverToUser) == q <==> Reversible(Segments(q), m)
  {
    hide *;
    TransformMeaning(q);
    assert q[0..] == q;
    TransformRegisters(q, 0, m);
    KeysOf(m, unsafe);
    NoPhraseNoHits(Rewritten(q, RegionsFrom(q, 0).value, 0), m.driverToUser);
    ColonsReversed(q, m, unsafe);
  }
}
