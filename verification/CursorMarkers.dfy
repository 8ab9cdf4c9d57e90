/** The pass that finds cursor markers: a bind, white space and a cursor comment. */
module CursorMarkers {
  import opened Text
  import opened SqlLexer
  import opened BindTokens

  method SkipBroad(query: string, start: nat, end: nat) returns (i: nat)
    requires start <= end <= |query|
    ensures start <= i <= end && i == start + BroadLen(query[start..end])
  {
    hide IsBroadByte;
    i := start;
    while i < end && IsBroadByte(query[i])
      invariant start <= i <= end
      invariant BroadLen(query[start..end]) == i - start + BroadLen(query[i..end])
    {
      assert query[i..end][1..] == query[i + 1..end];
      i := i + 1;
    }
  }

  lemma PlusUnit(f: Found)
    ensures Plus(Found([], []), f) == f == Plus(f, Found([], []))
  {
    assert [] + f.markers == f.markers == f.markers + [];
    assert [] + f.bad == f.bad == f.bad + [];
  }

  lemma PlusAssoc(a: Found, b: Found, c: Found)
    ensures Plus(Plus(a, b), c) == Plus(a, Plus(b, c))
  {
    assert a.markers + b.markers + c.markers == a.markers + (b.markers + c.markers);
    assert a.bad + b.bad + c.bad == a.bad + (b.bad + c.bad);
  }

  lemma MarkersStep(s: string, at: nat, unsafe: set<string>)
    requires s != ""
    ensures MarkedColon(s) ==>
              var n := 1 + BroadLen(s[1..]); var m := MarkLen(s[n..]);
              MarkersIn(s, at, unsafe) ==
              Plus(FoundOne(s[1..n], at + n, at + n + m, unsafe), MarkersIn(s[n + m..], at + n + m, unsafe))
    ensures !MarkedColon(s) ==> MarkersIn(s, at, unsafe) == MarkersIn(s[1..], at + 1, unsafe)
  {
    hide MarkedColon, MarkLen, BroadLen, FoundOne;
    assert MarkedColon(s) ==> s != "";
  }

  /** The end of the white space and cursor comment that begin at `start`. */
  method ScanMark(query: string, start: nat, end: nat) returns (r: Option<nat>)
    requires start <= end <= |query|
    ensures var m := MarkLen(query[start..end]); r == if m > 0 then Some(start + m) else None
  {
    hide CursorLen, SpaceLen;
    var spaceEnd := SkipSpaces(query, start, end);
    DropOfSlice(query, start, end, spaceEnd - start);
    r := ScanCursorComment(query, spaceEnd, end);
  }

  /** The marker that the colon at byte i begins: where its name and comment end. */
  method MarkerAt(query: string, i: nat, end: nat) returns (r: Option<(nat, nat)>)
    requires i < end <= |query|
    ensures var s := query[i..end];
            if MarkedColon(s) then
              var n := 1 + BroadLen(s[1..]); r == Some((i + n, i + n + MarkLen(s[n..])))
            else r == None
    ensures r.Some? ==> i < r.value.0 <= r.value.1 <= end
  {
    hide MarkLen, BroadLen;
    if query[i] != ':' || i + 1 >= end || query[i + 1] == '=' {
      return None;
    }
    var nameEnd := SkipBroad(query, i + 1, end);
    DropOfSlice(query, i, end, 1);
    DropOfSlice(query, i, end, nameEnd - i);
    var markEnd := ScanMark(query, nameEnd, end);
    if markEnd.None? {
      return None;
    }
    return Some((nameEnd, markEnd.value));
  }

  lemma TextOfRegion(query: string, region: Region)
    requires region.start < region.end <= |query|
    ensures RegionText(query, region) == query[region.start..region.end]
  {
  }

  method ScanRegionMarkers(query: string, region: Region, unsafe: set<string>) returns (f: Found)
    requires region.start < region.end <= |query|
    ensures f == MarkersIn(RegionText(query, region), region.start, unsafe)
  {
    hide *;
    var start, end := region.start, region.end;
    TextOfRegion(query, region);
    ghost var all := MarkersIn(query[start..end], start, unsafe);
    f := Found([], []);
    var i := start;
    PlusUnit(all);
    while i < end
      invariant start <= i <= end
      invariant all == Plus(f, MarkersIn(query[i..end], i, unsafe))
    {
      MarkersStep(query[i..end], i, unsafe);
      var marker := MarkerAt(query, i, end);
      if marker.None? {
        DropOfSlice(query, i, end, 1);
        i := i + 1;
      } else {
        var (nameEnd, commentEnd) := marker.value;
        SliceOfSlice(query, i, end, 1, nameEnd - i);
        DropOfSlice(query, i, end, commentEnd - i);
        var one := FoundOne(query[i + 1..nameEnd], nameEnd, commentEnd, unsafe);
        PlusAssoc(f, one, MarkersIn(query[commentEnd..end], commentEnd, unsafe));
        f := Plus(f, one);
        i := commentEnd;
      }
    }
    assert query[end..end] == "";
    NoMarkers(end, unsafe);
    PlusUnit(f);
  }

  /** All markers of the query, or the invalid names found in front of markers. */
  method ScanCursorMarkers(query: string, regions: seq<Region>, unsafe: set<string>)
    returns (r: Result<seq<Marker>, seq<string>>)
    requires InBounds(regions, |query|)
    ensures var f := AllMarkers(query, regions, unsafe);
            r == if f.bad == [] then Ok(f.markers) else Err(f.bad)
    ensures r.Ok? ==> r.value == TokenMarkers(query, regions)
  {
    hide MarkersIn;
    var f := Found([], []);
    PlusUnit(AllMarkers(query, regions, unsafe));
    for k := 0 to |regions|
      invariant AllMarkers(query, regions, unsafe) == Plus(f, AllMarkers(query, regions[k..], unsafe))
    {
      var here := ScanRegionMarkers(query, regions[k], unsafe);
      PlusAssoc(f, here, AllMarkers(query, regions[k + 1..], unsafe));
      f := Plus(f, here);
    }
    PlusUnit(f);
    r := if f.bad == [] then Ok(f.markers) else Err(f.bad);
    if f.bad == [] {
      AllMarkersAreTokens(query, regions, unsafe);
    }
  }
}
