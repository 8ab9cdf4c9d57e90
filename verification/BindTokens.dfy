/**
  The binds and cursor markers inside one code run.

  A run is a list of tokens: plain bytes, and binds together with the cursor
  marker that follows them, if any. Everything here depends on the text of the
  run alone, because the scanner never looks past the end of a region.
 */
module BindTokens {
  import opened Text
  import opened BindNames
  import opened SqlLexer

  datatype Token = Plain(c: char) | Bind(name: string, mark: string)

  datatype Marker = Marker(name: string, start: nat, end: nat)

  datatype Found = Found(markers: seq<Marker>, bad: seq<string>)

  /** Length of a cursor marker, with the white space in front of it; or 0. */
  function MarkLen(s: string): (m: nat)
    ensures m <= |s|
  {
    var w := SpaceLen(s);
    var c := CursorLen(s[w..]);
    if c > 0 then w + c else 0
  }

  predicate BindAt(s: string) {
    |s| > 1 && s[0] == ':' && IsNameStart(s[1])
  }

  /** End of the bind name at the head of s. */
  function BindEnd(s: string): (n: nat)
    requires BindAt(s)
    ensures 2 <= n <= |s|
  {
    1 + NameLen(s[1..])
  }

  function Tokens(s: string): (r: seq<Token>)
    decreases |s|
  {
    if s == "" then []
    else if BindAt(s) then
      var n := BindEnd(s);
      var m := MarkLen(s[n..]);
      [Bind(s[1..n], s[n..n + m])] + Tokens(s[n + m..])
    else [Plain(s[0])] + Tokens(s[1..])
  }

  function TokenText(t: Token): (r: string)
    ensures r != ""
  {
    match t
    case Plain(c) => [c]
    case Bind(name, mark) => ":" + name + mark
  }

  function Render(ts: seq<Token>): string {
    if ts == [] then "" else TokenText(ts[0]) + Render(ts[1..])
  }

  /** The token the driver is sent: its own name for the bind, and no marker. */
  function ForDriver(t: Token): Token {
    match t
    case Plain(_) => t
    case Bind(name, _) => Bind(Encode(name), "")
  }

  function AllForDriver(ts: seq<Token>): (r: seq<Token>)
    ensures |r| == |ts|
  {
    seq(|ts|, i requires 0 <= i < |ts| => ForDriver(ts[i]))
  }

  function RewriteRun(s: string): string {
    Render(AllForDriver(Tokens(s)))
  }

  function Names(ts: seq<Token>): seq<string> {
    if ts == [] then []
    else (if ts[0].Bind? then [ts[0].name] else []) + Names(ts[1..])
  }

  /** The markers of a token list whose first byte stands at `at`. */
  function MarkersOf(ts: seq<Token>, at: nat): seq<Marker> {
    if ts == [] then []
    else
      var next := at + |TokenText(ts[0])|;
      (if ts[0].Bind? && ts[0].mark != ""
       then [Marker(ts[0].name, next - |ts[0].mark|, next)] else []) + MarkersOf(ts[1..], next)
  }

  lemma Cons(t: Token, ts: seq<Token>, at: nat)
    ensures Render([t] + ts) == TokenText(t) + Render(ts)
    ensures AllForDriver([t] + ts) == [ForDriver(t)] + AllForDriver(ts)
    ensures Names([t] + ts) == (if t.Bind? then [t.name] else []) + Names(ts)
    ensures MarkersOf([t] + ts, at) ==
            var next := at + |TokenText(t)|;
            (if t.Bind? && t.mark != "" then [Marker(t.name, next - |t.mark|, next)] else []) + MarkersOf(ts, next)
  {
    hide TokenText, ForDriver;
    assert ([t] + ts)[1..] == ts;
  }

  /** One step of the token list: a bind with its marker, or one plain byte. */
  function Width(s: string): (k: nat)
    requires s != ""
    ensures 0 < k <= |s|
  {
    if BindAt(s) then BindEnd(s) + MarkLen(s[BindEnd(s)..]) else 1
  }

  function First(s: string): Token
    requires s != ""
  {
    if BindAt(s) then
      var n := BindEnd(s);
      Bind(s[1..n], s[n..n + MarkLen(s[n..])])
    else Plain(s[0])
  }

  lemma PlainFirst(s: string)
    requires s != ""
    ensures !BindAt(s) ==> TokenText(ForDriver(First(s))) == [s[0]]
  {
  }

  lemma FirstText(s: string)
    requires s != ""
    ensures TokenText(First(s)) == s[..Width(s)]
  {
    hide MarkLen, BindEnd;
    if BindAt(s) {
      var n := BindEnd(s);
      var m := MarkLen(s[n..]);
      assert s[..n + m] == ":" + s[1..n] + s[n..n + m];
    }
  }

  lemma TokenStep(s: string, at: nat)
    requires s != ""
    ensures !BindAt(s) ==> Width(s) == 1 && RewriteRun(s) == [s[0]] + RewriteRun(s[1..])
    ensures Tokens(s) == [First(s)] + Tokens(s[Width(s)..])
    ensures RewriteRun(s) == TokenText(ForDriver(First(s))) + RewriteRun(s[Width(s)..])
    ensures Names(Tokens(s)) == (if BindAt(s) then [s[1..BindEnd(s)]] else []) + Names(Tokens(s[Width(s)..]))
    ensures BindAt(s) && MarkLen(s[BindEnd(s)..]) > 0 ==>
              MarkersOf(Tokens(s), at) ==
              [Marker(s[1..BindEnd(s)], at + BindEnd(s), at + Width(s))] +
              MarkersOf(Tokens(s[Width(s)..]), at + Width(s))
    ensures !BindAt(s) || MarkLen(s[BindEnd(s)..]) == 0 ==>
              MarkersOf(Tokens(s), at) == MarkersOf(Tokens(s[Width(s)..]), at + Width(s))
  {
    hide MarkLen, BindEnd, TokenText, ForDriver;
    PlainFirst(s);
    var rest := Tokens(s[Width(s)..]);
    Cons(First(s), rest, at);
    Cons(ForDriver(First(s)), AllForDriver(rest), at);
    FirstText(s);
  }

  lemma {:induction false} RenderTokens(s: string)
    ensures Render(Tokens(s)) == s
    decreases |s|
  {
    hide MarkLen, BindEnd, First, Width;
    if s != "" {
      TokenStep(s, 0);
      RenderTokens(s[Width(s)..]);
      Cons(First(s), Tokens(s[Width(s)..]), 0);
      FirstText(s);
    }
  }

  lemma {:induction false} PlainSteps(s: string, k: nat, at: nat)
    requires k <= |s|
    requires forall i :: 0 <= i < k ==> !BindAt(s[i..])
    ensures RewriteRun(s) == s[..k] + RewriteRun(s[k..])
    ensures Names(Tokens(s)) == Names(Tokens(s[k..]))
    ensures MarkersOf(Tokens(s), at) == MarkersOf(Tokens(s[k..]), at + k)
  {
    hide *;
    if k == 0 {
      assert s[0..] == s;
    } else {
      PlainSteps(s, k - 1, at);
      var t := s[k - 1..];
      TokenStep(t, at + k - 1);
      assert t[1..] == s[k..];
      assert s[..k] == s[..k - 1] + [t[0]];
    }
  }

  // ----- Cursor markers -----

  function BroadLen(s: string): (n: nat)
    ensures n <= |s|
    ensures forall i :: 0 <= i < n ==> IsBroadByte(s[i])
    ensures n < |s| ==> !IsBroadByte(s[n])
  {
    if s != "" && IsBroadByte(s[0]) then 1 + BroadLen(s[1..]) else 0
  }

  /** A colon, a wide name, white space and a cursor comment stand at the head. */
  predicate MarkedColon(s: string) {
    |s| > 1 && s[0] == ':' && s[1] != '=' && MarkLen(s[1 + BroadLen(s[1..])..]) > 0
  }

  function Plus(a: Found, b: Found): Found {
    Found(a.markers + b.markers, a.bad + b.bad)
  }

  function FoundOne(name: string, start: nat, end: nat, unsafe: set<string>): Found {
    if ValidUser(name, unsafe) then Found([Marker(name, start, end)], []) else Found([], [name])
  }

  function MarkersIn(s: string, at: nat, unsafe: set<string>): Found
    decreases |s|
  {
    if s == "" then Found([], [])
    else if MarkedColon(s) then
      var n := 1 + BroadLen(s[1..]);
      var m := MarkLen(s[n..]);
      Plus(FoundOne(s[1..n], at + n, at + n + m, unsafe), MarkersIn(s[n + m..], at + n + m, unsafe))
    else MarkersIn(s[1..], at + 1, unsafe)
  }

  lemma {:induction false} MarkersSkip(s: string, k: nat, at: nat, unsafe: set<string>)
    requires k <= |s|
    requires forall i :: 0 <= i < k ==> !MarkedColon(s[i..])
    ensures MarkersIn(s, at, unsafe) == MarkersIn(s[k..], at + k, unsafe)
  {
    hide *;
    if k == 0 {
      assert s[0..] == s;
    } else {
      MarkersSkip(s, k - 1, at, unsafe);
      PlainMarkers(s[k - 1..], at + k - 1, unsafe);
      assert s[k - 1..][1..] == s[k..];
    }
  }

  lemma PlainMarkers(s: string, at: nat, unsafe: set<string>)
    requires s != "" && !MarkedColon(s)
    ensures MarkersIn(s, at, unsafe) == MarkersIn(s[1..], at + 1, unsafe)
  {
    hide MarkedColon;
  }

  /** The wide name in front of a marker, when it is valid, is the bind's name. */
  lemma BroadIsName(s: string)
    requires s != "" && IsUserName(s[..BroadLen(s)])
    ensures NameLen(s) == BroadLen(s)
  {
    var n := BroadLen(s);
    assert forall i :: 0 <= i < n ==> s[i] == s[..n][i];
    if n < |s| {
      assert !IsNameBody(s[n]);
    }
  }

  lemma UserNameBinds(s: string, b: nat)
    requires 1 <= b <= |s| && s[0] == ':' && IsUserName(s[1..b])
    ensures BindAt(s)
  {
    assert s[1..b][0] == s[1];
  }

  lemma NameIsBroad(s: string)
    ensures NameLen(s) <= BroadLen(s)
    ensures NameLen(s) < |s| && !IsBroadByte(s[NameLen(s)]) ==> BroadLen(s) == NameLen(s)
  {
    assert forall i :: 0 <= i < NameLen(s) ==> IsNameBody(s[i]);
  }

  lemma MarkStartsUnbroad(s: string)
    requires MarkLen(s) > 0
    ensures s != "" && !IsBroadByte(s[0]) && !IsNameBody(s[0])
  {
  }

  lemma MarkedIsBind(s: string)
    requires MarkedColon(s) && IsUserName(s[1..1 + BroadLen(s[1..])])
    ensures BindAt(s) && BindEnd(s) == 1 + BroadLen(s[1..]) && MarkLen(s[BindEnd(s)..]) > 0
  {
    hide IsUserName, IsNameBody, IsNameStart, MarkLen, BroadLen, NameLen;
    var b := BroadLen(s[1..]);
    assert s[1..1 + b] == s[1..][..b];
    BroadIsName(s[1..]);
    UserNameBinds(s, 1 + b);
  }

  lemma MarkAfterName(s: string)
    requires BindAt(s) && MarkLen(s[BindEnd(s)..]) > 0
    ensures MarkedColon(s)
  {
    hide MarkLen, IsBroadByte;
    var n := BindEnd(s);
    NameIsBroad(s[1..]);
    MarkStartsUnbroad(s[n..]);
    assert s[1..][n - 1] == s[n..][0];
  }

  lemma UnmarkedBind(s: string)
    requires BindAt(s) && !MarkedColon(s)
    ensures MarkLen(s[BindEnd(s)..]) == 0 && Width(s) == BindEnd(s)
    ensures forall i :: 0 <= i < BindEnd(s) ==> !MarkedColon(s[i..])
  {
    hide MarkLen;
    var n := BindEnd(s);
    if MarkLen(s[n..]) > 0 {
      MarkAfterName(s);
    }
    NameHasNoColon(s[1..]);
    forall i | 0 <= i < n ensures !MarkedColon(s[i..]) {
      if i == 0 {
        assert s[0..] == s;
      } else {
        assert s[i..][0] == s[1..][i - 1];
      }
    }
  }

  /** When no marker names an invalid bind, the marker scan finds the tokens' markers. */
  lemma {:induction false} MarkersAreTokens(s: string, at: nat, unsafe: set<string>)
    requires MarkersIn(s, at, unsafe).bad == []
    ensures MarkersIn(s, at, unsafe).markers == MarkersOf(Tokens(s), at)
    decreases |s|
  {
    hide *;
    if s == "" {
      NoMarkers(at, unsafe);
    } else if MarkedColon(s) {
      TokenStep(s, at);
      MarkedCase(s, at, unsafe);
      MarkersAreTokens(s[Width(s)..], at + Width(s), unsafe);
    } else if BindAt(s) {
      TokenStep(s, at);
      UnmarkedBind(s);
      MarkersSkip(s, BindEnd(s), at, unsafe);
      MarkersAreTokens(s[BindEnd(s)..], at + BindEnd(s), unsafe);
    } else {
      assert s[0..] == s;
      TokenStep(s, at);
      MarkersSkip(s, 1, at, unsafe);
      MarkersAreTokens(s[1..], at + 1, unsafe);
    }
  }

  lemma NoMarkers(at: nat, unsafe: set<string>)
    ensures MarkersIn("", at, unsafe) == Found([], [])
    ensures MarkersOf(Tokens(""), at) == []
  {
  }

  lemma MarkedCase(s: string, at: nat, unsafe: set<string>)
    requires MarkedColon(s) && MarkersIn(s, at, unsafe).bad == []
    ensures BindAt(s) && MarkLen(s[BindEnd(s)..]) > 0
    ensures var rest := MarkersIn(s[Width(s)..], at + Width(s), unsafe);
            && rest.bad == []
            && MarkersIn(s, at, unsafe).markers ==
               [Marker(s[1..BindEnd(s)], at + BindEnd(s), at + Width(s))] + rest.markers
  {
    hide MarkLen, BroadLen, BindAt, BindEnd, HasSentinel, IsUserName;
    var n := 1 + BroadLen(s[1..]);
    var k := n + MarkLen(s[n..]);
    var one := FoundOne(s[1..n], at + n, at + k, unsafe);
    var rest := MarkersIn(s[k..], at + k, unsafe);
    assert MarkersIn(s, at, unsafe) == Plus(one, rest);
    hide MarkersIn;
    assert |one.bad| == 0 && |rest.bad| == 0;
    assert ValidUser(s[1..n], unsafe);
    MarkedIsBind(s);
  }

  lemma NameHasNoColon(s: string)
    ensures forall i :: 0 <= i < NameLen(s) ==> s[i] != ':'
  {
  }

  lemma MarkHasNoColon(s: string)
    ensures forall i :: 0 <= i < MarkLen(s) ==> s[i] != ':'
  {
    if MarkLen(s) > 0 {
      var w := SpaceLen(s);
      SpacesHaveNoColon(s);
      CursorHasNoColon(s[w..]);
      assert forall i :: w <= i < MarkLen(s) ==> s[i] == s[w..][i - w];
    }
  }

  lemma {:induction false} SpacesHaveNoColon(s: string)
    ensures forall i :: 0 <= i < SpaceLen(s) ==> s[i] != ':' && s[i] != '*'
  {
    if s != "" && IsSpace(s[0]) {
      SpacesHaveNoColon(s[1..]);
    }
  }

  lemma CursorHasNoColon(s: string)
    ensures forall i :: 0 <= i < CursorLen(s) ==> s[i] != ':'
    ensures forall i :: 2 <= i < CursorLen(s) - 2 ==> s[i] != '*'
  {
    if CursorLen(s) > 0 {
      var a := 2 + SpaceLen(s[2..]);
      SpacesHaveNoColon(s[2..]);
      SpacesHaveNoColon(s[a + 6..]);
      forall i | 0 <= i < CursorLen(s) ensures s[i] != ':' && (2 <= i < CursorLen(s) - 2 ==> s[i] != '*') {
        if 2 <= i < a {
          assert s[i] == s[2..][i - 2];
        } else if a <= i < a + 6 {
          assert Upper(s[a..a + 6])[i - a] == UpperByte(s[i]) == "CURSOR"[i - a];
        } else if a + 6 <= i < CursorLen(s) - 2 {
          assert s[i] == s[a + 6..][i - a - 6];
        }
      }
    }
  }

  predicate InBounds(regions: seq<Region>, n: nat) {
    forall r :: r in regions ==> r.start < r.end <= n
  }

  function RegionText(q: string, r: Region): string
    requires r.start <= r.end <= |q|
  {
    q[r.start..r.end]
  }

  function AllMarkers(q: string, regions: seq<Region>, unsafe: set<string>): Found
    requires InBounds(regions, |q|)
  {
    if regions == [] then Found([], [])
    else
      var r := regions[0];
      Plus(MarkersIn(RegionText(q, r), r.start, unsafe), AllMarkers(q, regions[1..], unsafe))
  }

  /** The binds of all regions, in the order they are met. */
  function AllNames(q: string, regions: seq<Region>): seq<string>
    requires InBounds(regions, |q|)
  {
    if regions == [] then []
    else Names(Tokens(RegionText(q, regions[0]))) + AllNames(q, regions[1..])
  }

  /** The markers that belong to the tokens of all regions. */
  function TokenMarkers(q: string, regions: seq<Region>): seq<Marker>
    requires InBounds(regions, |q|)
  {
    if regions == [] then []
    else MarkersOf(Tokens(RegionText(q, regions[0])), regions[0].start) + TokenMarkers(q, regions[1..])
  }

  lemma {:induction false} AllMarkersAreTokens(q: string, regions: seq<Region>, unsafe: set<string>)
    requires InBounds(regions, |q|) && AllMarkers(q, regions, unsafe).bad == []
    ensures AllMarkers(q, regions, unsafe).markers == TokenMarkers(q, regions)
  {
    hide MarkersIn, Tokens, MarkersOf;
    if regions != [] {
      var here := MarkersIn(RegionText(q, regions[0]), regions[0].start, unsafe);
      var rest := AllMarkers(q, regions[1..], unsafe);
      assert |here.bad| == 0 && |rest.bad| == 0;
      MarkersAreTokens(RegionText(q, regions[0]), regions[0].start, unsafe);
      AllMarkersAreTokens(q, regions[1..], unsafe);
    }
  }

  lemma {:induction false} OrderedInBounds(regions: seq<Region>, from: nat, to: nat)
    requires Ordered(regions, from, to)
    ensures InBounds(regions, to)
  {
    if regions != [] {
      OrderedInBounds(regions[1..], regions[0].end, to);
      OrderedWeaken(regions[1..], regions[0].end, from, to);
      assert regions == [regions[0]] + regions[1..];
    }
  }

  // ----- Markers spelled out -----

  /** A bind, any white space and a cursor comment are one token, whatever follows. */
  lemma MarkedBindIsToken(name: string, spaces: string, rest: string)
    requires IsUserName(name) && forall i :: 0 <= i < |spaces| ==> IsSpace(spaces[i])
    ensures var ts := Tokens(":" + name + spaces + "/*CURSOR*/" + rest);
            ts != [] && ts[0] == Bind(name, spaces + "/*CURSOR*/")
  {
    hide *;
    var tail := spaces + "/*CURSOR*/" + rest;
    var s := ":" + name + spaces + "/*CURSOR*/" + rest;
    ConcatAssoc(":" + name, spaces, "/*CURSOR*/");
    ConcatAssoc(":" + name, spaces + "/*CURSOR*/", rest);
    SpaceIsNoName(spaces, rest);
    BindInFront(name, tail);
    MarkBehind(spaces, rest);
    TokenFirst(s);
  }

  lemma BindInFront(name: string, tail: string)
    requires IsUserName(name) && (tail != "" ==> !IsNameBody(tail[0]))
    ensures var s := ":" + name + tail; var n := 1 + |name|;
            BindAt(s) && BindEnd(s) == n && s[1..n] == name && s[n..] == tail
  {
    hide IsNameBody, IsNameStart, NameLen;
    var s := ":" + name + tail;
    assert s[1..] == name + tail && s[1] == name[0];
    NameBefore(name, tail);
  }

  lemma MarkBehind(spaces: string, rest: string)
    requires forall i :: 0 <= i < |spaces| ==> IsSpace(spaces[i])
    ensures var tail := spaces + "/*CURSOR*/" + rest; var m := |spaces| + 10;
            MarkLen(tail) == m && tail[..m] == spaces + "/*CURSOR*/"
  {
    hide CursorLen, SpaceLen;
    SpaceIsNoName(spaces, rest);
    SpacesThen(spaces, "/*CURSOR*/" + rest);
    ConcatAssoc(spaces, "/*CURSOR*/", rest);
    assert (spaces + "/*CURSOR*/" + rest)[|spaces|..] == MARK + rest;
    MarkLexes(rest);
  }

  lemma TokenFirst(s: string)
    requires BindAt(s)
    ensures var n := BindEnd(s); var m := MarkLen(s[n..]);
            Tokens(s) != [] && Tokens(s)[0] == Bind(s[1..n], s[n..][..m])
  {
    hide MarkLen, BindEnd;
  }

  lemma SpaceIsNoName(spaces: string, rest: string)
    requires forall i :: 0 <= i < |spaces| ==> IsSpace(spaces[i])
    ensures var tail := spaces + "/*CURSOR*/" + rest; tail != "" && !IsNameBody(tail[0])
    ensures !IsSpace('/')
  {
    assert (spaces + "/*CURSOR*/" + rest)[0] == if spaces == "" then '/' else spaces[0];
  }

  lemma {:induction false} NameBefore(name: string, tail: string)
    requires (forall i :: 0 <= i < |name| ==> IsNameBody(name[i])) && (tail != "" ==> !IsNameBody(tail[0]))
    ensures NameLen(name + tail) == |name|
  {
    hide IsNameBody;
    if name == "" {
      assert name + tail == tail;
    } else {
      assert (name + tail)[1..] == name[1..] + tail;
      NameBefore(name[1..], tail);
    }
  }

  lemma {:induction false} BroadBefore(name: string, tail: string)
    requires (forall i :: 0 <= i < |name| ==> IsBroadByte(name[i])) && (tail != "" ==> !IsBroadByte(tail[0]))
    ensures BroadLen(name + tail) == |name|
  {
    hide IsBroadByte;
    if name == "" {
      assert name + tail == tail;
    } else {
      assert (name + tail)[1..] == name[1..] + tail;
      BroadBefore(name[1..], tail);
    }
  }

  lemma ColonIsMarked(name: string, tail: string)
    requires (forall i :: 0 <= i < |name| ==> IsBroadByte(name[i])) && tail != "" && !IsBroadByte(tail[0])
    requires tail[0] != '=' && MarkLen(tail) > 0
    ensures var s := ":" + name + tail; var n := 1 + |name|;
            MarkedColon(s) && BroadLen(s[1..]) == |name| && s[1..n] == name && s[n..] == tail
  {
    hide IsBroadByte, MarkLen, BroadLen;
    var s := ":" + name + tail;
    assert s[1..] == name + tail;
    BroadBefore(name, tail);
    EqualsIsNarrow();
    assert s[1] == if name == "" then tail[0] else name[0];
    assert s[1 + |name|..] == tail;
  }

  lemma EqualsIsNarrow()
    ensures !IsBroadByte('=')
  {
  }

  lemma NarrowBehind(spaces: string, rest: string)
    requires forall i :: 0 <= i < |spaces| ==> IsSpace(spaces[i])
    ensures var tail := spaces + "/*CURSOR*/" + rest; tail != "" && !IsBroadByte(tail[0]) && tail[0] != '='
  {
    assert (spaces + "/*CURSOR*/" + rest)[0] == if spaces == "" then '/' else spaces[0];
  }

  /**
    Whatever wide name, empty ones included, stands between a colon and a cursor
    marker: it is a marker when the name is valid, and reported otherwise.
   */
  lemma MarkerIsScanned(name: string, spaces: string, rest: string, at: nat, unsafe: set<string>)
    requires forall i :: 0 <= i < |name| ==> IsBroadByte(name[i])
    requires forall i :: 0 <= i < |spaces| ==> IsSpace(spaces[i])
    ensures var f := MarkersIn(":" + name + spaces + "/*CURSOR*/" + rest, at, unsafe);
            var start := at + 1 + |name|;
            if ValidUser(name, unsafe) then
              f.markers != [] && f.markers[0] == Marker(name, start, start + |spaces| + 10)
            else f.bad != [] && f.bad[0] == name
  {
    hide *;
    var tail := spaces + "/*CURSOR*/" + rest;
    ConcatAssoc(":" + name, spaces, "/*CURSOR*/");
    ConcatAssoc(":" + name, spaces + "/*CURSOR*/", rest);
    NarrowBehind(spaces, rest);
    MarkBehind(spaces, rest);
    ColonIsMarked(name, tail);
    MarkerFirst(":" + name + tail, at, unsafe);
  }

  lemma MarkerFirst(s: string, at: nat, unsafe: set<string>)
    requires MarkedColon(s)
    ensures var n := 1 + BroadLen(s[1..]); var f := MarkersIn(s, at, unsafe);
            if ValidUser(s[1..n], unsafe) then
              f.markers != [] && f.markers[0] == Marker(s[1..n], at + n, at + n + MarkLen(s[n..]))
            else f.bad != [] && f.bad[0] == s[1..n]
  {
    hide BroadLen, MarkLen, ValidUser;
  }

  /** The name stands between a colon and a cursor marker, and is no valid name. */
  predicate BadMarked(s: string, name: string, unsafe: set<string>) {
    !ValidUser(name, unsafe) && exists i :: 0 <= i < |s| && MarkedName(s, i, name)
  }

  predicate MarkedName(s: string, i: nat, name: string)
    requires i < |s|
  {
    MarkedColon(s[i..]) && name == s[i..][1..1 + BroadLen(s[i..][1..])]
  }

  lemma MarkedLater(s: string, k: nat, name: string, unsafe: set<string>)
    requires k <= |s| && BadMarked(s[k..], name, unsafe)
    ensures BadMarked(s, name, unsafe)
  {
    hide MarkedColon, BroadLen, ValidUser;
    var i :| 0 <= i < |s| - k && MarkedName(s[k..], i, name);
    assert s[k..][i..] == s[k + i..];
    assert MarkedName(s, k + i, name);
  }

  /** The names reported for markers are just those. */
  lemma {:induction false} BadAreMarked(s: string, at: nat, unsafe: set<string>)
    ensures forall name :: name in MarkersIn(s, at, unsafe).bad ==> BadMarked(s, name, unsafe)
    decreases |s|
  {
    hide MarkedColon, BroadLen, ValidUser, MarkLen, BadMarked;
    if s != "" {
      var n := 1 + BroadLen(s[1..]);
      var k := if MarkedColon(s) then n + MarkLen(s[n..]) else 1;
      BadAreMarked(s[k..], at + k, unsafe);
      BadStep(s, at, unsafe);
      forall name | name in MarkersIn(s, at, unsafe).bad ensures BadMarked(s, name, unsafe) {
        if name in MarkersIn(s[k..], at + k, unsafe).bad {
          MarkedLater(s, k, name, unsafe);
        } else {
          HeadIsBad(s, name, unsafe);
        }
      }
    }
  }

  lemma BadStep(s: string, at: nat, unsafe: set<string>)
    requires s != ""
    ensures var n := 1 + BroadLen(s[1..]);
            var k := if MarkedColon(s) then n + MarkLen(s[n..]) else 1;
            && k <= |s|
            && MarkersIn(s, at, unsafe).bad ==
               (if MarkedColon(s) && !ValidUser(s[1..n], unsafe) then [s[1..n]] else []) +
               MarkersIn(s[k..], at + k, unsafe).bad
  {
    hide BroadLen, ValidUser, MarkLen;
  }

  lemma HeadIsBad(s: string, name: string, unsafe: set<string>)
    requires s != "" && MarkedColon(s) && !ValidUser(name, unsafe) && name == s[1..1 + BroadLen(s[1..])]
    ensures BadMarked(s, name, unsafe)
  {
    hide MarkedColon, BroadLen, ValidUser;
    assert s[0..] == s;
    assert MarkedName(s, 0, name);
  }
}
