/**
  The pass that rewrites a query: every bind gets its driver name, every cursor
  marker is dropped, and all other text is copied.
 */
module BindTransform {
  import opened Text
  import opened BindNames
  import opened NameMap
  import opened SqlLexer
  import opened BindTokens

  /** The output builder: its text, whether it is in use, and the last byte copied. */
  datatype Emit = Emit(text: string, changed: bool, last: nat)

  ghost predicate EmitOk(e: Emit, i: nat) {
    e.last <= i && (!e.changed ==> e.text == "" && e.last == 0)
  }

  /** Everything written once the input up to i is copied. */
  ghost function Pending(q: string, e: Emit, i: nat): string
    requires e.last <= i <= |q|
  {
    e.text + q[e.last..i]
  }

  predicate BadBindAt(s: string) {
    |s| > 1 && s[0] == ':' && IsBadStart(s[1])
  }

  /** No colon is followed by a digit, `$` or `#`. */
  predicate NoBadStart(s: string) {
    forall p :: 0 <= p < |s| - 1 && s[p] == ':' ==> !IsBadStart(s[p + 1])
  }

  /** The rewritten text of q from `at`, region by region. */
  function Rewritten(q: string, regions: seq<Region>, at: nat): string
    requires Ordered(regions, at, |q|)
  {
    if regions == [] then q[at..]
    else
      var r := regions[0];
      q[at..r.start] + RewriteRun(RegionText(q, r)) + Rewritten(q, regions[1..], r.end)
  }

  lemma NoBadStartSkips(s: string, k: nat)
    requires k <= |s|
    requires forall p :: 0 < p < k ==> s[p] != ':'
    requires k > 0 && s[0] == ':' ==> !BadBindAt(s)
    ensures NoBadStart(s) <==> NoBadStart(s[k..])
  {
    assert forall p :: k <= p < |s| ==> s[p] == s[k..][p - k];
    assert NoBadStart(s) ==> forall p :: 0 <= p < |s| - k - 1 ==> s[k..][p] == s[k + p];
  }

  lemma BindIsNotBad(s: string)
    requires BindAt(s)
    ensures NoBadStart(s) <==> NoBadStart(s[Width(s)..])
  {
    hide MarkLen, NoBadStart, IsNameBody;
    var n := BindEnd(s);
    MarkHasNoColon(s[n..]);
    NameHasNoColon(s[1..]);
    forall p | 0 < p < Width(s) ensures s[p] != ':' {
      if p < n {
        assert s[p] == s[1..][p - 1];
      } else {
        assert s[p] == s[n..][p - n];
      }
    }
    NoBadStartSkips(s, Width(s));
  }

  lemma {:induction false} MarkerBounds(s: string, at: nat)
    ensures forall m :: m in MarkersOf(Tokens(s), at) ==> at < m.start < m.end <= at + |s|
    decreases |s|
  {
    hide *;
    if s == "" {
      NoMarkers(at, {});
    } else {
      TokenStep(s, at);
      BindWidth(s);
      MarkerBounds(s[Width(s)..], at + Width(s));
    }
  }

  lemma BindWidth(s: string)
    requires s != ""
    ensures BindAt(s) ==> Width(s) == BindEnd(s) + MarkLen(s[BindEnd(s)..])
  {
  }

  method NextColon(query: string, start: nat, end: nat) returns (i: nat)
    requires start <= end <= |query|
    ensures start <= i <= end && (i < end ==> query[i] == ':')
    ensures forall k :: start <= k < i ==> query[k] != ':'
  {
    i := start;
    while i < end && query[i] != ':'
      invariant start <= i <= end
      invariant forall k :: start <= k < i ==> query[k] != ':'
    {
      i := i + 1;
    }
  }

  method ScanName(query: string, start: nat, end: nat) returns (i: nat)
    requires start < end <= |query| && IsNameBody(query[start])
    ensures start < i <= end && i == start + NameLen(query[start..end])
  {
    hide IsNameBody;
    i := start + 1;
    assert query[start..end][1..] == query[i..end];
    while i < end && IsNameBody(query[i])
      invariant start < i <= end
      invariant NameLen(query[start..end]) == i - start + NameLen(query[i..end])
    {
      assert query[i..end][1..] == query[i + 1..end];
      i := i + 1;
    }
  }

  /** The name stands behind a colon of the code that ends at `end`, up to a byte that cannot continue it. */
  predicate BehindColon(q: string, end: nat, name: string)
    requires end <= |q|
  {
    name != "" &&
    exists j :: 0 <= j < end - |name| && q[j] == ':' && StandsAt(q, j + 1, end, name)
  }

  predicate StandsAt(q: string, i: nat, end: nat, name: string)
    requires i + |name| <= end <= |q|
  {
    q[i..i + |name|] == name && (i + |name| == end || !IsNameBody(q[i + |name|]))
  }

  /** The name that an error reports stands in one of the regions. */
  predicate NamedInCode(q: string, regions: seq<Region>, name: string)
    requires InBounds(regions, |q|)
  {
    exists r :: r in regions && BehindColon(q, r.end, name)
  }

  lemma Behind(q: string, j: nat, i: nat, end: nat)
    requires j + 1 < i <= end <= |q| && q[j] == ':' && (i == end || !IsNameBody(q[i]))
    ensures BehindColon(q, end, q[j + 1..i])
  {
    assert StandsAt(q, j + 1, end, q[j + 1..i]);
  }

  lemma NameStops(s: string)
    ensures NameLen(s) < |s| ==> !IsNameBody(s[NameLen(s)])
  {
  }

  /** The name reported for a bind that starts with a digit, `$` or `#`. */
  method ScanBadName(query: string, start: nat, end: nat) returns (name: string)
    requires 0 < start < end <= |query| && IsBadStart(query[start]) && query[start - 1] == ':'
    ensures !IsUserName(name) && BehindColon(query, end, name)
  {
    hide BehindColon;
    var i := start + 1;
    while i < end && (IsNameBody(query[i]) || query[i] == '-')
      invariant start < i <= end
    {
      i := i + 1;
    }
    name := query[start..i];
    assert name[0] == query[start];
    Behind(query, start - 1, i, end);
  }

  function EnsureBuilder(e: Emit, query: string): Emit
    requires e.last <= |query|
  {
    if e.changed then e else Emit(query[..e.last], true, e.last)
  }

  /** Writes the driver name in place of the name at [nameStart, nameEnd). */
  method EmitName(query: string, e: Emit, nameStart: nat, nameEnd: nat, driver: string) returns (r: Emit)
    requires 0 < nameStart <= nameEnd <= |query| && query[nameStart - 1] == ':' && EmitOk(e, nameStart - 1)
    ensures EmitOk(r, nameEnd)
    ensures Pending(query, r, nameEnd) == Pending(query, e, nameStart - 1) + ":" + driver
  {
    r := EnsureBuilder(e, query);
    r := Emit(r.text + query[r.last..nameStart] + driver, true, nameEnd);
    assert query[e.last..nameStart] == query[e.last..nameStart - 1] + ":";
  }

  lemma PendingGrows(q: string, e: Emit, i: nat, k: nat)
    requires EmitOk(e, i) && i <= k <= |q|
    ensures EmitOk(e, k) && Pending(q, e, k) == Pending(q, e, i) + q[i..k]
  {
    assert q[e.last..k] == q[e.last..i] + q[i..k];
  }

  predicate AtMarker(markers: seq<Marker>, next: nat, i: nat) {
    next < |markers| && markers[next].start == i
  }

  /** What is left of the run at i: a marker that begins here is already consumed. */
  ghost function Todo(q: string, i: nat, end: nat, markers: seq<Marker>, next: nat): string
    requires i <= end <= |q|
  {
    if AtMarker(markers, next, i) && i <= markers[next].end <= end then q[markers[next].end..end] else q[i..end]
  }

  /** The markers still to come, from i onwards. */
  ghost predicate MarkersLeft(q: string, i: nat, end: nat, markers: seq<Marker>, next: nat, later: seq<Marker>)
    requires i <= end <= |q|
  {
    && next <= |markers|
    && if AtMarker(markers, next, i) then
        var m := markers[next].end;
        i < m <= end && markers[next + 1..] == MarkersOf(Tokens(q[m..end]), m) + later
      else markers[next..] == MarkersOf(Tokens(q[i..end]), i) + later
  }

  lemma FreshPosition(q: string, i: nat, end: nat, markers: seq<Marker>, next: nat, later: seq<Marker>)
    requires i <= end <= |q| && next <= |markers|
    requires markers[next..] == MarkersOf(Tokens(q[i..end]), i) + later
    requires forall m :: m in later ==> end < m.start
    ensures MarkersLeft(q, i, end, markers, next, later) && Todo(q, i, end, markers, next) == q[i..end]
  {
    hide Tokens, MarkersOf;
    MarkerBounds(q[i..end], i);
    if next < |markers| {
      assert markers[next] == markers[next..][0];
    }
  }

  lemma MarkHere(q: string, i: nat, m: nat, end: nat, name: string, markers: seq<Marker>, next: nat, later: seq<Marker>)
    requires i < m <= end <= |q| && next <= |markers|
    requires markers[next..] == [Marker(name, i, m)] + MarkersOf(Tokens(q[m..end]), m) + later
    ensures MarkersLeft(q, i, end, markers, next, later) && Todo(q, i, end, markers, next) == q[m..end]
  {
    hide Tokens, MarkersOf;
    assert markers[next] == markers[next..][0];
    assert markers[next + 1..] == markers[next..][1..];
  }

  /** From i on: a marker that ends at m, unless m is i, and then the rest of the run. */
  lemma Placed(q: string, i: nat, m: nat, end: nat, name: string, markers: seq<Marker>, next: nat, later: seq<Marker>)
    requires i <= m <= end <= |q| && next <= |markers|
    requires markers[next..] ==
             (if i < m then [Marker(name, i, m)] else []) + MarkersOf(Tokens(q[m..end]), m) + later
    requires forall m :: m in later ==> end < m.start
    ensures MarkersLeft(q, i, end, markers, next, later) && Todo(q, i, end, markers, next) == q[m..end]
  {
    hide *;
    if i < m {
      MarkHere(q, i, m, end, name, markers, next, later);
    } else {
      assert markers[next..] == MarkersOf(Tokens(q[m..end]), m) + later;
      FreshPosition(q, i, end, markers, next, later);
    }
  }

  /** Registers the bind at byte j and writes its driver name. */
  method TransformBind(query: string, j: nat, end: nat, e: Emit, mapping: RewriteMap)
    returns (name: string, nameEnd: nat, r: Result<Emit, string>)
    requires j < end <= |query| && BindAt(query[j..end]) && EmitOk(e, j) && mapping.Valid()
    modifies mapping
    ensures mapping.Valid() && mapping.sortedDriverNames == old(mapping.sortedDriverNames)
    ensures nameEnd == j + BindEnd(query[j..end]) && name == query[j + 1..nameEnd]
    ensures r.Ok? ==> Add(old(mapping.Table()), name, mapping.unsafe) == Ok(mapping.Table())
    ensures r.Err? ==> Add(old(mapping.Table()), name, mapping.unsafe).Err? && r.error == name
    ensures BehindColon(query, end, name)
    ensures r.Ok? ==>
              EmitOk(r.value, nameEnd) &&
              Pending(query, r.value, nameEnd) == Pending(query, e, j) + ":" + Encode(name)
  {
    hide Add, Consistent, IsNameStart, IsNameBody, ValidUser, Encode, NameLen, NeedsEncoding,
         CollisionFree, BindAt, Pending, BehindColon;
    BindHead(query, j, end);
    nameEnd := ScanName(query, j + 1, end);
    name := query[j + 1..nameEnd];
    NameStops(query[j + 1..end]);
    Behind(query, j, nameEnd, end);
    var added := mapping.AddName(name);
    if added.Err? {
      return name, nameEnd, Err(added.error);
    }
    var (driver, rewritten) := added.value;
    if rewritten {
      var e' := EmitName(query, e, j + 1, nameEnd, driver);
      r := Ok(e');
    } else {
      EncodeUnchanged(name);
      PendingGrows(query, e, j, nameEnd);
      ColonFirst(query, j, end, nameEnd);
      r := Ok(e);
    }
  }

  /** A bind at byte j has a colon, then the name's first byte. */
  lemma BindHead(query: string, j: nat, end: nat)
    requires j < end <= |query| && BindAt(query[j..end])
    ensures j + 1 < end && query[j] == ':' && IsNameBody(query[j + 1])
    ensures BindEnd(query[j..end]) == 1 + NameLen(query[j + 1..end])
  {
    hide IsNameBody, IsNameStart;
    var s := query[j..end];
    assert s[0] == query[j] && s[1] == query[j + 1] && s[1..] == query[j + 1..end];
    StartIsBody(query[j + 1]);
  }

  lemma ColonFirst(query: string, j: nat, end: nat, nameEnd: nat)
    requires j < nameEnd <= end <= |query| && BindAt(query[j..end])
    ensures query[j..nameEnd] == ":" + query[j + 1..nameEnd]
  {
    assert query[j..end][0] == query[j];
  }

  lemma StartIsBody(c: char)
    requires IsNameStart(c)
    ensures IsNameBody(c)
  {
  }

  /** Drops the marker that begins at i. */
  method EmitMarker(query: string, e: Emit, i: nat, markerEnd: nat) returns (r: Emit)
    requires i <= markerEnd <= |query| && EmitOk(e, i)
    ensures EmitOk(r, markerEnd) && Pending(query, r, markerEnd) == Pending(query, e, i)
  {
    r := EnsureBuilder(e, query);
    r := Emit(r.text + query[r.last..i], true, markerEnd);
  }

  lemma ConsumeMarker(q: string, i: nat, end: nat, markers: seq<Marker>, next: nat, later: seq<Marker>)
    requires i <= end <= |q| && MarkersLeft(q, i, end, markers, next, later) && AtMarker(markers, next, i)
    requires forall m :: m in later ==> end < m.start
    ensures var m := markers[next].end;
            && i < m <= end
            && MarkersLeft(q, m, end, markers, next + 1, later)
            && Todo(q, i, end, markers, next) == q[m..end] == Todo(q, m, end, markers, next + 1)
  {
    hide Tokens, MarkersOf;
    FreshPosition(q, markers[next].end, end, markers, next + 1, later);
  }

  lemma NotAtMarker(q: string, i: nat, end: nat, markers: seq<Marker>, next: nat, later: seq<Marker>)
    requires i <= end <= |q| && MarkersLeft(q, i, end, markers, next, later) && !AtMarker(markers, next, i)
    ensures Todo(q, i, end, markers, next) == q[i..end]
    ensures next <= |markers| && markers[next..] == MarkersOf(Tokens(q[i..end]), i) + later
  {
    hide Tokens, MarkersOf;
  }

  /** Bytes that begin neither a bind nor a rejected bind are copied. */
  lemma PlainCopied(q: string, i: nat, j: nat, end: nat, e: Emit)
    requires i <= j <= end <= |q| && EmitOk(e, i)
    requires forall k :: i <= k < j ==> q[k] != ':'
    ensures EmitOk(e, j)
    ensures Pending(q, e, i) + RewriteRun(q[i..end]) == Pending(q, e, j) + RewriteRun(q[j..end])
    ensures BindTokens.Names(Tokens(q[i..end])) == BindTokens.Names(Tokens(q[j..end]))
    ensures MarkersOf(Tokens(q[i..end]), i) == MarkersOf(Tokens(q[j..end]), j)
    ensures NoBadStart(q[i..end]) <==> NoBadStart(q[j..end])
  {
    hide Tokens, MarkersOf, RewriteRun, BindTokens.Names, NoBadStart, BindAt, BadBindAt, Pending;
    var s := q[i..end];
    NoColonNoBind(s, j - i);
    PlainSteps(s, j - i, i);
    NoBadStartSkips(s, j - i);
    assert s[j - i..] == q[j..end] && s[..j - i] == q[i..j];
    PendingGrows(q, e, i, j);
    ConcatAssoc(Pending(q, e, i), q[i..j], RewriteRun(q[j..end]));
  }

  lemma NoColonNoBind(s: string, n: nat)
    requires n <= |s|
    requires forall k :: 0 <= k < n ==> s[k] != ':'
    ensures forall k :: 0 <= k < n ==> !BindAt(s[k..])
  {
    forall k | 0 <= k < n ensures !BindAt(s[k..]) {
      assert s[k..][0] == s[k];
    }
  }

  lemma ColonCopied(q: string, j: nat, end: nat, e: Emit)
    requires j < end <= |q| && EmitOk(e, j) && !BindAt(q[j..end]) && !BadBindAt(q[j..end])
    ensures EmitOk(e, j + 1)
    ensures Pending(q, e, j) + RewriteRun(q[j..end]) == Pending(q, e, j + 1) + RewriteRun(q[j + 1..end])
    ensures BindTokens.Names(Tokens(q[j..end])) == BindTokens.Names(Tokens(q[j + 1..end]))
    ensures MarkersOf(Tokens(q[j..end]), j) == MarkersOf(Tokens(q[j + 1..end]), j + 1)
    ensures NoBadStart(q[j..end]) <==> NoBadStart(q[j + 1..end])
  {
    hide Tokens, MarkersOf, RewriteRun, BindTokens.Names, NoBadStart;
    var s := q[j..end];
    assert s[0..] == s;
    PlainSteps(s, 1, j);
    NoBadStartSkips(s, 1);
    assert s[1..] == q[j + 1..end] && s[..1] == q[j..j + 1];
    PendingGrows(q, e, j, j + 1);
  }

  lemma BindFound(s: string)
    requires |s| > 1 && s[0] == ':' && IsNameStart(s[1])
    ensures BindAt(s)
  {
  }

  lemma NeitherFound(s: string)
    requires s != "" && (|s| > 1 ==> !IsNameStart(s[1]) && !IsBadStart(s[1]))
    ensures !BindAt(s) && !BadBindAt(s)
  {
  }

  lemma BindConsumed(s: string, before: NameTable, unsafe: set<string>)
    requires BindAt(s)
    ensures var name := s[1..BindEnd(s)]; var rest := s[Width(s)..];
            && RewriteRun(s) == ":" + Encode(name) + RewriteRun(rest)
            && AddAll(before, BindTokens.Names(Tokens(s)), unsafe) ==
               (var r := Add(before, name, unsafe);
                if r.Err? then r else AddAll(r.value, BindTokens.Names(Tokens(rest)), unsafe))
            && ToSet(BindTokens.Names(Tokens(s))) == {name} + ToSet(BindTokens.Names(Tokens(rest)))
            && (NoBadStart(s) <==> NoBadStart(rest))
  {
    hide Tokens, MarkersOf, RewriteRun, BindTokens.Names, NoBadStart, MarkLen, BindEnd, Width, Add;
    TokenStep(s, 0);
    BindIsNotBad(s);
    BindText(s);
    var name := s[1..BindEnd(s)];
    var names := BindTokens.Names(Tokens(s[Width(s)..]));
    assert ([name] + names)[1..] == names;
  }

  lemma BindText(s: string)
    requires BindAt(s)
    ensures TokenText(ForDriver(First(s))) == ":" + Encode(s[1..BindEnd(s)])
  {
    assert ":" + Encode(s[1..BindEnd(s)]) + "" == ":" + Encode(s[1..BindEnd(s)]);
  }

  lemma AddNothing(m: NameTable, unsafe: set<string>)
    ensures AddAll(m, [], unsafe) == Ok(m) && ToSet([]) == {}
  {
  }

  lemma RunConsumed(q: string, end: nat, markers: seq<Marker>, next: nat, later: seq<Marker>)
    requires end <= |q| && MarkersLeft(q, end, end, markers, next, later)
    ensures next <= |markers| && markers[next..] == later
    ensures var t := Todo(q, end, end, markers, next);
            && RewriteRun(t) == "" && BindTokens.Names(Tokens(t)) == [] && NoBadStart(t)
  {
    assert q[end..end] == "";
  }

  lemma NoMark(ms: seq<Marker>)
    ensures [] + ms == ms
  {
  }

  /** The state of the pass: what is written, the table, and the names met. */
  datatype Progress = Progress(emit: Emit, table: NameTable, refs: set<string>)

  /**
    The pass advances from i to i'. The text of the run behind it goes on at m,
    and a marker stands between i' and m.
   */
  ghost predicate Advances(q: string, end: nat, unsafe: set<string>,
                           a: Progress, i: nat, b: Progress, i': nat, m: nat, name: string)
    requires i <= end <= |q|
  {
    && i < i' <= m <= end && EmitOk(a.emit, i) && EmitOk(b.emit, i')
    && var s, rest := q[i..end], q[m..end];
    && Pending(q, b.emit, i') + RewriteRun(rest) == Pending(q, a.emit, i) + RewriteRun(s)
    && AddAll(a.table, BindTokens.Names(Tokens(s)), unsafe) == AddAll(b.table, BindTokens.Names(Tokens(rest)), unsafe)
    && b.refs + ToSet(BindTokens.Names(Tokens(rest))) == a.refs + ToSet(BindTokens.Names(Tokens(s)))
    && (NoBadStart(s) <==> NoBadStart(rest))
    && MarkersOf(Tokens(s), i) == (if i' < m then [Marker(name, i', m)] else []) + MarkersOf(Tokens(rest), m)
  }

  /** The run cannot be rewritten: it holds a bad start or a name that cannot be added. */
  ghost predicate Rejected(s: string, table: NameTable, unsafe: set<string>) {
    !NoBadStart(s) || AddAll(table, BindTokens.Names(Tokens(s)), unsafe).Err?
  }

  lemma SkipThenAdvance(q: string, end: nat, unsafe: set<string>, a: Progress, i: nat, j: nat)
    requires i <= j <= end <= |q| && EmitOk(a.emit, i)
    requires forall k :: i <= k < j ==> q[k] != ':'
    ensures EmitOk(a.emit, j)
    ensures forall b, i', m, name :: Advances(q, end, unsafe, a, j, b, i', m, name) ==>
                                       Advances(q, end, unsafe, a, i, b, i', m, name)
    ensures Rejected(q[j..end], a.table, unsafe) ==> Rejected(q[i..end], a.table, unsafe)
  {
    hide Tokens, MarkersOf, RewriteRun, BindTokens.Names, NoBadStart, AddAll, Pending, ToSet;
    PlainCopied(q, i, j, end, a.emit);
  }

  lemma SkipToEnd(q: string, end: nat, unsafe: set<string>, a: Progress, i: nat)
    requires i < end <= |q| && EmitOk(a.emit, i)
    requires forall k :: i <= k < end ==> q[k] != ':'
    ensures Advances(q, end, unsafe, a, i, a, end, end, "")
  {
    hide Tokens, MarkersOf, RewriteRun, BindTokens.Names, NoBadStart, AddAll, Pending, ToSet;
    PlainCopied(q, i, end, end, a.emit);
    NoMark(MarkersOf(Tokens(q[end..end]), end));
  }

  lemma AdvanceOverColon(q: string, end: nat, unsafe: set<string>, a: Progress, j: nat)
    requires j < end <= |q| && EmitOk(a.emit, j) && !BindAt(q[j..end]) && !BadBindAt(q[j..end])
    ensures Advances(q, end, unsafe, a, j, a, j + 1, j + 1, "")
  {
    hide Tokens, MarkersOf, RewriteRun, BindTokens.Names, NoBadStart, AddAll, Pending, ToSet, BindAt, BadBindAt;
    ColonCopied(q, j, end, a.emit);
    NoMark(MarkersOf(Tokens(q[j + 1..end]), j + 1));
  }

  lemma AdvanceOverBind(q: string, end: nat, unsafe: set<string>, a: Progress, j: nat, name: string,
                        b: Progress, i': nat)
    requires j < end <= |q| && BindAt(q[j..end]) && EmitOk(a.emit, j)
    requires i' == j + BindEnd(q[j..end]) && name == q[j + 1..i']
    requires Add(a.table, name, unsafe) == Ok(b.table) && b.refs == a.refs + {name} && EmitOk(b.emit, i')
    requires Pending(q, b.emit, i') == Pending(q, a.emit, j) + ":" + Encode(name)
    ensures Advances(q, end, unsafe, a, j, b, i', j + Width(q[j..end]), name)
  {
    hide Tokens, MarkersOf, RewriteRun, BindTokens.Names, NoBadStart, AddAll, Add, Pending, ToSet;
    hide BindAt, BindEnd, Width, MarkLen, Encode, First;
    var s := q[j..end];
    BindConsumed(s, a.table, unsafe);
    SliceOfSlice(q, j, end, 1, i' - j);
    TokenStep(s, j);
    BindWidth(s);
    assert s[Width(s)..] == q[j + Width(s)..end];
    NoMark(MarkersOf(Tokens(s[Width(s)..]), j + Width(s)));
    BindOutput(Pending(q, a.emit, j), Encode(name), RewriteRun(s[Width(s)..]));
  }

  lemma BindOutput(p: string, e: string, rest: string)
    ensures p + ":" + e + rest == p + (":" + e + rest)
  {
  }

  lemma BindRejected(s: string, table: NameTable, unsafe: set<string>, name: string)
    requires BindAt(s) && name == s[1..BindEnd(s)] && Add(table, name, unsafe).Err?
    ensures Rejected(s, table, unsafe)
  {
    hide *;
    BindConsumed(s, table, unsafe);
    RejectedNames(s, table, unsafe);
  }

  lemma RejectedNames(s: string, table: NameTable, unsafe: set<string>)
    requires AddAll(table, BindTokens.Names(Tokens(s)), unsafe).Err?
    ensures Rejected(s, table, unsafe)
  {
  }

  lemma BadStartRejected(s: string, table: NameTable, unsafe: set<string>)
    requires |s| > 1 && s[0] == ':' && IsBadStart(s[1])
    ensures Rejected(s, table, unsafe)
  {
    hide IsBadStart, AddAll;
  }

  /** Copies up to the next colon and handles what it begins. */
  method TransformNext(query: string, i: nat, end: nat, e: Emit, mapping: RewriteMap, refs: set<string>)
    returns (r: Result<Emit, string>, i': nat, refs': set<string>, ghost m: nat, ghost name: string)
    requires i < end <= |query| && EmitOk(e, i) && mapping.Valid()
    modifies mapping
    ensures mapping.Valid() && mapping.sortedDriverNames == old(mapping.sortedDriverNames)
    ensures r.Err? ==> Rejected(query[i..end], old(mapping.Table()), mapping.unsafe) && BehindColon(query, end, r.error)
    ensures r.Ok? ==>
              Advances(query, end, mapping.unsafe, Progress(e, old(mapping.Table()), refs), i,
                       Progress(r.value, mapping.Table(), refs'), i', m, name)
  {
    hide Advances, Rejected, BindAt, BindEnd, Width, BadBindAt, Add, Consistent, IsNameStart, IsBadStart, Pending,
         BehindColon;
    ghost var a := Progress(e, mapping.Table(), refs);
    var j := NextColon(query, i, end);
    if j == end {
      SkipToEnd(query, end, mapping.unsafe, a, i);
      return Ok(e), end, refs, end, "";
    }
    SkipThenAdvance(query, end, mapping.unsafe, a, i, j);
    ghost var s := query[j..end];
    if j + 1 < end && IsNameStart(query[j + 1]) {
      BindFound(s);
      var n, nameEnd, emitted := TransformBind(query, j, end, e, mapping);
      SliceOfSlice(query, j, end, 1, nameEnd - j);
      if emitted.Err? {
        BindRejected(s, a.table, mapping.unsafe, n);
        return emitted, nameEnd, refs + {n}, nameEnd, n;
      }
      AdvanceOverBind(query, end, mapping.unsafe, a, j, n,
                      Progress(emitted.value, mapping.Table(), refs + {n}), nameEnd);
      return emitted, nameEnd, refs + {n}, j + Width(s), n;
    }
    if j + 1 < end && IsBadStart(query[j + 1]) {
      BadStartRejected(s, a.table, mapping.unsafe);
      var bad := ScanBadName(query, j + 1, end);
      return Err(bad), j, refs, j, "";
    }
    NeitherFound(s);
    AdvanceOverColon(query, end, mapping.unsafe, a, j);
    return Ok(e), j + 1, refs, j + 1, "";
  }

  /** Rewrites one region. `later` are the markers of the regions after it. */
  method TransformRegion(query: string, region: Region, markers: seq<Marker>, first: nat, emit: Emit,
                         mapping: RewriteMap, refs: set<string>, ghost later: seq<Marker>)
    returns (r: Result<Emit, string>, next: nat, refs': set<string>)
    requires region.start < region.end <= |query| && first <= |markers| && EmitOk(emit, region.start)
    requires markers[first..] == MarkersOf(Tokens(RegionText(query, region)), region.start) + later
    requires forall m :: m in later ==> region.end < m.start
    requires mapping.Valid()
    modifies mapping
    ensures mapping.Valid() && mapping.sortedDriverNames == old(mapping.sortedDriverNames)
    ensures var x := RegionText(query, region);
            var added := AddAll(old(mapping.Table()), Names(Tokens(x)), mapping.unsafe);
            && (r.Ok? <==> NoBadStart(x) && added.Ok?)
            && (r.Err? ==> BehindColon(query, region.end, r.error))
            && (r.Ok? ==>
                && added == Ok(mapping.Table())
                && refs' == refs + ToSet(Names(Tokens(x)))
                && next <= |markers| && markers[next..] == later
                && EmitOk(r.value, region.end)
                && Pending(query, r.value, region.end) == Pending(query, emit, region.start) + RewriteRun(x))
  {
    hide Tokens, MarkersOf, RewriteRun, BindTokens.Names, MarkLen, BindAt, BindEnd, Width, First;
    hide NoBadStart, BadBindAt, AddAll, Add, Consistent, Todo, MarkersLeft, Pending, IsNameStart, IsBadStart, ToSet;
    hide BehindColon;
    var start, end := region.start, region.end;
    ghost var x := query[start..end];
    ghost var total := AddAll(mapping.Table(), BindTokens.Names(Tokens(x)), mapping.unsafe);
    ghost var output := Pending(query, emit, start) + RewriteRun(x);
    var e := emit;
    next, refs' := first, refs;
    var i := start;
    FreshPosition(query, start, end, markers, next, later);
    ghost var todo := x;
    while i < end
      invariant start <= i <= end && EmitOk(e, i)
      invariant mapping.Valid() && mapping.sortedDriverNames == old(mapping.sortedDriverNames)
      invariant MarkersLeft(query, i, end, markers, next, later)
      invariant todo == Todo(query, i, end, markers, next)
      invariant Pending(query, e, i) + RewriteRun(todo) == output
      invariant total == AddAll(mapping.Table(), BindTokens.Names(Tokens(todo)), mapping.unsafe)
      invariant refs' + ToSet(BindTokens.Names(Tokens(todo))) == refs + ToSet(BindTokens.Names(Tokens(x)))
      invariant NoBadStart(x) <==> NoBadStart(todo)
    {
      if next < |markers| && markers[next].start == i {
        ConsumeMarker(query, i, end, markers, next, later);
        e := EmitMarker(query, e, i, markers[next].end);
        i := markers[next].end;
        next := next + 1;
        continue;
      }
      NotAtMarker(query, i, end, markers, next, later);
      ghost var m, name;
      var emitted;
      emitted, i, refs', m, name := TransformNext(query, i, end, e, mapping, refs');
      if emitted.Err? {
        return Err(emitted.error), next, refs';
      }
      e := emitted.value;
      Placed(query, i, m, end, name, markers, next, later);
      todo := query[m..end];
    }
    RunConsumed(query, end, markers, next, later);
    AddNothing(mapping.Table(), mapping.unsafe);
    r := Ok(e);
  }

  predicate AllGoodStarts(q: string, regions: seq<Region>)
    requires InBounds(regions, |q|)
  {
    regions == [] || (NoBadStart(RegionText(q, regions[0])) && AllGoodStarts(q, regions[1..]))
  }

  lemma {:induction false} LaterEnds(q: string, regions: seq<Region>)
    requires InBounds(regions, |q|)
    ensures forall m :: m in TokenMarkers(q, regions) ==> m.start < m.end
  {
    hide Tokens, MarkersOf;
    if regions != [] {
      MarkerBounds(RegionText(q, regions[0]), regions[0].start);
      LaterEnds(q, regions[1..]);
    }
  }

  lemma {:induction false} LaterMarkers(q: string, regions: seq<Region>, from: nat)
    requires Ordered(regions, from, |q|) && InBounds(regions, |q|)
    ensures forall m :: m in TokenMarkers(q, regions) ==> from < m.start
  {
    hide Tokens, MarkersOf;
    if regions != [] {
      MarkerBounds(RegionText(q, regions[0]), regions[0].start);
      LaterMarkers(q, regions[1..], regions[0].end);
    }
  }

  /** The text, the names and the starts of a region list, split at its first region. */
  lemma FirstRegion(q: string, regions: seq<Region>, at: nat, table: NameTable, unsafe: set<string>)
    requires regions != [] && Ordered(regions, at, |q|) && InBounds(regions, |q|)
    ensures var r, rest := regions[0], regions[1..]; var x := RegionText(q, r);
            && Rewritten(q, regions, at) == q[at..r.start] + RewriteRun(x) + Rewritten(q, rest, r.end)
            && AddAll(table, AllNames(q, regions), unsafe) ==
               (var h := AddAll(table, BindTokens.Names(Tokens(x)), unsafe);
                if h.Err? then h else AddAll(h.value, AllNames(q, rest), unsafe))
            && ToSet(AllNames(q, regions)) == ToSet(BindTokens.Names(Tokens(x))) + ToSet(AllNames(q, rest))
            && (AllGoodStarts(q, regions) <==> NoBadStart(x) && AllGoodStarts(q, rest))
            && TokenMarkers(q, regions) == MarkersOf(Tokens(x), r.start) + TokenMarkers(q, rest)
  {
    hide Tokens, MarkersOf, RewriteRun, BindTokens.Names, NoBadStart, AddAll;
    var here := BindTokens.Names(Tokens(RegionText(q, regions[0])));
    AddAllAppend(table, here, AllNames(q, regions[1..]), unsafe);
  }

  /** Passes over markers that end before the region. */
  method SkipEarlier(markers: seq<Marker>, first: nat, start: nat) returns (next: nat)
    requires first <= |markers|
    ensures first <= next <= |markers|
    ensures forall j :: first <= j < next ==> markers[j].end <= start
    ensures next < |markers| ==> start < markers[next].end
    ensures next == first || markers[first].end <= start
  {
    next := first;
    while next < |markers| && markers[next].end <= start
      invariant first <= next <= |markers|
      invariant forall j :: first <= j < next ==> markers[j].end <= start
      invariant next == first || markers[first].end <= start
    {
      next := next + 1;
    }
  }

  lemma NothingLeft(q: string, at: nat, table: NameTable, unsafe: set<string>)
    requires at <= |q|
    ensures Rewritten(q, [], at) == q[at..] && AllNames(q, []) == [] && AllGoodStarts(q, [])
    ensures AddAll(table, [], unsafe) == Ok(table) && ToSet([]) == {}
  {
  }

  /** The markers still to come lie in or after the region at hand. */
  lemma NoneBefore(q: string, regions: seq<Region>, at: nat, markers: seq<Marker>, next: nat)
    requires regions != [] && Ordered(regions, at, |q|) && InBounds(regions, |q|)
    requires next <= |markers| && markers[next..] == TokenMarkers(q, regions)
    ensures forall m :: m in TokenMarkers(q, regions[1..]) ==> regions[0].end < m.start
    ensures next < |markers| ==> regions[0].start < markers[next].end
  {
    hide Tokens, MarkersOf, TokenMarkers;
    LaterMarkers(q, regions[1..], regions[0].end);
    MarkerBounds(RegionText(q, regions[0]), regions[0].start);
    LaterEnds(q, regions[1..]);
    SplitMarkers(q, regions);
    if next < |markers| {
      assert markers[next] == markers[next..][0];
      assert markers[next] in TokenMarkers(q, regions);
    }
  }

  lemma SplitMarkers(q: string, regions: seq<Region>)
    requires InBounds(regions, |q|) && regions != []
    ensures TokenMarkers(q, regions) ==
            MarkersOf(Tokens(RegionText(q, regions[0])), regions[0].start) + TokenMarkers(q, regions[1..])
  {
    hide Tokens, MarkersOf;
  }

  /** The rewrite up to byte `at`, with the regions `rest` still to come. */
  ghost predicate Midway(q: string, regions: seq<Region>, rest: seq<Region>, e: Emit, at: nat, refs: set<string>,
                         table: NameTable, total: Result<NameTable, string>, unsafe: set<string>)
    requires Ordered(regions, 0, |q|) && InBounds(regions, |q|)
  {
    && at <= |q| && EmitOk(e, at) && Ordered(rest, at, |q|) && InBounds(rest, |q|)
    && Pending(q, e, at) + Rewritten(q, rest, at) == Rewritten(q, regions, 0)
    && total == AddAll(table, AllNames(q, rest), unsafe)
    && refs + ToSet(AllNames(q, rest)) == ToSet(AllNames(q, regions))
    && (AllGoodStarts(q, regions) <==> AllGoodStarts(q, rest))
  }

  lemma MidwayStarts(q: string, regions: seq<Region>, table: NameTable, unsafe: set<string>)
    requires Ordered(regions, 0, |q|) && InBounds(regions, |q|)
    ensures Midway(q, regions, regions, Emit("", false, 0), 0, {}, table,
                   AddAll(table, AllNames(q, regions), unsafe), unsafe)
  {
    hide Ordered, InBounds, Rewritten, AllNames, AddAll, AllGoodStarts, ToSet;
    assert q[0..0] == "" && "" + "" + Rewritten(q, regions, 0) == Rewritten(q, regions, 0);
  }

  lemma MidwayHas(q: string, regions: seq<Region>, rest: seq<Region>, e: Emit, at: nat, refs: set<string>,
                  table: NameTable, total: Result<NameTable, string>, unsafe: set<string>)
    requires Ordered(regions, 0, |q|) && InBounds(regions, |q|)
    requires Midway(q, regions, rest, e, at, refs, table, total, unsafe)
    ensures Ordered(rest, at, |q|) && InBounds(rest, |q|) && EmitOk(e, at) && at <= |q|
    ensures rest != [] ==> at <= rest[0].start < rest[0].end <= |q| && EmitOk(e, rest[0].start)
  {
    hide Rewritten, AllNames, AddAll, AllGoodStarts, ToSet, Pending;
  }

  /** One region is done, or stops the rewrite. */
  lemma MidwayStep(q: string, regions: seq<Region>, rest: seq<Region>, e: Emit, at: nat, refs: set<string>,
                   table: NameTable, total: Result<NameTable, string>, unsafe: set<string>,
                   e': Emit, table': NameTable)
    requires Ordered(regions, 0, |q|) && InBounds(regions, |q|) && rest != []
    requires Midway(q, regions, rest, e, at, refs, table, total, unsafe)
    ensures at <= rest[0].start < rest[0].end <= |q| && EmitOk(e, rest[0].start)
    ensures var x := RegionText(q, rest[0]); var names := BindTokens.Names(Tokens(x));
            var added := AddAll(table, names, unsafe);
            && (!(NoBadStart(x) && added.Ok?) ==> !(AllGoodStarts(q, regions) && total.Ok?))
            && (NoBadStart(x) && added == Ok(table') && EmitOk(e', rest[0].end) &&
                Pending(q, e', rest[0].end) == Pending(q, e, rest[0].start) + RewriteRun(x) ==>
                Midway(q, regions, rest[1..], e', rest[0].end, refs + ToSet(names), table', total, unsafe))
  {
    hide *;
    MidwayHas(q, regions, rest, e, at, refs, table, total, unsafe);
    RestOrdered(q, rest, at);
    FirstRegion(q, rest, at, table, unsafe);
    EmitFits(e, at);
    EmitFits(e', rest[0].end);
    PendingGrows(q, e, at, rest[0].start);
    MidwayIs(q, regions, rest, e, at, refs, table, total, unsafe);
    var x := RegionText(q, rest[0]);
    var names := BindTokens.Names(Tokens(x));
    if NoBadStart(x) && AddAll(table, names, unsafe) == Ok(table') && EmitOk(e', rest[0].end) &&
       Pending(q, e', rest[0].end) == Pending(q, e, rest[0].start) + RewriteRun(x) {
      TextMoves(Pending(q, e, at), q[at..rest[0].start], RewriteRun(x), Rewritten(q, rest[1..], rest[0].end));
      MidwayIs(q, regions, rest[1..], e', rest[0].end, refs + ToSet(names), table', total, unsafe);
    }
  }

  lemma EmitFits(e: Emit, at: nat)
    ensures EmitOk(e, at) ==> e.last <= at
  {
  }

  lemma TextMoves(a: string, b: string, c: string, d: string)
    ensures a + (b + c + d) == (a + b) + c + d
  {
  }

  lemma RestOrdered(q: string, rest: seq<Region>, at: nat)
    requires rest != [] && Ordered(rest, at, |q|) && InBounds(rest, |q|)
    ensures at <= rest[0].start < rest[0].end <= |q|
    ensures Ordered(rest[1..], rest[0].end, |q|) && InBounds(rest[1..], |q|)
  {
  }

  lemma MidwayIs(q: string, regions: seq<Region>, rest: seq<Region>, e: Emit, at: nat, refs: set<string>,
                 table: NameTable, total: Result<NameTable, string>, unsafe: set<string>)
    requires Ordered(regions, 0, |q|) && InBounds(regions, |q|)
    requires at <= |q| && EmitOk(e, at) && e.last <= at && Ordered(rest, at, |q|) && InBounds(rest, |q|)
    ensures Midway(q, regions, rest, e, at, refs, table, total, unsafe) <==>
            && Pending(q, e, at) + Rewritten(q, rest, at) == Rewritten(q, regions, 0)
            && total == AddAll(table, AllNames(q, rest), unsafe)
            && refs + ToSet(AllNames(q, rest)) == ToSet(AllNames(q, regions))
            && (AllGoodStarts(q, regions) <==> AllGoodStarts(q, rest))
  {
    hide Ordered, InBounds, Rewritten, AllNames, AddAll, AllGoodStarts, ToSet, Pending, EmitOk;
  }

  lemma MidwayEnds(q: string, regions: seq<Region>, e: Emit, at: nat, refs: set<string>,
                   table: NameTable, total: Result<NameTable, string>, unsafe: set<string>)
    requires Ordered(regions, 0, |q|) && InBounds(regions, |q|)
    requires Midway(q, regions, [], e, at, refs, table, total, unsafe)
    ensures e.last <= |q| && e.text + q[e.last..] == Rewritten(q, regions, 0)
    ensures !e.changed ==> Rewritten(q, regions, 0) == q
    ensures total == Ok(table) && AllGoodStarts(q, regions) && refs == ToSet(AllNames(q, regions))
  {
    hide Ordered, InBounds, AddAll, ToSet, Rewritten, AllNames, AllGoodStarts;
    NothingLeft(q, at, table, unsafe);
    PendingGrows(q, e, at, |q|);
    assert q[e.last..|q|] == q[e.last..] && q[0..] == q && "" + q == q;
  }

  lemma Named(q: string, regions: seq<Region>, k: nat, name: string)
    requires InBounds(regions, |q|) && k < |regions|
    ensures regions[k].end <= |q|
    ensures BehindColon(q, regions[k].end, name) ==> NamedInCode(q, regions, name)
  {
    hide BehindColon;
    assert regions[k] in regions;
  }

  /**
    Rewrites the query and registers its binds. It fails exactly when a colon is
    followed by a digit, `$` or `#`, or when a name cannot be registered.
   */
  method TransformBinds(query: string, regions: seq<Region>, markers: seq<Marker>, mapping: RewriteMap)
    returns (r: Result<string, string>, refs: set<string>)
    requires Ordered(regions, 0, |query|) && InBounds(regions, |query|)
    requires markers == TokenMarkers(query, regions)
    requires mapping.Valid()
    modifies mapping
    ensures mapping.Valid() && mapping.sortedDriverNames == old(mapping.sortedDriverNames)
    ensures var added := AddAll(old(mapping.Table()), AllNames(query, regions), mapping.unsafe);
            && (r.Ok? <==> AllGoodStarts(query, regions) && added.Ok?)
            && (r.Err? ==> NamedInCode(query, regions, r.error))
            && (r.Ok? ==>
                && added == Ok(mapping.Table())
                && refs == ToSet(AllNames(query, regions))
                && r.value == Rewritten(query, regions, 0))
  {
    hide *;
    ghost var total := AddAll(mapping.Table(), AllNames(query, regions), mapping.unsafe);
    var e := Emit("", false, 0);
    refs := {};
    var next: nat := 0;
    ghost var at: nat := 0;
    MidwayStarts(query, regions, mapping.Table(), mapping.unsafe);
    for k := 0 to |regions|
      invariant next <= |markers| && mapping.Valid() && mapping.sortedDriverNames == old(mapping.sortedDriverNames)
      invariant Midway(query, regions, regions[k..], e, at, refs, mapping.Table(), total, mapping.unsafe)
      invariant InBounds(regions[k..], |query|) && markers[next..] == TokenMarkers(query, regions[k..])
    {
      var region := regions[k];
      ghost var rest := regions[k..];
      assert rest[0] == region && rest[1..] == regions[k + 1..];
      ghost var was, e0, refs0, at0 := mapping.Table(), e, refs, at;
      MidwayHas(query, regions, rest, e, at, refs, was, total, mapping.unsafe);
      RestOrdered(query, rest, at);
      NoneBefore(query, rest, at, markers, next);
      SplitMarkers(query, rest);
      next := SkipEarlier(markers, next, region.start);
      var emitted;
      emitted, next, refs :=
        TransformRegion(query, region, markers, next, e, mapping, refs, TokenMarkers(query, rest[1..]));
      MidwayStep(query, regions, rest, e0, at0, refs0, was, total, mapping.unsafe,
                 if emitted.Ok? then emitted.value else e0, mapping.Table());
      if emitted.Err? {
        Named(query, regions, k, emitted.error);
        return Err(emitted.error), refs;
      }
      e := emitted.value;
      at := region.end;
    }
    assert regions[|regions|..] == [];
    MidwayEnds(query, regions, e, at, refs, mapping.Table(), total, mapping.unsafe);
    if !e.changed {
      return Ok(query), refs;
    }
    return Ok(e.text + query[e.last..]), refs;
  }
}
