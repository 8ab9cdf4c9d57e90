/**
  The lexer that separates the code of an Oracle statement from its literals,
  quoted identifiers and comments.

  The functions describe a suffix of the query, because the scanner only ever
  looks ahead. The methods are the index loops, proved against the functions.
 */
module SqlLexer {
  import opened Text

  datatype QuoteError = Unterminated | BadDelimiter | InnerQuote

  /** What begins at a position: a code byte, a skipped stretch, or an error. */
  datatype Step = Code | Opaque(len: nat) | Broken(error: QuoteError)

  datatype Region = Region(start: nat, end: nat)

  /** Bytes up to and including the closing quote; a doubled quote is content. */
  function QuoteTail(s: string, quote: char): (n: nat)
    ensures n <= |s|
  {
    if s == "" then 0
    else if s[0] == quote then
      if |s| > 1 && s[1] == quote then 2 + QuoteTail(s[2..], quote) else 1
    else 1 + QuoteTail(s[1..], quote)
  }

  function LineTail(s: string): (n: nat)
    ensures n <= |s|
  {
    if s == "" || s[0] == '\n' then 0 else 1 + LineTail(s[1..])
  }

  function BlockTail(s: string): (n: nat)
    ensures n <= |s|
  {
    if |s| < 2 then |s| else if s[0] == '*' && s[1] == '/' then 2 else 1 + BlockTail(s[1..])
  }

  function QTail(s: string, closer: char): (r: Result<nat, QuoteError>)
    ensures r.Ok? ==> 2 <= r.value <= |s|
  {
    if |s| < 2 then Err(Unterminated)
    else if s[0] == closer && s[1] == '\'' then Ok(2)
    else if s[0] == '\'' then Err(InnerQuote)
    else
      var r := QTail(s[1..], closer);
      if r.Ok? then Ok(1 + r.value) else r
  }

  function Closer(opener: char): char {
    if opener == '(' then ')' else if opener == '{' then '}' else if opener == '[' then ']'
    else if opener == '<' then '>' else opener
  }

  predicate QQuoteAt(s: string) {
    |s| > 1 && (s[0] == 'q' || s[0] == 'Q') && s[1] == '\''
  }

  function QQuote(s: string): (r: Step)
    requires QQuoteAt(s)
    ensures r.Opaque? ==> 5 <= r.len <= |s|
    ensures !r.Code?
  {
    if |s| < 3 then Broken(Unterminated)
    else if s[2] as int >= 0x80 || s[2] == '\'' || IsSpace(s[2]) then Broken(BadDelimiter)
    else match QTail(s[3..], Closer(s[2])) {
      case Ok(n) => Opaque(3 + n)
      case Err(e) => Broken(e)
    }
  }

  /** Length of a comment opening, white space and the cursor word at the head of s; 0 when absent. */
  function CursorOpening(s: string): (n: nat)
    ensures n <= |s|
    ensures n > 0 ==> n >= 8 && s[0] == '/' && s[1] == '*'
  {
    if |s| < 2 || s[0] != '/' || s[1] != '*' then 0
    else
      var a := 2 + SpaceLen(s[2..]);
      if a + 6 > |s| || Upper(s[a..a + 6]) != "CURSOR" then 0 else a + 6
  }

  /** Length of the cursor comment at the head of s; 0 when there is none. */
  function CursorLen(s: string): (n: nat)
    ensures n <= |s|
    ensures n > 0 ==> n >= 10 && s[0] == '/' && s[1] == '*' && s[n - 2] == '*' && s[n - 1] == '/'
  {
    var a := CursorOpening(s);
    if a == 0 then 0
    else
      var b := a + SpaceLen(s[a..]);
      if b + 2 > |s| || s[b] != '*' || s[b + 1] != '/' then 0 else b + 2
  }

  /** The parts of a cursor comment of length n whose word stands at p. */
  predicate CursorParts(s: string, p: nat, n: nat) {
    && 2 <= p && p + 8 <= n <= |s| && s[0] == '/' && s[1] == '*'
    && p == 2 + SpaceLen(s[2..]) && Upper(s[p..p + 6]) == "CURSOR"
    && n == p + 8 + SpaceLen(s[p + 6..]) && s[n - 2] == '*' && s[n - 1] == '/'
  }

  lemma CursorHasParts(s: string) returns (p: nat)
    requires CursorLen(s) > 0
    ensures CursorParts(s, p, CursorLen(s))
  {
    hide IsSpace, UpperByte, SpaceLen, Upper;
    p := 2 + SpaceLen(s[2..]);
  }

  lemma PartsAreCursor(s: string, p: nat, n: nat)
    requires CursorParts(s, p, n)
    ensures CursorLen(s) == n
  {
    hide IsSpace, UpperByte, SpaceLen, Upper;
  }

  const MARK := "/*CURSOR*/"

  lemma MarkLexes(rest: string)
    ensures CursorLen(MARK + rest) == |MARK|
  {
    var s := MARK + rest;
    assert s[2] == 'C' && s[8] == '*' && s[9] == '/';
    assert s[2..8] == "CURSOR" && s[2..][0] == 'C' && s[8..][0] == '*';
    assert Upper("CURSOR") == "CURSOR";
    assert CursorParts(s, 2, 10);
    PartsAreCursor(s, 2, 10);
  }

  function Head(s: string): (r: Step)
    requires s != ""
    ensures r.Opaque? ==> 0 < r.len <= |s|
  {
    if s[0] == '\'' || s[0] == '"' then Opaque(1 + QuoteTail(s[1..], s[0]))
    else if s[0] == '-' && |s| > 1 && s[1] == '-' then Opaque(2 + LineTail(s[2..]))
    else if s[0] == '/' && |s| > 1 && s[1] == '*' then
      if CursorLen(s) > 0 then Code else Opaque(2 + BlockTail(s[2..]))
    else if QQuoteAt(s) then QQuote(s)
    else Code
  }

  /** Length of the leading code run. */
  function CodeLen(s: string): (n: nat)
    ensures n <= |s|
  {
    if s == "" || !Head(s).Code? then 0 else 1 + CodeLen(s[1..])
  }

  /** The maximal code runs of q from the boundary `at` onwards. */
  function RegionsFrom(q: string, at: nat): Result<seq<Region>, QuoteError>
    requires at <= |q|
    decreases |q| - at
  {
    if at == |q| then Ok([])
    else
      var n := CodeLen(q[at..]);
      if n > 0 then Prepend(Region(at, at + n), RegionsFrom(q, at + n))
      else match Head(q[at..]) {
        case Opaque(k) => RegionsFrom(q, at + k)
        case Broken(e) => Err(e)
        case Code => assert false; Ok([])
      }
  }

  function Prepend(r: Region, rest: Result<seq<Region>, QuoteError>): Result<seq<Region>, QuoteError> {
    if rest.Ok? then Ok([r] + rest.value) else rest
  }

  /** Regions are non-empty, in order and apart from each other. */
  predicate Ordered(regions: seq<Region>, from: nat, to: nat) {
    if regions == [] then from <= to
    else from <= regions[0].start < regions[0].end <= to && Ordered(regions[1..], regions[0].end, to)
  }

  lemma {:induction false} RegionsOrdered(q: string, at: nat)
    requires at <= |q| && RegionsFrom(q, at).Ok?
    ensures Ordered(RegionsFrom(q, at).value, at, |q|)
    decreases |q| - at
  {
    hide Head, CodeLen;
    if at < |q| {
      var n := CodeLen(q[at..]);
      if n > 0 {
        RegionsOrdered(q, at + n);
      } else {
        AtBoundary(q, at);
        NoCode(q[at..]);
        var k := Head(q[at..]).len;
        RegionsOrdered(q, at + k);
        OrderedWeaken(RegionsFrom(q, at).value, at + k, at, |q|);
      }
    }
  }

  lemma NoCode(s: string)
    requires s != "" && CodeLen(s) == 0
    ensures !Head(s).Code?
  {
    hide Head;
  }

  lemma OrderedWeaken(regions: seq<Region>, from: nat, lower: nat, to: nat)
    requires Ordered(regions, from, to) && lower <= from
    ensures Ordered(regions, lower, to)
    ensures from <= to
    decreases regions
  {
    if regions != [] {
      OrderedWeaken(regions[1..], regions[0].end, regions[0].end, to);
    }
  }

  // ----- How skipped text ends -----

  lemma {:induction false} QuoteTailEnds(s: string, quote: char)
    ensures QuoteTail(s, quote) < |s| ==> QuoteTail(s, quote) > 0 && s[QuoteTail(s, quote) - 1] == quote
  {
    if s != "" {
      if s[0] != quote {
        QuoteTailEnds(s[1..], quote);
      } else if |s| > 1 && s[1] == quote {
        QuoteTailEnds(s[2..], quote);
      }
    }
  }

  lemma {:induction false} LineTailEnds(s: string)
    ensures LineTail(s) < |s| ==> s[LineTail(s)] == '\n'
  {
    if s != "" && s[0] != '\n' {
      LineTailEnds(s[1..]);
    }
  }

  lemma {:induction false} BlockTailEnds(s: string)
    ensures BlockTail(s) < |s| ==> BlockTail(s) > 0 && s[BlockTail(s) - 1] == '/'
  {
    if |s| >= 2 && !(s[0] == '*' && s[1] == '/') {
      BlockTailEnds(s[1..]);
    }
  }

  lemma {:induction false} QTailEnds(s: string, closer: char)
    ensures QTail(s, closer).Ok? ==> s[QTail(s, closer).value - 1] == '\''
  {
    if |s| >= 2 && s[0] != '\'' && !(s[0] == closer && s[1] == '\'') {
      QTailEnds(s[1..], closer);
    }
  }

  // ----- The index loops -----

  method SkipQuoted(query: string, start: nat) returns (end: nat)
    requires start < |query|
    ensures end == start + 1 + QuoteTail(query[start + 1..], query[start])
  {
    var i := start + 1;
    while i < |query|
      invariant start < i <= |query|
      invariant QuoteTail(query[start + 1..], query[start]) == i - start - 1 + QuoteTail(query[i..], query[start])
    {
      if query[i] == query[start] {
        if i + 1 < |query| && query[i + 1] == query[start] {
          i := i + 2;
          continue;
        }
        return i + 1;
      }
      i := i + 1;
    }
    return |query|;
  }

  method SkipQQuote(query: string, start: nat) returns (r: Result<nat, QuoteError>)
    requires start < |query| && QQuoteAt(query[start..])
    ensures r.Ok? ==> start < r.value <= |query|
    ensures QQuote(query[start..]) == if r.Ok? then Opaque(r.value - start) else Broken(r.error)
  {
    if start + 2 >= |query| {
      return Err(Unterminated);
    }
    var opener := query[start + 2];
    if opener as int >= 0x80 || opener == '\'' || IsSpace(opener) {
      return Err(BadDelimiter);
    }
    var closer := Closer(opener);
    ghost var whole := QTail(query[start + 3..], closer);
    var i := start + 3;
    while i + 1 < |query|
      invariant start + 3 <= i <= |query|
      invariant whole == var r := QTail(query[i..], closer); if r.Ok? then Ok(i - start - 3 + r.value) else r
    {
      if query[i] == closer && query[i + 1] == '\'' {
        return Ok(i + 2);
      }
      if query[i] == '\'' {
        return Err(InnerQuote);
      }
      i := i + 1;
    }
    return Err(Unterminated);
  }

  method SkipSpaces(query: string, start: nat, end: nat) returns (i: nat)
    requires start <= end <= |query|
    ensures start <= i <= end
    ensures i == start + SpaceLen(query[start..end])
  {
    i := start;
    while i < end && IsSpace(query[i])
      invariant start <= i <= end
      invariant SpaceLen(query[start..end]) == i - start + SpaceLen(query[i..end])
    {
      assert query[i..end][1..] == query[i + 1..end];
      i := i + 1;
    }
  }

  method MatchCursorWord(query: string, start: nat, end: nat) returns (ok: bool)
    requires start <= end <= |query|
    ensures ok <==> start + 6 <= end && Upper(query[start..start + 6]) == "CURSOR"
  {
    var word := "CURSOR";
    for k := 0 to 6
      invariant start + k <= end
      invariant forall j :: 0 <= j < k ==> UpperByte(query[start + j]) == word[j]
    {
      if start + k >= end || UpperByte(query[start + k]) != word[k] {
        assert start + 6 <= end ==> Upper(query[start..start + 6])[k] != word[k];
        return false;
      }
    }
    assert Upper(query[start..start + 6]) == word;
    return true;
  }

  /** The end of the cursor word, with its opening, that starts at `start`. */
  method ScanCursorOpening(query: string, start: nat, end: nat) returns (r: nat)
    requires start <= end <= |query|
    ensures var n := CursorOpening(query[start..end]); r == if n > 0 then start + n else 0
  {
    hide UpperByte, IsSpace, SpaceLen, Upper;
    if start + 3 >= end || query[start] != '/' || query[start + 1] != '*' {
      return 0;
    }
    var a := SkipSpaces(query, start + 2, end);
    DropOfSlice(query, start, end, 2);
    var ok := MatchCursorWord(query, a, end);
    if a + 6 <= end {
      SliceOfSlice(query, start, end, a - start, a - start + 6);
    }
    return if ok then a + 6 else 0;
  }

  /** The end of the cursor comment that starts at `start` and ends by `end`. */
  method ScanCursorComment(query: string, start: nat, end: nat) returns (r: Option<nat>)
    requires start <= end <= |query|
    ensures var n := CursorLen(query[start..end]); r == if n > 0 then Some(start + n) else None
  {
    hide CursorOpening, IsSpace, SpaceLen;
    var a := ScanCursorOpening(query, start, end);
    if a == 0 {
      return None;
    }
    var b := SkipSpaces(query, a, end);
    DropOfSlice(query, start, end, a - start);
    if b + 1 >= end || query[b] != '*' || query[b + 1] != '/' {
      return None;
    }
    return Some(b + 2);
  }

  method SkipLineComment(query: string, start: nat) returns (end: nat)
    requires start + 2 <= |query|
    ensures end == start + 2 + LineTail(query[start + 2..])
  {
    var i := start + 2;
    while i < |query| && query[i] != '\n'
      invariant start + 2 <= i <= |query|
      invariant LineTail(query[start + 2..]) == i - start - 2 + LineTail(query[i..])
    {
      i := i + 1;
    }
    return i;
  }

  method SkipBlockComment(query: string, start: nat) returns (end: nat)
    requires start + 2 <= |query|
    ensures end == start + 2 + BlockTail(query[start + 2..])
  {
    var i := start + 2;
    while i + 1 < |query| && !(query[i] == '*' && query[i + 1] == '/')
      invariant start + 2 <= i <= |query|
      invariant BlockTail(query[start + 2..]) == i - start - 2 + BlockTail(query[i..])
    {
      i := i + 1;
    }
    return if i + 1 < |query| then i + 2 else |query|;
  }

  function Continue(done: seq<Region>, rest: Result<seq<Region>, QuoteError>): Result<seq<Region>, QuoteError> {
    if rest.Ok? then Ok(done + rest.value) else rest
  }

  function Close(done: seq<Region>, start: nat, end: nat): seq<Region> {
    if start < end then done + [Region(start, end)] else done
  }

  lemma RunEnds(q: string, done: seq<Region>, start: nat, i: nat)
    requires start <= i <= |q| && CodeLen(q[start..]) == i - start
    ensures Continue(done, RegionsFrom(q, start)) == Continue(Close(done, start, i), RegionsFrom(q, i))
  {
    hide Head, CursorLen;
    if start < i {
      assert RegionsFrom(q, start) == Prepend(Region(start, i), RegionsFrom(q, i));
      PrependContinue(done, Region(start, i), RegionsFrom(q, i));
    }
  }

  lemma PrependContinue(done: seq<Region>, r: Region, rest: Result<seq<Region>, QuoteError>)
    ensures Continue(done, Prepend(r, rest)) == Continue(done + [r], rest)
  {
    if rest.Ok? {
      assert done + ([r] + rest.value) == done + [r] + rest.value;
    }
  }

  lemma ContinueUnit(rest: Result<seq<Region>, QuoteError>)
    ensures Continue([], rest) == rest
  {
    if rest.Ok? {
      assert [] + rest.value == rest.value;
    }
  }

  lemma AtBoundary(q: string, i: nat)
    requires i <= |q|
    ensures i == |q| ==> RegionsFrom(q, i) == Ok([])
    ensures i < |q| && Head(q[i..]).Opaque? ==> RegionsFrom(q, i) == RegionsFrom(q, i + Head(q[i..]).len)
    ensures i < |q| && Head(q[i..]).Broken? ==> RegionsFrom(q, i) == Err(Head(q[i..]).error)
  {
    hide Head;
  }

  /** Decides what begins at byte i: the branches of the scanner's switch. */
  method ScanStep(query: string, i: nat) returns (step: Step)
    requires i < |query|
    ensures step == Head(query[i..])
  {
    hide CursorLen, IsSpace;
    var c := query[i];
    if c == '\'' || c == '"' {
      var end := SkipQuoted(query, i);
      return Opaque(end - i);
    }
    if c == '-' && i + 1 < |query| && query[i + 1] == '-' {
      var end := SkipLineComment(query, i);
      return Opaque(end - i);
    }
    if c == '/' && i + 1 < |query| && query[i + 1] == '*' {
      var cursor := ScanCursorComment(query, i, |query|);
      assert query[i..|query|] == query[i..];
      if cursor.Some? {
        return Code;
      }
      var end := SkipBlockComment(query, i);
      return Opaque(end - i);
    }
    if (c == 'q' || c == 'Q') && i + 1 < |query| && query[i + 1] == '\'' {
      var quoted := SkipQQuote(query, i);
      return if quoted.Ok? then Opaque(quoted.value - i) else Broken(quoted.error);
    }
    return Code;
  }

  /** Lists the code regions of a query. */
  method ScanCodeRegions(query: string) returns (r: Result<seq<Region>, QuoteError>)
    ensures r == RegionsFrom(query, 0)
  {
    hide Head, RegionsFrom;
    ContinueUnit(RegionsFrom(query, 0));
    var regions := [];
    var codeStart := 0;
    var i := 0;
    while i < |query|
      invariant 0 <= codeStart <= i <= |query|
      invariant CodeLen(query[codeStart..]) == i - codeStart + CodeLen(query[i..])
      invariant RegionsFrom(query, 0) == Continue(regions, RegionsFrom(query, codeStart))
    {
      var step := ScanStep(query, i);
      if step.Code? {
        i := i + 1;
      } else {
        RunEnds(query, regions, codeStart, i);
        AtBoundary(query, i);
        if step.Broken? {
          return Err(step.error);
        }
        regions := Close(regions, codeStart, i);
        i := i + step.len;
        codeStart := i;
      }
    }
    RunEnds(query, regions, codeStart, |query|);
    AtBoundary(query, |query|);
    regions := Close(regions, codeStart, |query|);
    assert regions + [] == regions;
    r := Ok(regions);
  }
}
