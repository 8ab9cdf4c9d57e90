/**
  What the lexer is measured against: the written form of each kind of token,
  and a reference scan in which a cursor comment is one unit of code.
 */
module LexerReference {
  import opened Text
  import opened SqlLexer

  function Doubled(v: string, quote: char): string {
    if v == "" then "" else (if v[0] == quote then [quote, quote] else [v[0]]) + Doubled(v[1..], quote)
  }

  /** The content of a quoted token, read up to its closing quote. */
  function Undoubled(s: string, quote: char): string {
    if s == "" then ""
    else if s[0] == quote then
      if |s| > 1 && s[1] == quote then [quote] + Undoubled(s[2..], quote) else ""
    else [s[0]] + Undoubled(s[1..], quote)
  }

  lemma {:induction false} QuoteTailOfDoubled(v: string, quote: char, rest: string)
    requires rest == "" || rest[0] != quote
    ensures QuoteTail(Doubled(v, quote) + [quote] + rest, quote) == |Doubled(v, quote)| + 1
    ensures Undoubled(Doubled(v, quote) + [quote] + rest, quote) == v
  {
    hide QuoteTail, Undoubled;
    if v == "" {
      assert Doubled(v, quote) + [quote] + rest == [quote] + rest;
      ClosingQuote(rest, quote);
    } else {
      var d := if v[0] == quote then [quote, quote] else [v[0]];
      var inner := Doubled(v[1..], quote);
      QuoteTailOfDoubled(v[1..], quote, rest);
      QuoteStep(v[0], inner + [quote] + rest, quote);
      ConcatAssoc(d, inner, [quote]);
      ConcatAssoc(d, inner + [quote], rest);
    }
  }

  lemma ClosingQuote(rest: string, quote: char)
    requires rest == "" || rest[0] != quote
    ensures QuoteTail([quote] + rest, quote) == 1 && Undoubled([quote] + rest, quote) == ""
  {
  }

  lemma QuoteStep(c: char, tail: string, quote: char)
    ensures var d := if c == quote then [quote, quote] else [c];
            && QuoteTail(d + tail, quote) == |d| + QuoteTail(tail, quote)
            && Undoubled(d + tail, quote) == [c] + Undoubled(tail, quote)
  {
    var d := if c == quote then [quote, quote] else [c];
    assert (d + tail)[|d|..] == tail;
  }

  /** Any text in quotes, with its quotes doubled, is one skipped token. */
  lemma QuotedTokenLexes(v: string, quote: char, rest: string)
    requires quote == '\'' || quote == '"'
    requires rest == "" || rest[0] != quote
    ensures Head([quote] + Doubled(v, quote) + [quote] + rest) == Opaque(|Doubled(v, quote)| + 2)
    ensures Undoubled(([quote] + Doubled(v, quote) + [quote] + rest)[1..], quote) == v
  {
    QuoteTailOfDoubled(v, quote, rest);
    var s := [quote] + Doubled(v, quote) + [quote] + rest;
    assert s[1..] == Doubled(v, quote) + [quote] + rest;
  }

  /** The quoted token whose text after the opening quote is s has an end. */
  predicate IsClosed(s: string, quote: char) {
    s != "" &&
    if s[0] == quote then |s| == 1 || s[1] != quote || IsClosed(s[2..], quote)
    else IsClosed(s[1..], quote)
  }

  lemma ClosedStep(s: string, quote: char)
    requires s != ""
    ensures var w := if s[0] == quote then 2 else 1;
            if s[0] == quote && (|s| == 1 || s[1] != quote)
            then QuoteTail(s, quote) == 1 && Undoubled(s, quote) == "" && IsClosed(s, quote)
            else
              && QuoteTail(s, quote) == w + QuoteTail(s[w..], quote)
              && Undoubled(s, quote) == [s[0]] + Undoubled(s[w..], quote)
              && (IsClosed(s, quote) <==> IsClosed(s[w..], quote))
  {
  }

  /** A skipped quoted token is such a text, or runs unterminated to the end. */
  lemma {:induction false} QuotedTokenShape(s: string, quote: char)
    ensures var n := QuoteTail(s, quote);
            && s[..n] == Doubled(Undoubled(s, quote), quote) + (if IsClosed(s, quote) then [quote] else "")
            && (n < |s| ==> IsClosed(s, quote) && s[n] != quote)
  {
    hide QuoteTail, Undoubled, IsClosed, Doubled;
    NothingQuoted(quote);
    if s != "" {
      ClosedStep(s, quote);
      if !(s[0] == quote && (|s| == 1 || s[1] != quote)) {
        var w := if s[0] == quote then 2 else 1;
        QuotedTokenShape(s[w..], quote);
        DoubledStep(s[0], Undoubled(s[w..], quote), quote);
        TakeAfter(s, w, QuoteTail(s[w..], quote));
        ConcatAssoc(s[..w], Doubled(Undoubled(s[w..], quote), quote), if IsClosed(s, quote) then [quote] else "");
        assert s[..w] == if s[0] == quote then [quote, quote] else [s[0]];
      }
    }
  }

  lemma NothingQuoted(quote: char)
    ensures QuoteTail("", quote) == 0 && Undoubled("", quote) == "" && Doubled("", quote) == "" && !IsClosed("", quote)
  {
  }

  lemma TakeAfter(s: string, w: nat, n: nat)
    requires w <= |s| && n <= |s| - w
    ensures s[..w + n] == s[..w] + s[w..][..n]
  {
  }

  lemma DoubledStep(c: char, v: string, quote: char)
    ensures Doubled([c] + v, quote) == (if c == quote then [quote, quote] else [c]) + Doubled(v, quote)
  {
    assert ([c] + v)[1..] == v;
  }

  lemma {:induction false} LineCommentLexes(body: string, rest: string)
    requires '\n' !in body && (rest == "" || rest[0] == '\n')
    ensures LineTail(body + rest) == |body|
    ensures Head("--" + body + rest) == Opaque(2 + |body|)
  {
    hide *;
    LineTailOf(body, rest);
    ConcatAssoc("--", body, rest);
    LineHead(body + rest);
  }

  lemma {:induction false} LineTailOf(body: string, rest: string)
    requires '\n' !in body && (rest == "" || rest[0] == '\n')
    ensures LineTail(body + rest) == |body|
  {
    if body == "" {
      assert body + rest == rest;
    } else {
      assert (body + rest)[1..] == body[1..] + rest;
      LineTailOf(body[1..], rest);
    }
  }

  lemma LineHead(s: string)
    ensures Head("--" + s) == Opaque(2 + LineTail(s))
  {
    hide LineTail, CursorLen;
    assert ("--" + s)[2..] == s;
  }

  predicate HasBlockEnd(s: string) {
    exists i :: 0 <= i < |s| - 1 && s[i] == '*' && s[i + 1] == '/'
  }

  lemma {:induction false} BlockTailOf(body: string, rest: string)
    requires !HasBlockEnd(body + "*")
    ensures BlockTail(body + "*/" + rest) == |body| + 2
  {
    var s := body + "*/" + rest;
    if body == "" {
      assert s == "*/" + rest;
    } else {
      var t := body + "*";
      assert s[0] == t[0] && s[1] == t[1] && !(t[0] == '*' && t[1] == '/');
      assert forall i :: 0 <= i < |body| ==> (body[1..] + "*")[i] == t[i + 1];
      BlockTailOf(body[1..], rest);
      assert s[1..] == body[1..] + "*/" + rest;
    }
  }

  /** A block comment ends at its first end mark. */
  lemma BlockCommentLexes(body: string, rest: string)
    requires !HasBlockEnd(body + "*")
    ensures var s := "/*" + body + "*/" + rest;
            Head(s) == if CursorLen(s) > 0 then Code else Opaque(|body| + 4)
  {
    hide CursorLen, BlockTail;
    BlockTailOf(body, rest);
    var s := "/*" + body + "*/" + rest;
    assert s[0] == '/' && s[1] == '*' && s[2..] == body + "*/" + rest;
  }

  lemma {:induction false} QTailOf(body: string, closer: char, rest: string)
    requires '\'' !in body && closer != '\''
    ensures QTail(body + [closer] + "'" + rest, closer) == Ok(|body| + 2)
  {
    var s := body + [closer] + "'" + rest;
    if body == "" {
      assert s[0] == closer && s[1] == '\'';
    } else {
      QTailOf(body[1..], closer, rest);
      assert s[1..] == body[1..] + [closer] + "'" + rest;
      assert s[1] == if |body| > 1 then body[1] else closer;
    }
  }

  /** A q-quote is skipped up to the delimiter that pairs with its opener. */
  lemma QLiteralLexes(q: char, opener: char, body: string, rest: string)
    requires q == 'q' || q == 'Q'
    requires opener as int < 0x80 && opener != '\'' && !IsSpace(opener) && '\'' !in body
    ensures Head([q, '\'', opener] + body + [Closer(opener)] + "'" + rest) == Opaque(|body| + 5)
  {
    hide QTail, CursorLen, IsSpace;
    QTailOf(body, Closer(opener), rest);
    var s := [q, '\'', opener] + body + [Closer(opener)] + "'" + rest;
    assert s[3..] == body + [Closer(opener)] + "'" + rest;
    assert s[0] == q && s[1] == '\'' && s[2] == opener;
  }

  /** A cursor comment is code: the word in any letter case, with any white space around it. */
  lemma CursorCommentIsCode(before: string, word: string, after: string, rest: string)
    requires forall i :: 0 <= i < |before| ==> IsSpace(before[i])
    requires forall i :: 0 <= i < |after| ==> IsSpace(after[i])
    requires |word| == 6 && forall i :: 0 <= i < 6 ==> word[i] == "CURSOR"[i] || word[i] == "cursor"[i]
    ensures CursorLen("/*" + before + word + after + "*/" + rest) == |before| + |after| + 10
    ensures Head("/*" + before + word + after + "*/" + rest) == Code
  {
    hide IsSpace, SpaceLen, CursorLen;
    var s := "/*" + before + word + after + "*/" + rest;
    var p, n := 2 + |before|, |before| + |after| + 10;
    assert s[2..] == before + (word + after + "*/" + rest);
    CursorWord(word);
    SpacesThen(before, word + after + "*/" + rest);
    assert s[p + 6..] == after + ("*/" + rest);
    LettersAreNoSpace();
    SpacesThen(after, "*/" + rest);
    assert s[p..p + 6] == word;
    PartsAreCursor(s, p, n);
  }

  lemma LettersAreNoSpace()
    ensures !IsSpace('C') && !IsSpace('c') && !IsSpace('*')
  {
  }

  lemma CursorWord(word: string)
    requires |word| == 6 && forall i :: 0 <= i < 6 ==> word[i] == "CURSOR"[i] || word[i] == "cursor"[i]
    ensures Upper(word) == "CURSOR" && !IsSpace(word[0])
  {
    var c := "CURSOR";
    assert forall i :: 0 <= i < 6 ==> UpperByte(word[i]) == c[i];
  }

  /** The four kinds of brackets pair up. */
  lemma BracketsClose(q: char, body: string, rest: string)
    requires (q == 'q' || q == 'Q') && '\'' !in body
    ensures Head([q] + "'(" + body + ")'" + rest) == Opaque(|body| + 5)
    ensures Head([q] + "'{" + body + "}'" + rest) == Opaque(|body| + 5)
    ensures Head([q] + "'[" + body + "]'" + rest) == Opaque(|body| + 5)
    ensures Head([q] + "'<" + body + ">'" + rest) == Opaque(|body| + 5)
  {
    hide Head;
    QLiteralText(q, '(', ')', body, rest);
    QLiteralText(q, '{', '}', body, rest);
    QLiteralText(q, '[', ']', body, rest);
    QLiteralText(q, '<', '>', body, rest);
    QLiteralLexes(q, '(', body, rest);
    QLiteralLexes(q, '{', body, rest);
    QLiteralLexes(q, '[', body, rest);
    QLiteralLexes(q, '<', body, rest);
  }

  lemma QLiteralText(q: char, opener: char, closer: char, body: string, rest: string)
    ensures [q, '\'', opener] + body + [closer] + "'" + rest == [q] + ['\'', opener] + body + [closer, '\''] + rest
  {
    assert [q, '\'', opener] == [q] + ['\'', opener];
    ConcatAssoc([q, '\'', opener] + body, [closer], "'");
    assert [closer] + "'" == [closer, '\''];
  }

  /** Every other delimiter closes itself. */
  lemma OthersCloseThemselves(q: char, mark: char, body: string, rest: string)
    requires (q == 'q' || q == 'Q') && '\'' !in body
    requires mark as int < 0x80 && mark != '\'' && !IsSpace(mark) && mark !in "({[<"
    ensures Head([q] + ['\'', mark] + body + [mark, '\''] + rest) == Opaque(|body| + 5)
  {
    hide Head, IsSpace;
    assert "({[<"[0] == '(' && "({[<"[1] == '{' && "({[<"[2] == '[' && "({[<"[3] == '<';
    QLiteralText(q, mark, mark, body, rest);
    QLiteralLexes(q, mark, body, rest);
  }

  function FirstQuote(s: string): (n: nat)
    ensures n <= |s| && '\'' !in s[..n] && (n < |s| ==> s[n] == '\'')
  {
    if s == "" || s[0] == '\'' then 0
    else
      var n := FirstQuote(s[1..]);
      assert s[..n + 1] == [s[0]] + s[1..][..n];
      n + 1
  }

  /** The first quote decides about the rest of a q-quote: its end, an inner quote, or no end. */
  lemma {:induction false} QTailMeaning(s: string, closer: char)
    requires closer != '\''
    ensures var j := FirstQuote(s);
            QTail(s, closer) ==
            if j < |s| && j > 0 && s[j - 1] == closer then Ok(j + 1)
            else if j + 1 < |s| then Err(InnerQuote) else Err(Unterminated)
  {
    if |s| >= 2 && s[0] != '\'' {
      QTailMeaning(s[1..], closer);
    }
  }

  /** All outcomes of a q-quote: skipped, refused delimiter, inner quote, or missing end. */
  lemma QQuoteMeaning(s: string)
    requires QQuoteAt(s)
    ensures |s| == 2 ==> Head(s) == Broken(Unterminated)
    ensures |s| > 2 && (s[2] as int >= 0x80 || s[2] == '\'' || IsSpace(s[2])) ==> Head(s) == Broken(BadDelimiter)
    ensures |s| > 2 && !(s[2] as int >= 0x80 || s[2] == '\'' || IsSpace(s[2])) ==>
              var t := s[3..]; var j := FirstQuote(t);
              Head(s) ==
              if j < |t| && j > 0 && t[j - 1] == Closer(s[2]) then Opaque(j + 4)
              else if j + 1 < |t| then Broken(InnerQuote) else Broken(Unterminated)
  {
    hide QTail, FirstQuote, CursorLen, IsSpace;
    if |s| > 2 && s[2] != '\'' {
      QTailMeaning(s[3..], Closer(s[2]));
    }
  }

  lemma {:induction false} BlockTailOpen(body: string)
    requires !HasBlockEnd(body)
    ensures BlockTail(body) == |body|
  {
    if |body| >= 2 {
      assert forall i :: 0 <= i < |body| - 1 ==> body[1..][i] == body[i + 1];
      BlockTailOpen(body[1..]);
    }
  }

  /** A block comment without an end mark reaches to the end of the query. */
  lemma OpenBlockCommentLexes(body: string)
    requires !HasBlockEnd(body)
    ensures Head("/*" + body) == Opaque(|body| + 2)
  {
    hide BlockTail;
    var s := "/*" + body;
    assert s[2..] == body && s[0] == '/' && s[1] == '*';
    BlockTailOpen(body);
    OpenNoCursor(body);
  }

  lemma OpenNoCursor(body: string)
    requires !HasBlockEnd(body)
    ensures CursorLen("/*" + body) == 0
  {
    hide CursorLen;
    var s := "/*" + body;
    forall i | 2 <= i < |s| - 1 ensures s[i] == '*' ==> s[i + 1] != '/' {
      assert s[i] == body[i - 2] && s[i + 1] == body[i - 1];
    }
  }

  // ----- The reference scan -----

  /** The length of the code unit at the head of s. */
  function Unit(s: string): (n: nat)
    requires s != ""
    ensures 0 < n <= |s|
  {
    if CursorLen(s) > 0 then CursorLen(s) else 1
  }

  function UnitRun(s: string): (n: nat)
    ensures n <= |s|
    decreases |s|
  {
    if s == "" || !Head(s).Code? then 0 else Unit(s) + UnitRun(s[Unit(s)..])
  }

  /** The maximal code runs when a cursor comment is one unit of code. */
  function ReferenceFrom(q: string, at: nat): Result<seq<Region>, QuoteError>
    requires at <= |q|
    decreases |q| - at
  {
    if at == |q| then Ok([])
    else
      var n := UnitRun(q[at..]);
      if n > 0 then Prepend(Region(at, at + n), ReferenceFrom(q, at + n))
      else match Head(q[at..]) {
        case Opaque(k) => ReferenceFrom(q, at + k)
        case Broken(e) => Err(e)
        case Code => assert false; Ok([])
      }
  }

  /** No cursor comment of the run lends its closing slash to another comment. */
  predicate RunIsClear(s: string)
    decreases |s|
  {
    s == "" || !Head(s).Code? ||
    ((CursorLen(s) > 0 ==> Head(s[CursorLen(s) - 1..]).Code?) && RunIsClear(s[Unit(s)..]))
  }

  predicate Clear(q: string, at: nat)
    requires at <= |q|
    decreases |q| - at
  {
    at == |q| ||
    var n := UnitRun(q[at..]);
    if n > 0 then RunIsClear(q[at..]) && Clear(q, at + n)
    else Head(q[at..]).Opaque? ==> Clear(q, at + Head(q[at..]).len)
  }

  /** A byte that begins no literal and no comment. */
  predicate Inert(c: char) {
    c != '\'' && c != '"' && c != '-' && c != '/' && c != 'q' && c != 'Q'
  }

  lemma InertIsCode(s: string)
    requires s != "" && Inert(s[0])
    ensures Head(s).Code?
  {
  }

  lemma InertBytes(c: char)
    ensures IsSpace(c) || UpperByte(c) in "CURSOR" || c == '*' ==> Inert(c)
  {
  }

  /** Inside a cursor comment, before its closing slash, every byte is code. */
  lemma CursorInside(s: string, j: nat)
    requires 0 < j < CursorLen(s) - 1
    ensures Head(s[j..]).Code?
  {
    hide CursorLen, Head, Inert, IsSpace, SpaceLen, Upper, UpperByte;
    var n := CursorLen(s);
    var p := CursorHasParts(s);
    InertBytes(s[j]);
    if 2 <= j < p {
      SpacesAre(s[2..], j - 2);
    } else if p <= j < p + 6 {
      assert Upper(s[p..p + 6])[j - p] == UpperByte(s[p..p + 6][j - p]) == UpperByte(s[j]);
    } else if p + 6 <= j < n - 2 {
      SpacesAre(s[p + 6..], j - p - 6);
    }
    InertIsCode(s[j..]);
  }

  lemma {:induction false} SpacesAre(s: string, j: nat)
    requires j < SpaceLen(s)
    ensures IsSpace(s[j])
  {
    if j > 0 {
      SpacesAre(s[1..], j - 1);
    }
  }

  lemma {:induction false} CodeLenSkips(s: string, n: nat)
    requires n <= |s|
    requires forall j :: 0 <= j < n ==> Head(s[j..]).Code?
    ensures CodeLen(s) == n + CodeLen(s[n..])
  {
    hide Head;
    if n > 0 {
      assert s[0..] == s;
      forall j | 0 <= j < n - 1 ensures Head(s[1..][j..]).Code? {
        assert s[1..][j..] == s[j + 1..];
      }
      CodeLenSkips(s[1..], n - 1);
      assert s[1..][n - 1..] == s[n..];
    }
  }

  lemma {:induction false} RunsAgree(s: string)
    ensures RunIsClear(s) ==> UnitRun(s) == CodeLen(s)
    ensures !RunIsClear(s) ==> 0 < CodeLen(s) < UnitRun(s)
    decreases |s|
  {
    hide Head, CursorLen;
    if s != "" && Head(s).Code? {
      RunsAgree(s[Unit(s)..]);
      if CursorLen(s) > 0 {
        CursorRun(s);
      }
    }
  }

  /** Inside a cursor comment everything is code up to its closing slash. */
  lemma CursorRun(s: string)
    requires CursorLen(s) > 0 && Head(s).Code?
    ensures var n := CursorLen(s);
            CodeLen(s) == if Head(s[n - 1..]).Code? then n + CodeLen(s[n..]) else n - 1
    ensures CursorLen(s) > 1
  {
    hide Head, CodeLen;
    var n := CursorLen(s);
    forall j | 0 <= j < n - 1 ensures Head(s[j..]).Code? {
      if j > 0 { CursorInside(s, j); } else { assert s[0..] == s; }
    }
    CodeLenSkips(s, n - 1);
    CodeLenHead(s[n - 1..]);
    assert s[n - 1..][1..] == s[n..];
  }

  lemma CodeLenHead(s: string)
    ensures CodeLen(s) == if s == "" || !Head(s).Code? then 0 else 1 + CodeLen(s[1..])
  {
    hide Head;
  }

  lemma {:induction false} ClearGivesReference(q: string, at: nat)
    requires at <= |q| && Clear(q, at)
    ensures RegionsFrom(q, at) == ReferenceFrom(q, at)
    decreases |q| - at
  {
    hide Head, CodeLen, UnitRun, RunIsClear;
    if at < |q| {
      RunsAgree(q[at..]);
      var n := UnitRun(q[at..]);
      NoRunNoCode(q[at..]);
      if n > 0 {
        ClearGivesReference(q, at + n);
      } else if Head(q[at..]).Opaque? {
        ClearGivesReference(q, at + Head(q[at..]).len);
      }
    }
  }

  lemma NoRunNoCode(s: string)
    requires s != ""
    ensures UnitRun(s) == 0 <==> !Head(s).Code?
    ensures CodeLen(s) == 0 <==> !Head(s).Code?
    ensures !Head(s).Code? ==> RunIsClear(s)
  {
  }

  lemma PrependInjective(r: Region, a: Result<seq<Region>, QuoteError>, b: Result<seq<Region>, QuoteError>)
    requires a != b && a.Ok?
    ensures Prepend(r, a) != Prepend(r, b)
  {
    if b.Ok? {
      assert ([r] + a.value)[1..] == a.value && ([r] + b.value)[1..] == b.value;
    }
  }

  lemma {:induction false} UnclearDiffers(q: string, at: nat)
    requires at <= |q| && !Clear(q, at) && RegionsFrom(q, at).Ok?
    ensures RegionsFrom(q, at) != ReferenceFrom(q, at)
    decreases |q| - at
  {
    hide Head, CodeLen, UnitRun, RunIsClear;
    var s := q[at..];
    RunsAgree(s);
    NoRunNoCode(s);
    if RunIsClear(s) {
      var n := UnitRun(s);
      if n > 0 {
        UnclearDiffers(q, at + n);
        PrependInjective(Region(at, at + n), RegionsFrom(q, at + n), ReferenceFrom(q, at + n));
      } else {
        UnclearDiffers(q, at + Head(s).len);
      }
    } else {
      assert RegionsFrom(q, at).value[0] == Region(at, at + CodeLen(s));
    }
  }

  /**
    The scanner finds the reference's code runs exactly when no cursor comment
    lends its closing slash to a following comment. When both scans fail, they may
    fail alike all the same.
   */
  lemma ScannerMeetsReference(q: string)
    ensures Clear(q, 0) ==> RegionsFrom(q, 0) == ReferenceFrom(q, 0)
    ensures RegionsFrom(q, 0).Ok? || ReferenceFrom(q, 0).Ok? ==>
              (RegionsFrom(q, 0) == ReferenceFrom(q, 0) <==> Clear(q, 0))
  {
    if Clear(q, 0) {
      ClearGivesReference(q, 0);
    } else if RegionsFrom(q, 0).Ok? {
      UnclearDiffers(q, 0);
    }
  }

  /** Such a comment: its slash and the star behind it are taken for a new one. */
  lemma ClosingSlashOpensComment()
    ensures !Clear(MARK + "*", 0)
    ensures RegionsFrom(MARK + "*", 0) == Ok([Region(0, 9)]) && ReferenceFrom(MARK + "*", 0) == Ok([Region(0, 11)])
  {
    hide CursorLen;
    var q := MARK + "*";
    MarkLexes("*");
    assert q[0..] == q && q[9..] == "/*" && q[10..] == "*" && q[11..] == "";
    ShortNoCursor("/*");
    ShortNoCursor("*");
    assert UnitRun("") == 0 && UnitRun("*") == 1 && UnitRun(q) == 11;
    forall j | 0 <= j < 9 ensures Head(q[j..]).Code? {
      if j > 0 {
        CursorInside(q, j);
      }
    }
    CodeLenSkips(q, 9);
    assert CodeLen("/*") == 0 && CodeLen(q) == 9;
    assert Head(q[9..]) == Opaque(2) && RegionsFrom(q, 11) == Ok([]) && RegionsFrom(q, 9) == Ok([]);
    assert !RunIsClear(q);
    assert RegionsFrom(q, 0) == Prepend(Region(0, 9), Ok([])) && ReferenceFrom(q, 0) == Prepend(Region(0, 11), Ok([]));
    assert [Region(0, 9)] + [] == [Region(0, 9)] && [Region(0, 11)] + [] == [Region(0, 11)];
  }

  lemma ShortNoCursor(s: string)
    requires |s| < 10
    ensures CursorLen(s) == 0
  {
  }
}
