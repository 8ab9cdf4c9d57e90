/** The tokenizer of Redis commands: words, two kinds of quotes, and a backslash escape. */
module RedisCommand {
  import opened Text

  datatype QuoteError = Unmatched(quote: char, position: nat)

  datatype Quote = Quote(mark: char, position: nat)

  /** The tokenizer's variables between two characters. */
  datatype State = State(fields: seq<string>, quote: Option<Quote>, escaped: bool, word: string)

  const START := State([], None, false, "")

  predicate IsQuote(c: char) {
    c == '"' || c == '\''
  }

  /** Bytes of a character in UTF-8; positions count bytes. */
  function Width(c: char): (n: nat)
    ensures 1 <= n <= 4
  {
    if c as int < 0x80 then 1 else if c as int < 0x800 then 2 else if c as int < 0x1_0000 then 3 else 4
  }

  function Bytes(s: string): nat {
    if s == "" then 0 else Width(s[0]) + Bytes(s[1..])
  }

  function Step(st: State, c: char, next: char, i: nat): Result<State, QuoteError> {
    if !st.escaped && IsQuote(c) && st.quote.Some? && c == st.quote.value.mark then
      if next != ' ' then Err(Unmatched(c, i + 1)) else Ok(st.(quote := None))
    else if !st.escaped && IsQuote(c) && st.quote.None? then Ok(st.(quote := Some(Quote(c, i + 1))))
    else if c == '\\' then Ok(st.(escaped := true))
    else if st.quote.None? && c == ' ' then Ok(st.(fields := st.fields + [st.word], word := ""))
    else Ok(st.(escaped := false, word := st.word + [c]))
  }

  /** Reads the characters of s, which starts at byte i of the command. */
  function Run(s: string, i: nat, st: State): Result<State, QuoteError>
    decreases |s|
  {
    if s == "" then Ok(st)
    else
      var r := Step(st, s[0], if |s| > 1 then s[1] else ' ', i);
      if r.Err? then r else Run(s[1..], i + Width(s[0]), r.value)
  }

  function Finish(r: Result<State, QuoteError>): Result<seq<string>, QuoteError> {
    if r.Err? then Err(r.error)
    else if r.value.quote.Some? then Err(Unmatched(r.value.quote.value.mark, r.value.quote.value.position))
    else Ok(if r.value.word == "" then r.value.fields else r.value.fields + [r.value.word])
  }

  function Parse(s: string): Result<seq<string>, QuoteError> {
    Finish(Run(s, 0, START))
  }

  method ParseRedisCmd(unparsed: string) returns (r: Result<seq<string>, QuoteError>)
    ensures r == Parse(unparsed)
  {
    var fields: seq<string>, word, escaped := [], "", false;
    var quote: Option<Quote> := None;
    var next: nat := 0;
    for k := 0 to |unparsed|
      invariant Run(unparsed, 0, START) == Run(unparsed[k..], next, State(fields, quote, escaped, word))
    {
      var i, c := next, unparsed[k];
      next := next + Width(c);
      assert unparsed[k..][1..] == unparsed[k + 1..];
      if !escaped && (c == '"' || c == '\'') {
        var after := if k + 1 < |unparsed| then unparsed[k + 1] else ' ';
        if quote.Some? && c == quote.value.mark {
          if after != ' ' {
            return Err(Unmatched(c, i + 1));
          }
          quote := None;
          continue;
        } else if quote.None? {
          quote := Some(Quote(c, i + 1));
          continue;
        }
      }
      if c == '\\' {
        escaped := true;
        continue;
      }
      if quote.None? && c == ' ' {
        fields, word := fields + [word], "";
        continue;
      }
      escaped := false;
      word := word + [c];
    }
    if quote.Some? {
      return Err(Unmatched(quote.value.mark, quote.value.position));
    }
    return Ok(if |word| > 0 then fields + [word] else fields);
  }

  // ----- Byte positions -----

  /** The bytes of a character, by section 3 of RFC 3629. */
  function Utf8(c: char): seq<nat> {
    var n := c as int;
    if n < 0x80 then [n]
    else if n < 0x800 then [0xC0 + n / 64, 0x80 + n % 64]
    else if n < 0x1_0000 then [0xE0 + n / 4096, 0x80 + n / 64 % 64, 0x80 + n % 64]
    else [0xF0 + n / 262144, 0x80 + n / 4096 % 64, 0x80 + n / 64 % 64, 0x80 + n % 64]
  }

  function AllUtf8(s: string): seq<nat> {
    if s == "" then [] else Utf8(s[0]) + AllUtf8(s[1..])
  }

  lemma {:induction false} BytesAreUtf8(s: string)
    ensures Bytes(s) == |AllUtf8(s)|
  {
    if s != "" {
      BytesAreUtf8(s[1..]);
    }
  }

  lemma {:induction false} BytesAppend(a: string, b: string)
    ensures Bytes(a + b) == Bytes(a) + Bytes(b)
  {
    if a == "" {
      assert a + b == b;
    } else {
      BytesAppend(a[1..], b);
      assert (a + b)[1..] == a[1..] + b;
    }
  }

  // ----- Printing -----

  function Escaped(w: string, q: char): string {
    if w == "" then "" else EscapedByte(w[0], q) + Escaped(w[1..], q)
  }

  function EscapedByte(c: char, q: char): string {
    if c == q then ['\\', q] else [c]
  }

  /** Outside quotes both kinds of quotes are escaped. */
  function Bare(w: string): string {
    if w == "" then "" else BareByte(w[0]) + Bare(w[1..])
  }

  function BareByte(c: char): string {
    if IsQuote(c) then ['\\', c] else [c]
  }

  /** How a word is printed: its first `bare` characters without quotes, the others in quotes of one kind. */
  datatype Style = Style(bare: nat, quote: Option<char>)

  predicate Fits(w: string, style: Style) {
    if style.quote.Some? then style.bare <= |w| && IsQuote(style.quote.value) else style.bare == |w|
  }

  function PrintedWord(w: string, style: Style): string
    requires Fits(w, style)
  {
    Bare(w[..style.bare]) + Quoted(w[style.bare..], style.quote)
  }

  function Quoted(w: string, quote: Option<char>): string {
    if quote.None? then "" else [quote.value] + Escaped(w, quote.value) + [quote.value]
  }

  predicate AllFit(words: seq<string>, styles: seq<Style>) {
    |styles| == |words| && forall i :: 0 <= i < |words| ==> Fits(words[i], styles[i])
  }

  /** The words, each in its own style, separated by single spaces. */
  function Printed(words: seq<string>, styles: seq<Style>): string
    requires AllFit(words, styles)
  {
    if words == [] then ""
    else
      PrintedWord(words[0], styles[0]) +
      if |words| == 1 then "" else [' '] + Printed(words[1..], styles[1..])
  }

  /** No word has a space outside quotes. */
  predicate SpacesQuoted(words: seq<string>, styles: seq<Style>)
    requires AllFit(words, styles)
  {
    forall i :: 0 <= i < |words| ==> ' ' !in words[i][..styles[i].bare]
  }

  predicate NoBackslash(words: seq<string>) {
    forall w :: w in words ==> '\\' !in w
  }

  lemma RunCons(c: char, rest: string, i: nat, st: State)
    ensures Run([c] + rest, i, st) ==
            var r := Step(st, c, if rest != "" then rest[0] else ' ', i);
            if r.Err? then r else Run(rest, i + Width(c), r.value)
  {
    hide Step;
    assert ([c] + rest)[1..] == rest;
  }

  lemma EscapedCons(w: string, q: char)
    ensures Escaped("", q) == ""
    ensures w != "" ==> Escaped(w, q) == EscapedByte(w[0], q) + Escaped(w[1..], q)
  {
  }

  /** One escaped or plain character, in quotes or outside. */
  lemma CharRuns(c: char, escape: bool, tail: string, i: nat, st: State)
    requires !st.escaped && c != '\\' && (escape ==> IsQuote(c))
    requires !escape ==> if st.quote.Some? then c != st.quote.value.mark else !IsQuote(c) && c != ' '
    ensures var text := if escape then ['\\', c] else [c];
            Run(text + tail, i, st) == Run(tail, i + Bytes(text), st.(word := st.word + [c]))
  {
    hide Run;
    BytesOfOne(c);
    if escape {
      assert ['\\', c] + tail == ['\\'] + ([c] + tail);
      RunCons('\\', [c] + tail, i, st);
      RunCons(c, tail, i + 1, st.(escaped := true));
    } else {
      RunCons(c, tail, i, st);
    }
  }

  lemma BytesOfOne(c: char)
    ensures Bytes([c]) == Width(c) && Bytes(['\\', c]) == 1 + Width(c)
  {
    assert [c][1..] == "" && ['\\', c][1..] == [c];
  }

  lemma {:induction false} InnerWord(w: string, q: char, rest: string, i: nat, st: State)
    requires IsQuote(q) && '\\' !in w
    requires st.quote.Some? && st.quote.value.mark == q && !st.escaped
    ensures Run(Escaped(w, q) + rest, i, st) == Run(rest, i + Bytes(Escaped(w, q)), st.(word := st.word + w))
  {
    hide Run, Escaped, Bytes, Step;
    EscapedCons(w, q);
    if w == "" {
      NoBytes();
      assert "" + rest == rest && st.word + "" == st.word;
    } else {
      var text, inner := EscapedByte(w[0], q), Escaped(w[1..], q);
      ConcatAssoc(text, inner, rest);
      CharRuns(w[0], w[0] == q, inner + rest, i, st);
      var after := st.(word := st.word + [w[0]]);
      InnerWord(w[1..], q, rest, i + Bytes(text), after);
      WordGrows(st.word, w);
      BytesAppend(text, inner);
    }
  }

  lemma NoBytes()
    ensures Bytes("") == 0
  {
  }

  lemma WordGrows(word: string, w: string)
    requires w != ""
    ensures word + w == word + [w[0]] + w[1..]
  {
  }

  lemma {:induction false} BareWord(w: string, rest: string, i: nat, st: State)
    requires '\\' !in w && ' ' !in w && st.quote.None? && !st.escaped
    ensures Run(Bare(w) + rest, i, st) == Run(rest, i + Bytes(Bare(w)), st.(word := st.word + w))
  {
    hide Run, Bare, Bytes, Step;
    BareCons(w);
    if w == "" {
      NoBytes();
      assert "" + rest == rest && st.word + "" == st.word;
    } else {
      var text, more := BareByte(w[0]), Bare(w[1..]);
      ConcatAssoc(text, more, rest);
      CharRuns(w[0], IsQuote(w[0]), more + rest, i, st);
      var after := st.(word := st.word + [w[0]]);
      BareWord(w[1..], rest, i + Bytes(text), after);
      WordGrows(st.word, w);
      BytesAppend(text, more);
    }
  }

  /** A quote opens in the middle of a word as well, and what is in it joins the word. */
  lemma QuotedPart(w: string, q: char, rest: string, i: nat, st: State)
    requires IsQuote(q) && '\\' !in w && (rest != "" ==> rest[0] == ' ') && st.quote.None? && !st.escaped
    ensures Run([q] + Escaped(w, q) + [q] + rest, i, st) ==
            Run(rest, i + Bytes([q] + Escaped(w, q) + [q]), st.(word := st.word + w))
  {
    hide Run;
    OpensAndFills(w, q, [q] + rest, i, st);
    ConcatAssoc([q] + Escaped(w, q), [q], rest);
    BytesAppend([q] + Escaped(w, q), [q]);
    assert Bytes([q]) == 1 by { assert [q][1..] == ""; }
    RunCons(q, rest, i + Bytes([q] + Escaped(w, q)), st.(quote := Some(Quote(q, i + 1)), word := st.word + w));
  }

  lemma OpensAndFills(w: string, q: char, rest: string, i: nat, st: State)
    requires IsQuote(q) && '\\' !in w && st.quote.None? && !st.escaped
    ensures Run([q] + Escaped(w, q) + rest, i, st) ==
            Run(rest, i + Bytes([q] + Escaped(w, q)), st.(quote := Some(Quote(q, i + 1)), word := st.word + w))
  {
    hide Run;
    var open := st.(quote := Some(Quote(q, i + 1)));
    assert [q] + Escaped(w, q) + rest == [q] + (Escaped(w, q) + rest);
    RunCons(q, Escaped(w, q) + rest, i, st);
    BytesAppend([q], Escaped(w, q));
    assert Bytes([q]) == 1 by { assert [q][1..] == ""; }
    InnerWord(w, q, rest, i + 1, open);
  }

  lemma OneWord(w: string, style: Style, rest: string, i: nat, fields: seq<string>)
    requires Fits(w, style) && '\\' !in w && ' ' !in w[..style.bare] && (rest != "" ==> rest[0] == ' ')
    ensures Run(PrintedWord(w, style) + rest, i, State(fields, None, false, "")) ==
            Run(rest, i + Bytes(PrintedWord(w, style)), State(fields, None, false, w))
  {
    hide Run, Bare, Escaped, Bytes;
    var a, b := w[..style.bare], w[style.bare..];
    assert a + b == w && '\\' !in a && '\\' !in b && "" + a == a;
    var st := State(fields, None, false, a);
    if style.quote.None? {
      assert a == w && Bare(a) + "" == Bare(a);
      BareWord(a, rest, i, st.(word := ""));
    } else {
      var q := style.quote.value;
      var inner := [q] + Escaped(b, q) + [q];
      ConcatAssoc(Bare(a), inner, rest);
      BareWord(a, inner + rest, i, st.(word := ""));
      QuotedPart(b, q, rest, i + Bytes(Bare(a)), st);
      BytesAppend(Bare(a), inner);
    }
  }

  lemma PrintedStep(words: seq<string>, styles: seq<Style>)
    requires AllFit(words, styles) && words != []
    ensures AllFit(words[1..], styles[1..])
    ensures Printed(words, styles) ==
            PrintedWord(words[0], styles[0]) + if |words| == 1 then "" else [' '] + Printed(words[1..], styles[1..])
  {
    hide PrintedWord;
  }

  /** The printed words are read back, in front of whatever ends the last one. */
  lemma {:induction false} PrintedRuns(words: seq<string>, styles: seq<Style>, rest: string, i: nat,
                                       fields: seq<string>)
    requires AllFit(words, styles) && SpacesQuoted(words, styles) && NoBackslash(words) && words != []
    requires rest != "" ==> rest[0] == ' '
    ensures Run(Printed(words, styles) + rest, i, State(fields, None, false, "")) ==
            Run(rest, i + Bytes(Printed(words, styles)),
                State(fields + words[..|words| - 1], None, false, words[|words| - 1]))
    decreases |words|
  {
    hide Run, PrintedWord, Printed, Step, Bytes;
    var w, first := words[0], PrintedWord(words[0], styles[0]);
    PrintedStep(words, styles);
    if |words| == 1 {
      OneWord(w, styles[0], rest, i, fields);
      assert first + "" == first && fields + words[..0] == fields;
    } else {
      var more := Printed(words[1..], styles[1..]);
      var at := i + Bytes(first);
      ConcatAssoc(first, [' '] + more, rest);
      ConcatAssoc([' '], more, rest);
      OneWord(w, styles[0], [' '] + (more + rest), i, fields);
      SpaceEndsWord(more + rest, at, State(fields, None, false, w));
      assert forall k :: 0 <= k < |words| - 1 ==> words[1..][k] == words[k + 1] && styles[1..][k] == styles[k + 1];
      PrintedRuns(words[1..], styles[1..], rest, at + 1, fields + [w]);
      assert fields + [w] + words[1..][..|words| - 2] == fields + words[..|words| - 1];
      BytesAppend(first, [' '] + more);
      BytesAppend([' '], more);
      SpaceIsOneByte();
    }
  }

  lemma SpaceIsOneByte()
    ensures Bytes([' ']) == 1
  {
    assert [' '][1..] == "";
  }

  lemma SpaceEndsWord(rest: string, i: nat, st: State)
    requires st.quote.None?
    ensures Run([' '] + rest, i, st) == Run(rest, i + 1, st.(fields := st.fields + [st.word], word := ""))
  {
    hide Run;
    RunCons(' ', rest, i, st);
  }

  lemma RunNothing(i: nat, st: State)
    ensures Run("", i, st) == Ok(st)
  {
  }

  /** The tokenizer drops every backslash. */
  lemma {:induction false} NeverBackslash(s: string, i: nat, st: State)
    requires NoBackslash(st.fields) && '\\' !in st.word
    ensures var r := Run(s, i, st); r.Ok? ==> NoBackslash(r.value.fields) && '\\' !in r.value.word
    decreases |s|
  {
    if s != "" {
      var r := Step(st, s[0], if |s| > 1 then s[1] else ' ', i);
      if r.Ok? {
        NeverBackslash(s[1..], i + Width(s[0]), r.value);
      }
    }
  }

  lemma ParsedHasNoBackslash(s: string)
    ensures Parse(s).Ok? ==> NoBackslash(Parse(s).value)
  {
    hide Run;
    NeverBackslash(s, 0, START);
  }

  // ----- Printing and parsing -----

  lemma {:induction false} FieldsGrow(s: string, i: nat, st: State)
    ensures Run(s, i, st).Ok? ==> st.fields <= Run(s, i, st).value.fields
    decreases |s|
  {
    hide Step;
    if s != "" {
      var next := if |s| > 1 then s[1] else ' ';
      StepGrows(st, s[0], next, i);
      var r := Step(st, s[0], next, i);
      if r.Ok? {
        FieldsGrow(s[1..], i + Width(s[0]), r.value);
      }
    }
  }

  lemma StepGrows(st: State, c: char, next: char, i: nat)
    ensures Step(st, c, next, i).Ok? ==> st.fields <= Step(st, c, next, i).value.fields
  {
  }

  lemma FinishKeeps(r: Result<State, QuoteError>, fields: seq<string>)
    requires r.Ok? ==> fields <= r.value.fields
    ensures Finish(r).Ok? ==> fields <= Finish(r).value
  {
  }

  function FirstSpace(s: string): (n: nat)
    requires ' ' in s
    ensures n < |s| && s[n] == ' ' && ' ' !in s[..n]
  {
    if s[0] == ' ' then 0
    else
      var n := FirstSpace(s[1..]);
      assert s[..n + 1] == [s[0]] + s[1..][..n];
      n + 1
  }

  lemma {:induction false} BareAppend(a: string, b: string)
    ensures Bare(a + b) == Bare(a) + Bare(b)
  {
    hide *;
    BareCons(a);
    if a == "" {
      assert a + b == b && "" + Bare(b) == Bare(b);
    } else {
      BareAppend(a[1..], b);
      BareCons(a + b);
      assert (a + b)[0] == a[0] && (a + b)[1..] == a[1..] + b;
      ConcatAssoc(BareByte(a[0]), Bare(a[1..]), Bare(b));
    }
  }

  lemma BareCons(a: string)
    ensures Bare("") == ""
    ensures a != "" ==> Bare(a) == BareByte(a[0]) + Bare(a[1..])
  {
  }

  /** A space outside quotes cuts the word: what is in front of it becomes a field of its own. */
  lemma SpaceCuts(w: string, style: Style, rest: string, i: nat, fields: seq<string>)
    requires Fits(w, style) && '\\' !in w && ' ' in w[..style.bare]
    ensures var r := Run(PrintedWord(w, style) + rest, i, State(fields, None, false, ""));
            r.Ok? ==> exists v :: |v| < |w| && fields + [v] <= r.value.fields
  {
    hide Run, PrintedWord, Bare;
    var v, more := CutPrinted(w, style, rest);
    CutRuns(v, more, i, fields);
  }

  lemma CutPrinted(w: string, style: Style, rest: string) returns (v: string, more: string)
    requires Fits(w, style) && ' ' in w[..style.bare]
    ensures |v| < |w| && v <= w && ' ' !in v
    ensures PrintedWord(w, style) + rest == Bare(v) + ([' '] + more)
  {
    hide Bare, Escaped, PrintedWord, Quoted;
    var a := w[..style.bare];
    var n := FirstSpace(a);
    v := a[..n];
    var u, tail := a[n + 1..], Quoted(w[style.bare..], style.quote);
    more := Bare(u) + tail + rest;
    assert a == v + ([' '] + u) && v == w[..n];
    BareAppend(v, [' '] + u);
    BareAppend([' '], u);
    SpaceIsBare();
    PrintedIs(w, style);
    CutText(Bare(v), Bare(u), tail, rest);
  }

  lemma CutRuns(v: string, more: string, i: nat, fields: seq<string>)
    requires '\\' !in v && ' ' !in v
    ensures var r := Run(Bare(v) + ([' '] + more), i, State(fields, None, false, ""));
            r.Ok? ==> fields + [v] <= r.value.fields
  {
    hide *;
    var st := State(fields, None, false, "");
    assert "" + v == v;
    BareWord(v, [' '] + more, i, st);
    var at := i + Bytes(Bare(v));
    SpaceEndsWord(more, at, st.(word := v));
    FieldsGrow(more, at + 1, State(fields + [v], None, false, ""));
  }

  lemma PrintedIs(w: string, style: Style)
    requires Fits(w, style)
    ensures PrintedWord(w, style) == Bare(w[..style.bare]) + Quoted(w[style.bare..], style.quote)
  {
    hide Bare, Quoted;
  }

  lemma CutText(v: string, u: string, tail: string, rest: string)
    ensures v + ([' '] + u) + tail + rest == v + ([' '] + (u + tail + rest))
  {
    ConcatAssoc(v, [' '] + u, tail);
    ConcatAssoc(v, [' '] + u + tail, rest);
    ConcatAssoc([' '], u, tail);
    ConcatAssoc([' '], u + tail, rest);
  }

  lemma SpaceIsBare()
    ensures Bare([' ']) == [' ']
  {
    assert [' '][1..] == "";
  }

  /** With a space outside quotes the words do not come back. */
  lemma {:induction false} SpaceTells(words: seq<string>, styles: seq<Style>, i: nat, fields: seq<string>)
    requires AllFit(words, styles) && NoBackslash(words) && !SpacesQuoted(words, styles)
    ensures var r := Finish(Run(Printed(words, styles), i, State(fields, None, false, "")));
            r.Ok? ==> r.value != fields + words
    decreases |words|
  {
    hide Run, PrintedWord, Printed, Step, Bytes;
    PrintedStep(words, styles);
    var w, first := words[0], PrintedWord(words[0], styles[0]);
    var rest := if |words| == 1 then "" else [' '] + Printed(words[1..], styles[1..]);
    var r := Run(first + rest, i, State(fields, None, false, ""));
    if ' ' in w[..styles[0].bare] {
      SpaceCuts(w, styles[0], rest, i, fields);
      if r.Ok? {
        var v :| |v| < |w| && fields + [v] <= r.value.fields;
        FinishKeeps(r, fields + [v]);
        OtherWord(fields, v, words, Finish(r));
      }
    } else {
      var at := i + Bytes(first);
      assert |words| > 1;
      OneWord(w, styles[0], rest, i, fields);
      SpaceEndsWord(Printed(words[1..], styles[1..]), at, State(fields, None, false, w));
      assert forall k :: 0 <= k < |words| - 1 ==> words[1..][k] == words[k + 1] && styles[1..][k] == styles[k + 1];
      SpaceTells(words[1..], styles[1..], at + 1, fields + [w]);
      assert fields + [w] + words[1..] == fields + words;
    }
  }

  lemma OtherWord(fields: seq<string>, v: string, words: seq<string>, r: Result<seq<string>, QuoteError>)
    requires words != [] && |v| < |words[0]| && (r.Ok? ==> fields + [v] <= r.value)
    ensures r.Ok? ==> r.value != fields + words
  {
    if r.Ok? {
      assert r.value[|fields|] == v && (fields + words)[|fields|] == words[0];
    }
  }

  /**
    Words printed bare, in either kind of quote, or bare up to a quote, each in
    its own style, come back from the parser exactly when none holds a
    backslash, none has a space outside its quotes, and the last is not empty.
   */
  lemma PrintedParses(words: seq<string>, styles: seq<Style>)
    requires AllFit(words, styles)
    ensures Parse(Printed(words, styles)) == Ok(words) <==>
            && NoBackslash(words) && SpacesQuoted(words, styles)
            && (words == [] || words[|words| - 1] != "")
  {
    hide Run, Printed, NoBackslash, SpacesQuoted;
    ParsedHasNoBackslash(Printed(words, styles));
    if words == [] {
      PrintedNothing();
    } else if NoBackslash(words) {
      if SpacesQuoted(words, styles) {
        PrintedRuns(words, styles, "", 0, []);
        assert Printed(words, styles) + "" == Printed(words, styles);
        RunNothing(Bytes(Printed(words, styles)),
                   State([] + words[..|words| - 1], None, false, words[|words| - 1]));
        assert words == words[..|words| - 1] + [words[|words| - 1]];
        assert [] + words[..|words| - 1] == words[..|words| - 1];
        assert |words[..|words| - 1]| < |words|;
      } else {
        SpaceTells(words, styles, 0, []);
        assert [] + words == words;
      }
    }
  }

  lemma PrintedNothing()
    ensures Printed([], []) == "" && Parse("") == Ok([]) && NoBackslash([]) && SpacesQuoted([], [])
  {
  }

  function Spaces(n: nat): string {
    seq(n, _ => ' ')
  }

  function Empties(n: nat): seq<string> {
    seq(n, _ => "")
  }

  lemma {:induction false} SpacesRun(n: nat, rest: string, i: nat, st: State)
    requires st.quote.None? && n > 0
    ensures Run(Spaces(n) + rest, i, st) ==
            Run(rest, i + n, st.(fields := st.fields + [st.word] + Empties(n - 1), word := ""))
  {
    hide Run;
    assert Spaces(n) + rest == [' '] + (Spaces(n - 1) + rest);
    SpaceEndsWord(Spaces(n - 1) + rest, i, st);
    if n == 1 {
      assert Spaces(0) + rest == rest && st.fields + [st.word] + Empties(0) == st.fields + [st.word];
    } else {
      var next := st.(fields := st.fields + [st.word], word := "");
      SpacesRun(n - 1, rest, i + 1, next);
      assert next.fields + [""] + Empties(n - 2) == st.fields + [st.word] + Empties(n - 1);
    }
  }

  /** Every further space between two words makes an empty word. */
  lemma SpacesMakeEmptyWords(v: string, w: string, n: nat)
    requires n > 0 && w != ""
    requires ' ' !in v && ' ' !in w && '\\' !in v && '\\' !in w
    ensures Parse(Bare(v) + Spaces(n) + Bare(w)) == Ok([v] + Empties(n - 1) + [w])
  {
    hide Run, Bare, Bytes;
    var tail := Spaces(n) + Bare(w);
    ConcatAssoc(Bare(v), Spaces(n), Bare(w));
    assert "" + v == v && "" + w == w && Bare(w) + "" == Bare(w) && [] + [v] == [v];
    BareWord(v, tail, 0, START);
    SpacesRun(n, Bare(w), Bytes(Bare(v)), START.(word := v));
    var st := State([v] + Empties(n - 1), None, false, "");
    var at := Bytes(Bare(v)) + n;
    BareWord(w, "", at, st);
    RunNothing(at + Bytes(Bare(w)), st.(word := w));
  }

  // ----- Backslashes -----

  /** In front of anything but a quote or a space outside quotes, a backslash changes nothing but positions. */
  lemma BackslashVanishes(c: char, rest: string, i: nat, st: State)
    requires !IsQuote(c) && (c == ' ' ==> st.quote.Some?)
    ensures Run(['\\', c] + rest, i, st) == Run([c] + rest, i + 1, if c == '\\' then st else st.(escaped := false))
  {
    hide Run;
    assert ['\\', c] + rest == ['\\'] + ([c] + rest);
    RunCons('\\', [c] + rest, i, st);
    RunCons(c, rest, i + 1, st.(escaped := true));
    RunCons(c, rest, i + 1, if c == '\\' then st else st.(escaped := false));
  }

  /** A backslash outlasts the spaces behind it: they still end words, and the quote behind them is literal. */
  lemma BackslashOutlastsSpaces(v: string, n: nat, q: char, w: string)
    requires n > 0 && IsQuote(q) && ' ' !in v && ' ' !in w && '\\' !in v && '\\' !in w
    ensures Parse(Bare(v) + ['\\'] + Spaces(n) + [q] + Bare(w)) == Ok([v] + Empties(n - 1) + [[q] + w])
  {
    hide *;
    var tail := [q] + Bare(w);
    var at := Bytes(Bare(v));
    BackslashText(Bare(v), Spaces(n), [q], Bare(w));
    ParseIs(Bare(v) + ['\\'] + Spaces(n) + [q] + Bare(w));
    SpacesAfter(v, n, tail);
    LiteralWord([v] + Empties(n - 1), q, w, at + 1 + n);
  }

  lemma SpacesAfter(v: string, n: nat, tail: string)
    requires n > 0 && ' ' !in v && '\\' !in v
    ensures Run(Bare(v) + (['\\'] + (Spaces(n) + tail)), 0, State([], None, false, "")) ==
            Run(tail, Bytes(Bare(v)) + 1 + n, State([v] + Empties(n - 1), None, true, ""))
  {
    hide *;
    var start := State([], None, false, "");
    var at := Bytes(Bare(v));
    assert "" + v == v;
    BareWord(v, ['\\'] + (Spaces(n) + tail), 0, start);
    BackslashRuns(Spaces(n) + tail, at, start.(word := v));
    SpacesRun(n, tail, at + 1, start.(word := v, escaped := true));
    assert [] + [v] == [v];
  }

  lemma LiteralWord(fields: seq<string>, q: char, w: string, i: nat)
    requires IsQuote(q) && ' ' !in w && '\\' !in w
    ensures Finish(Run([q] + Bare(w), i, State(fields, None, true, ""))) == Ok(fields + [[q] + w])
  {
    hide *;
    var st := State(fields, None, false, "");
    LiteralRuns(q, Bare(w), i, st.(escaped := true));
    assert Bare(w) + "" == Bare(w);
    BareWord(w, "", i + 1, st.(word := [q]));
    RunNothing(i + 1 + Bytes(Bare(w)), st.(word := [q] + w));
    FinishesWord(fields, [q] + w);
  }

  lemma BackslashText(v: string, spaces: string, q: string, w: string)
    ensures v + ['\\'] + spaces + q + w == v + (['\\'] + (spaces + (q + w)))
  {
    ConcatAssoc(v + ['\\'] + spaces, q, w);
    ConcatAssoc(v + ['\\'], spaces, q + w);
    ConcatAssoc(v, ['\\'], spaces + (q + w));
  }

  lemma BackslashRuns(rest: string, i: nat, st: State)
    ensures Run(['\\'] + rest, i, st) == Run(rest, i + 1, st.(escaped := true))
  {
    hide Run;
    RunCons('\\', rest, i, st);
  }

  lemma LiteralRuns(q: char, rest: string, i: nat, st: State)
    requires IsQuote(q) && st.escaped && st.word == ""
    ensures Run([q] + rest, i, st) == Run(rest, i + 1, st.(escaped := false, word := [q]))
  {
    hide Run;
    RunCons(q, rest, i, st);
    assert "" + [q] == [q];
  }

  lemma FinishesWord(fields: seq<string>, word: string)
    requires word != ""
    ensures Finish(Ok(State(fields, None, false, word))) == Ok(fields + [word])
  {
  }

  lemma ParseIs(s: string)
    ensures Parse(s) == Finish(Run(s, 0, START)) && START == State([], None, false, "")
  {
    hide Run, Finish;
  }

  // ----- Errors -----

  /** Behind printed words and a space, a quote that is never closed is reported with its place. */
  lemma OpenQuoteIsReported(words: seq<string>, styles: seq<Style>, v: string, q: char, w: string)
    requires AllFit(words, styles) && SpacesQuoted(words, styles) && NoBackslash(words) && words != []
    requires IsQuote(q) && '\\' !in v && ' ' !in v && '\\' !in w
    ensures var front := Printed(words, styles) + ([' '] + Bare(v));
            Parse(front + ([q] + Escaped(w, q))) == Err(Unmatched(q, Bytes(front) + 1))
  {
    hide Run, Bare, Escaped, Bytes, Printed, Step;
    var front := Printed(words, styles) + ([' '] + Bare(v));
    var tail := [q] + Escaped(w, q);
    Front(words, styles, v, tail);
    LastQuote(w, q, Bytes(front), State(words, None, false, v));
    ConcatAssoc(Printed(words, styles), [' '] + Bare(v), tail);
  }

  /** The state behind printed words, a space and the beginning of a bare word. */
  lemma Front(words: seq<string>, styles: seq<Style>, v: string, tail: string)
    requires AllFit(words, styles) && SpacesQuoted(words, styles) && NoBackslash(words) && words != []
    requires '\\' !in v && ' ' !in v
    ensures var front := Printed(words, styles) + ([' '] + Bare(v));
            Run(front + tail, 0, START) == Run(tail, Bytes(front), State(words, None, false, v))
  {
    hide Run, Bare, Escaped, Bytes, Printed, Step;
    var text := Printed(words, styles);
    PrintedRuns(words, styles, [' '] + (Bare(v) + tail), 0, []);
    ConcatAssoc(text, [' '] + Bare(v), tail);
    ConcatAssoc([' '], Bare(v), tail);
    var n := |words| - 1;
    SpaceEndsWord(Bare(v) + tail, Bytes(text), State([] + words[..n], None, false, words[n]));
    assert [] + words[..n] + [words[n]] == words && "" + v == v;
    BareWord(v, tail, Bytes(text) + 1, State(words, None, false, ""));
    BytesAppend(text, [' '] + Bare(v));
    BytesAppend([' '], Bare(v));
    SpaceIsOneByte();
  }

  lemma LastQuote(w: string, q: char, i: nat, st: State)
    requires IsQuote(q) && '\\' !in w && st.quote.None? && !st.escaped
    ensures Finish(Run([q] + Escaped(w, q), i, st)) == Err(Unmatched(q, i + 1))
  {
    hide Run, Escaped, Bytes;
    RunCons(q, Escaped(w, q), i, st);
    var open := st.(quote := Some(Quote(q, i + 1)));
    assert Escaped(w, q) + "" == Escaped(w, q);
    InnerWord(w, q, "", i + 1, open);
    RunNothing(i + 1 + Bytes(Escaped(w, q)), open.(word := open.word + w));
  }

  /** A closing quote that is followed by anything but a space is reported with its own place. */
  lemma ClosingQuoteIsReported(words: seq<string>, styles: seq<Style>, v: string, q: char, w: string, rest: string)
    requires AllFit(words, styles) && SpacesQuoted(words, styles) && NoBackslash(words) && words != []
    requires IsQuote(q) && '\\' !in v && ' ' !in v && '\\' !in w && rest != "" && rest[0] != ' '
    ensures var front := Printed(words, styles) + ([' '] + Bare(v)) + ([q] + Escaped(w, q));
            Parse(front + ([q] + rest)) == Err(Unmatched(q, Bytes(front) + 1))
  {
    hide Run, Bare, Escaped, Bytes, Printed;
    var front := Printed(words, styles) + ([' '] + Bare(v));
    var inner := [q] + Escaped(w, q);
    Front(words, styles, v, inner + ([q] + rest));
    ConcatAssoc(front, inner, [q] + rest);
    var st := State(words, None, false, v);
    OpensAndFills(w, q, [q] + rest, Bytes(front), st);
    RunCons(q, rest, Bytes(front) + Bytes(inner), st.(quote := Some(Quote(q, Bytes(front) + 1)), word := v + w));
    BytesAppend(front, inner);
  }
}
