/**
  What the lexer sees when the text after a position is rewritten: two texts
  that agree up to their first colon look the same to every token recogniser.
 */
module Lookahead {
  import opened Text
  import opened SqlLexer
  import opened BindTokens

  function FirstColon(s: string): (k: nat)
    ensures k <= |s|
    ensures forall i :: 0 <= i < k ==> s[i] != ':'
    ensures k < |s| ==> s[k] == ':'
  {
    if s == "" || s[0] == ':' then 0 else 1 + FirstColon(s[1..])
  }

  ghost predicate Alike(a: string, b: string) {
    var k := FirstColon(a);
    k == FirstColon(b) && a[..k] == b[..k] && (k == |a| <==> k == |b|)
  }

  lemma AlikeFirst(a: string, b: string)
    requires Alike(a, b)
    ensures a == "" <==> b == ""
    ensures a != "" ==> a[0] == b[0]
  {
    var k := FirstColon(a);
    if k > 0 {
      assert a[..k][0] == a[0] && b[..k][0] == b[0];
    }
  }

  lemma AlikeCons(c: char, a: string, b: string)
    requires Alike(a, b)
    ensures Alike([c] + a, [c] + b)
  {
    assert ([c] + a)[1..] == a && ([c] + b)[1..] == b;
    var k := FirstColon(a);
    assert ([c] + a)[..1 + k] == [c] + a[..k];
    assert ([c] + b)[..1 + k] == [c] + b[..k];
  }

  lemma AlikeColon(a: string, b: string)
    ensures Alike(":" + a, ":" + b)
  {
    assert FirstColon(":" + a) == 0 == FirstColon(":" + b);
  }

  lemma {:induction false} AlikePrefix(x: string, a: string, b: string)
    requires Alike(a, b)
    ensures Alike(x + a, x + b)
  {
    hide Alike;
    if x == "" {
      assert x + a == a && x + b == b;
    } else {
      AlikePrefix(x[1..], a, b);
      AlikeCons(x[0], x[1..] + a, x[1..] + b);
      assert x + a == [x[0]] + (x[1..] + a);
      assert x + b == [x[0]] + (x[1..] + b);
    }
  }

  lemma AlikeTail(a: string, b: string)
    requires Alike(a, b) && a != "" && a[0] != ':'
    ensures b != "" && Alike(a[1..], b[1..])
  {
    AlikeFirst(a, b);
    var k := FirstColon(a);
    assert a[1..][..k - 1] == a[..k][1..];
    assert b[1..][..k - 1] == b[..k][1..];
  }

  lemma {:induction false} AlikeDrop(a: string, b: string, n: nat)
    requires Alike(a, b) && n <= FirstColon(a)
    ensures n <= |b| && Alike(a[n..], b[n..]) && a[..n] == b[..n]
    ensures FirstColon(a[n..]) == FirstColon(a) - n
  {
    hide Alike;
    if n == 0 {
      assert a[0..] == a && b[0..] == b;
    } else {
      AlikeTail(a, b);
      AlikeDrop(a[1..], b[1..], n - 1);
      assert a[1..][n - 1..] == a[n..] && b[1..][n - 1..] == b[n..];
      AlikeFirst(a, b);
      assert a[..n] == [a[0]] + a[1..][..n - 1] && b[..n] == [b[0]] + b[1..][..n - 1];
    }
  }

  lemma {:induction false} SpaceLenAlike(a: string, b: string)
    requires Alike(a, b)
    ensures SpaceLen(a) == SpaceLen(b) <= FirstColon(a)
  {
    hide Alike;
    AlikeFirst(a, b);
    if a != "" && IsSpace(a[0]) {
      AlikeTail(a, b);
      SpaceLenAlike(a[1..], b[1..]);
    }
  }

  lemma AlikeSlice(a: string, b: string, i: nat, n: nat)
    requires Alike(a, b) && i + n <= FirstColon(a)
    ensures i + n <= |b| && a[i..i + n] == b[i..i + n]
  {
    hide Alike;
    AlikeDrop(a, b, i + n);
    assert a[i..i + n] == a[..i + n][i..] && b[i..i + n] == b[..i + n][i..];
  }

  lemma AlikeSymmetric(a: string, b: string)
    requires Alike(a, b)
    ensures Alike(b, a)
  {
  }

  lemma SameCursor(a: string, b: string, n: nat)
    requires 2 <= n <= |a| && n <= |b| && a[..n] == b[..n]
    ensures a[0] == b[0] && a[1] == b[1] && a[n - 2] == b[n - 2] && a[n - 1] == b[n - 1]
  {
    assert a[0] == a[..n][0] && a[1] == a[..n][1] && a[n - 2] == a[..n][n - 2] && a[n - 1] == a[..n][n - 1];
    assert b[0] == b[..n][0] && b[1] == b[..n][1] && b[n - 2] == b[..n][n - 2] && b[n - 1] == b[..n][n - 1];
  }

  /** A cursor comment holds no colon, so texts that are alike share it. */
  lemma CursorIn(a: string, b: string)
    requires Alike(a, b) && CursorLen(a) > 0
    ensures CursorLen(b) == CursorLen(a) <= FirstColon(a)
  {
    hide Alike, CursorLen, FirstColon, SpaceLen, Upper;
    var n := CursorLen(a);
    CursorBeforeColon(a);
    var p := CursorHasParts(a);
    AlikeDrop(a, b, 2);
    SpaceLenAlike(a[2..], b[2..]);
    AlikeSlice(a, b, p, 6);
    AlikeDrop(a, b, p + 6);
    SpaceLenAlike(a[p + 6..], b[p + 6..]);
    AlikeDrop(a, b, n);
    SameCursor(a, b, n);
    PartsAreCursor(b, p, n);
  }

  lemma CursorBeforeColon(s: string)
    ensures CursorLen(s) <= FirstColon(s)
  {
    CursorHasNoColon(s);
  }

  lemma CursorLenAlike(a: string, b: string)
    requires Alike(a, b)
    ensures CursorLen(a) == CursorLen(b)
  {
    hide *;
    AlikeSymmetric(a, b);
    if CursorLen(a) > 0 {
      CursorIn(a, b);
    } else if CursorLen(b) > 0 {
      CursorIn(b, a);
    }
  }

  lemma MarkLenAlike(a: string, b: string)
    requires Alike(a, b)
    ensures MarkLen(a) == MarkLen(b)
  {
    hide Alike, CursorLen;
    SpaceLenAlike(a, b);
    AlikeDrop(a, b, SpaceLen(a));
    CursorLenAlike(a[SpaceLen(a)..], b[SpaceLen(b)..]);
  }

  lemma SecondAlike(a: string, b: string)
    requires Alike(a, b) && a != "" && a[0] != ':'
    ensures b != "" && (|a| > 1 <==> |b| > 1)
    ensures |a| > 1 ==> a[1] == b[1]
  {
    hide Alike;
    AlikeTail(a, b);
    AlikeFirst(a[1..], b[1..]);
  }

  /** Whether code stands at the head of a text is decided by what comes before its first colon. */
  lemma CodeAlike(a: string, b: string)
    requires Alike(a, b) && a != ""
    ensures b != "" && (Head(a).Code? <==> Head(b).Code?)
  {
    hide Alike, CursorLen, QTail;
    AlikeFirst(a, b);
    CursorLenAlike(a, b);
    if a[0] != ':' {
      SecondAlike(a, b);
    }
  }

  // ----- A skipped stretch ends where it ends, whatever code follows it -----

  lemma {:induction false} QuoteTailStable(x: string, a: string, b: string, quote: char)
    requires QuoteTail(x + a, quote) == |x| && Alike(a, b)
    ensures QuoteTail(x + b, quote) == |x|
  {
    hide Alike;
    AlikeFirst(a, b);
    if x == "" {
      assert x + a == a && x + b == b;
    } else if x[0] == quote && |x| > 1 && x[1] == quote {
      assert (x + a)[2..] == x[2..] + a && (x + b)[2..] == x[2..] + b;
      QuoteTailStable(x[2..], a, b, quote);
    } else if x[0] != quote {
      assert (x + a)[1..] == x[1..] + a && (x + b)[1..] == x[1..] + b;
      QuoteTailStable(x[1..], a, b, quote);
    }
  }

  lemma {:induction false} LineTailStable(x: string, a: string, b: string)
    requires LineTail(x + a) == |x| && Alike(a, b)
    ensures LineTail(x + b) == |x|
  {
    hide Alike;
    AlikeFirst(a, b);
    if x == "" {
      assert x + a == a && x + b == b;
    } else {
      assert (x + a)[1..] == x[1..] + a && (x + b)[1..] == x[1..] + b;
      LineTailStable(x[1..], a, b);
    }
  }

  lemma {:induction false} BlockTailStable(x: string, a: string, b: string)
    requires BlockTail(x + a) == |x| && Alike(a, b)
    ensures BlockTail(x + b) == |x|
  {
    hide Alike;
    AlikeFirst(a, b);
    assert "" + a == a;
    if x != "" && a != "" && x != "*/" {
      assert (x + a)[1..] == x[1..] + a && (x + b)[1..] == x[1..] + b;
      BlockTailStable(x[1..], a, b);
    }
  }

  lemma {:induction false} QTailStable(x: string, a: string, b: string, closer: char)
    requires QTail(x + a, closer) == Ok(|x|)
    ensures QTail(x + b, closer) == Ok(|x|)
  {
    assert |x| >= 2;
    if !(x[0] == closer && x[1] == '\'') {
      assert (x + a)[1..] == x[1..] + a && (x + b)[1..] == x[1..] + b;
      QTailStable(x[1..], a, b, closer);
    }
  }

  lemma OpaqueStable(x: string, a: string, b: string)
    requires x != "" && Alike(a, b) && Head(x + a) == Opaque(|x|)
    ensures Head(x + b) == Opaque(|x|)
  {
    hide Alike, CursorLen, QuoteTail, LineTail, BlockTail, QTail, IsSpace;
    var s, t := x + a, x + b;
    AlikePrefix(x, a, b);
    CursorLenAlike(s, t);
    AlikeFirst(s, t);
    OpaqueFirst(s);
    SecondAlike(s, t);
    if x[0] == '\'' || x[0] == '"' {
      assert s[1..] == x[1..] + a && t[1..] == x[1..] + b;
      QuoteTailStable(x[1..], a, b, x[0]);
    } else if x[0] == '-' {
      assert s[2..] == x[2..] + a && t[2..] == x[2..] + b;
      LineTailStable(x[2..], a, b);
    } else if x[0] == '/' {
      assert s[2..] == x[2..] + a && t[2..] == x[2..] + b;
      BlockTailStable(x[2..], a, b);
    } else {
      assert s[2] == x[2] == t[2];
      assert s[3..] == x[3..] + a && t[3..] == x[3..] + b;
      QTailStable(x[3..], a, b, Closer(x[2]));
    }
  }

  /** A skipped stretch does not begin with a colon. */
  lemma OpaqueFirst(s: string)
    requires s != "" && Head(s).Opaque?
    ensures s[0] != ':'
  {
  }
}
