/**
  Rewriting preserves meaning: reading the rewritten query again gives the same
  literals and comments, and the same binds under their driver names.
 */
module Relex {
  import opened Text
  import opened BindNames
  import opened SqlLexer
  import opened BindTokens
  import opened Lookahead

  // ----- One code run -----

  /** Nothing after a dropped marker reads on as part of the bind or as another marker. */
  predicate AfterMarkClean(rest: string) {
    (rest == "" || !IsNameBody(rest[0])) && MarkLen(rest) == 0
  }

  predicate RunClean(x: string)
    decreases |x|
  {
    x == "" ||
    ((BindAt(x) && MarkLen(x[BindEnd(x)..]) > 0 ==> AfterMarkClean(x[Width(x)..])) && RunClean(x[Width(x)..]))
  }

  lemma NameOfBind(x: string)
    requires BindAt(x)
    ensures var name := x[1..BindEnd(x)];
            && name != "" && IsNameStart(name[0])
            && forall i :: 0 <= i < |name| ==> IsNameBody(name[i])
  {
    hide IsNameBody;
    var name := x[1..BindEnd(x)];
    assert forall i :: 0 <= i < |name| ==> name[i] == x[1..][i];
  }

  lemma RewriteBind(x: string)
    requires BindAt(x)
    ensures RewriteRun(x) == ":" + Encode(x[1..BindEnd(x)]) + RewriteRun(x[Width(x)..])
    ensures AllForDriver(Tokens(x)) == [Bind(Encode(x[1..BindEnd(x)]), "")] + AllForDriver(Tokens(x[Width(x)..]))
  {
    hide Tokens, RewriteRun, MarkLen, BindEnd, AllForDriver;
    TokenStep(x, 0);
    Cons(First(x), Tokens(x[Width(x)..]), 0);
    assert TokenText(Bind(Encode(x[1..BindEnd(x)]), "")) == ":" + Encode(x[1..BindEnd(x)]);
  }

  lemma RewritePlain(x: string)
    requires x != "" && !BindAt(x)
    ensures RewriteRun(x) == [x[0]] + RewriteRun(x[1..])
    ensures AllForDriver(Tokens(x)) == [Plain(x[0])] + AllForDriver(Tokens(x[1..]))
    ensures Tokens(x) == [Plain(x[0])] + Tokens(x[1..])
  {
    hide RewriteRun, AllForDriver, BindAt;
    TokenStep(x, 0);
    Cons(Plain(x[0]), Tokens(x[1..]), 0);
  }

  /** The rewritten run looks like the run, whatever alike texts follow them. */
  lemma {:induction false} RunAlike(x: string, a: string, b: string)
    requires Alike(a, b)
    ensures Alike(x + a, RewriteRun(x) + b)
    decreases |x|
  {
    hide *;
    if x == "" {
      EmptyRun();
      assert x + a == a && "" + b == b;
    } else if BindAt(x) {
      RewriteBind(x);
      BindColon(x);
      var y := x[1..] + a;
      var z := Encode(x[1..BindEnd(x)]) + RewriteRun(x[Width(x)..]) + b;
      AlikeColon(y, z);
      assert x + a == ":" + y;
      assert RewriteRun(x) + b == ":" + z;
    } else {
      RewritePlain(x);
      RunAlike(x[1..], a, b);
      AlikeCons(x[0], x[1..] + a, RewriteRun(x[1..]) + b);
      assert x + a == [x[0]] + (x[1..] + a);
      assert RewriteRun(x) + b == [x[0]] + (RewriteRun(x[1..]) + b);
    }
  }

  lemma BindColon(x: string)
    requires BindAt(x)
    ensures x == ":" + x[1..]
  {
  }

  lemma EmptyRun()
    ensures RewriteRun("") == "" && Tokens("") == [] && AllForDriver([]) == [] && RunClean("")
    ensures Alike("", "")
  {
  }

  lemma DriverBindAt(name: string, r: string)
    requires name != "" && IsNameStart(name[0]) && forall i :: 0 <= i < |name| ==> IsNameBody(name[i])
    ensures BindAt(":" + Encode(name) + r)
    ensures BindEnd(":" + Encode(name) + r) == 1 + |Encode(name)| + NameLen(r)
  {
    hide IsNameBody, MarkLen, Encode, NameLen, IsNameStart;
    EncodeIsPlain(name);
    StartNotMarked(name[0]);
    var out := ":" + Encode(name) + r;
    assert out[1..] == Encode(name) + r;
    assert out[1] == Encode(name)[0];
    NameLenOfPrefix(Encode(name), r);
  }

  /** How `:` followed by a driver name and the text r is read. */
  lemma ReadBack(name: string, r: string)
    requires name != "" && IsNameStart(name[0]) && forall i :: 0 <= i < |name| ==> IsNameBody(name[i])
    ensures var e := Encode(name); var out := ":" + e + r;
            && BindAt(out)
            && (r == "" || !IsNameBody(r[0]) ==>
                First(out) == Bind(e, r[..MarkLen(r)]) && out[Width(out)..] == r[MarkLen(r)..])
            && (r != "" && IsNameBody(r[0]) ==> First(out).Bind? && First(out).name != e)
  {
    hide IsNameBody, MarkLen, Encode, BindEnd, BindAt, IsNameStart;
    DriverBindAt(name, r);
    var e := Encode(name);
    var out := ":" + e + r;
    var n := BindEnd(out);
    if r == "" || !IsNameBody(r[0]) {
      assert n == 1 + |e|;
      SplitBind(e, r);
    } else {
      assert |out[1..n]| > |e|;
    }
  }

  lemma SplitBind(e: string, r: string)
    ensures var out := ":" + e + r; var n := 1 + |e|;
            out[1..n] == e && out[n..] == r && forall m :: 0 <= m <= |r| ==> out[n + m..] == r[m..]
  {
    var out := ":" + e + r;
    forall m | 0 <= m <= |r| ensures out[1 + |e| + m..] == r[m..] {
    }
  }

  lemma StartNotMarked(c: char)
    requires IsNameStart(c)
    ensures !IsMarked(c) && IsNameBody(c)
  {
  }

  lemma {:induction false} NameLenOfPrefix(e: string, r: string)
    requires forall i :: 0 <= i < |e| ==> IsNameBody(e[i])
    ensures NameLen(e + r) == |e| + NameLen(r)
  {
    if e == "" {
      assert e + r == r;
    } else {
      assert (e + r)[1..] == e[1..] + r;
      NameLenOfPrefix(e[1..], r);
    }
  }

  lemma UnmarkedIsClean(x: string)
    requires BindAt(x) && MarkLen(x[BindEnd(x)..]) == 0
    ensures AfterMarkClean(x[Width(x)..])
  {
    hide MarkLen, IsNameBody;
    var n := BindEnd(x);
    assert n < |x| ==> x[1..][n - 1] == x[n..][0];
  }

  lemma CleanFirst(rest: string)
    requires AfterMarkClean(rest)
    ensures rest == "" || !IsNameBody(rest[0])
  {
    hide IsNameBody, MarkLen;
  }

  lemma CleanAlike(a: string, b: string)
    requires Alike(a, b)
    ensures AfterMarkClean(a) <==> AfterMarkClean(b)
  {
    hide Alike, MarkLen, IsNameBody;
    AlikeFirst(a, b);
    MarkLenAlike(a, b);
  }

  /** The rewritten run reads back as its driver tokens exactly when it is clean. */
  lemma {:induction false} RunReadsBack(x: string)
    ensures Tokens(RewriteRun(x)) == AllForDriver(Tokens(x)) <==> RunClean(x)
    decreases |x|
  {
    hide *;
    if x == "" {
      EmptyRun();
    } else {
      var rest := x[Width(x)..];
      var r := RewriteRun(rest);
      var out := RewriteRun(x);
      EmptyRun();
      RunAlike(rest, "", "");
      assert rest + "" == rest && r + "" == r;
      RunReadsBack(rest);
      RunCleanStep(x);
      if BindAt(x) {
        NameOfBind(x);
        RewriteBind(x);
        ReadBack(x[1..BindEnd(x)], r);
        TokenStep(out, 0);
        CleanAlike(rest, r);
        BindCase(Encode(x[1..BindEnd(x)]), out, r, AllForDriver(Tokens(rest)));
      } else {
        RewritePlain(x);
        TokenStep(x, 0);
        PlainAlike(x);
        RewritePlain2(out, x[0], r);
        HeadsMatch(Plain(x[0]), Tokens(r), AllForDriver(Tokens(rest)));
      }
    }
  }

  lemma RunCleanStep(x: string)
    requires x != ""
    ensures RunClean(x) <==>
            (BindAt(x) ==> AfterMarkClean(x[Width(x)..])) && RunClean(x[Width(x)..])
  {
    hide AfterMarkClean, MarkLen, BindAt, BindEnd;
    if BindAt(x) && MarkLen(x[BindEnd(x)..]) == 0 {
      UnmarkedIsClean(x);
    }
  }

  lemma HeadsMatch(t: Token, a: seq<Token>, b: seq<Token>)
    ensures [t] + a == [t] + b <==> a == b
  {
    assert ([t] + a)[1..] == a && ([t] + b)[1..] == b;
  }

  lemma BindCase(e: string, out: string, r: string, rest: seq<Token>)
    requires out != "" && BindAt(out) && Tokens(out) == [First(out)] + Tokens(out[Width(out)..])
    requires r == "" || !IsNameBody(r[0]) ==>
               First(out) == Bind(e, r[..MarkLen(r)]) && out[Width(out)..] == r[MarkLen(r)..]
    requires r != "" && IsNameBody(r[0]) ==> First(out).Bind? && First(out).name != e
    ensures Tokens(out) == [Bind(e, "")] + rest <==> AfterMarkClean(r) && Tokens(r) == rest
  {
    hide Tokens, MarkLen, BindAt, Width, First, IsNameBody;
    assert Tokens(out)[0] == First(out);
    HeadsMatch(Bind(e, ""), Tokens(out[Width(out)..]), rest);
    assert r[0..] == r;
  }

  lemma PlainAlike(x: string)
    requires x != "" && !BindAt(x)
    ensures !BindAt([x[0]] + RewriteRun(x[1..]))
  {
    hide RewriteRun, Alike;
    EmptyRun();
    RunAlike(x[1..], "", "");
    assert x[1..] + "" == x[1..] && RewriteRun(x[1..]) + "" == RewriteRun(x[1..]);
    AlikeFirst(x[1..], RewriteRun(x[1..]));
  }

  lemma RewritePlain2(out: string, c: char, r: string)
    requires out == [c] + r && !BindAt(out)
    ensures Tokens(out) == [Plain(c)] + Tokens(r)
  {
    assert out[1..] == r;
    hide BindAt;
  }

  /** A marker dropped in front of a name byte: the bind swallows the byte. */
  lemma MarkerJoinsBind()
    ensures !RunClean(":a" + MARK + "b") && RewriteRun(":a" + MARK + "b") == ":ab"
  {
    hide CursorLen, Tokens, RewriteRun, RunClean;
    var x, rest := ":a" + MARK + "b", MARK + "b";
    MarkLexes("b");
    assert x[1..] == "a" + rest && rest[0] == '/';
    NameLenOfPrefix("a", rest);
    assert NameLen(rest) == 0 && x[2..] == rest && SpaceLen(rest) == 0 && rest[0..] == rest;
    assert BindAt(x) && BindEnd(x) == 2 && MarkLen(rest) == 10 && Width(x) == 12 && x[12..] == "b" && x[1..2] == "a";
    RunCleanStep(x);
    RewriteBind(x);
    RewritePlain("b");
    EmptyRun();
    EncodeUnchanged("a");
    assert "b"[1..] == "";
  }
}
