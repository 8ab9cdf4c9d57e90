/** The colon pass over a rewritten query: what it gives back, run by run and text by text. */
module NamesRestored {
  import opened Text
  import opened BindNames
  import opened NameMap
  import opened SqlLexer
  import opened BindTokens
  import opened BindTransform
  import opened Lookahead
  import opened Relex
  import opened RelexQuery
  import opened QueryMeaning
  import opened ReverseNames

  /** No colon of s stands in front of a whole driver name. */
  predicate NoDriverIn(s: string, table: map<string, string>) {
    s == "" || ((s[0] == ':' ==> NameOf(s[1..]) !in table) && NoDriverIn(s[1..], table))
  }

  predicate Unmarked(x: string)
    decreases |x|
  {
    x == "" || ((BindAt(x) ==> MarkLen(x[BindEnd(x)..]) == 0) && Unmarked(x[Width(x)..]))
  }

  /** When a changed bind ends the run against a q-quote, its name with the letter is a bind too. */
  predicate RunReversible(x: string, after: string, m: NameTable)
    decreases |x|
  {
    x != "" ==>
    if Width(x) < |x| then RunReversible(x[Width(x)..], after, m)
    else BindAt(x) && NeedsEncoding(x[1..BindEnd(x)]) && after != "" && IsNameBody(after[0]) ==>
           x[1..BindEnd(x)] + [after[0]] in m.userToDriver
  }

  predicate Reversible(segments: seq<Segment>, m: NameTable) {
    segments != [] ==>
    && (if segments[0].Run? then RunReversible(segments[0].text, Join(segments[1..]), m)
        else NoDriverIn(segments[0].text, m.driverToUser))
    && Reversible(segments[1..], m)
  }

  /** The query's code runs hold no markers and no bad colons, and its names are all registered. */
  predicate Registered(segments: seq<Segment>, m: NameTable) {
    segments != [] ==>
    && (segments[0].Run? ==>
          && Unmarked(segments[0].text) && NoBadStart(segments[0].text)
          && forall n :: n in BindTokens.Names(Tokens(segments[0].text)) ==> n in m.userToDriver)
    && Registered(segments[1..], m)
  }

  lemma RunReversibleStep(x: string, after: string, m: NameTable)
    ensures RunReversible("", after, m)
    ensures x != "" ==>
              (RunReversible(x, after, m) <==>
               if Width(x) < |x| then RunReversible(x[Width(x)..], after, m)
               else BindAt(x) && NeedsEncoding(x[1..BindEnd(x)]) && after != "" && IsNameBody(after[0]) ==>
                      x[1..BindEnd(x)] + [after[0]] in m.userToDriver)
  {
    hide BindAt, NeedsEncoding, IsNameBody;
  }

  // ----- Names under the reverse table -----

  /** A key comes from a changed name and carries a sentinel, so it is longer than one byte. */
  lemma KeyIs(m: NameTable, key: string)
    requires ChangesKnown(m) && key in m.driverToUser
    ensures HasSentinel(key) && |key| > 1
    ensures m.driverToUser[key] in m.userToDriver && NeedsEncoding(m.driverToUser[key])
    ensures Encode(m.driverToUser[key]) == key
  {
    ChangedNamesCarrySentinel(m);
  }

  lemma ChangedKnown(m: NameTable, name: string)
    requires ChangesKnown(m) && NeedsEncoding(name) && name in m.userToDriver
    ensures Encode(name) in m.driverToUser && m.driverToUser[Encode(name)] == name
  {
  }

  lemma KeyUser(m: NameTable, unsafe: set<string>, name: string)
    requires Consistent(m, unsafe) && name in m.userToDriver
    ensures IsUserName(name) && !HasSentinel(name)
  {
  }

  lemma SentinelNotAtQ(name: string, c: char)
    requires c == 'q' || c == 'Q'
    ensures HasSentinel(name + [c]) ==> HasSentinel(name)
  {
    if HasSentinel(name + [c]) {
      var i :| 0 <= i < |name + [c]| && SentinelAt(name + [c], i);
      assert (name + [c])[i + 4] == '_';
      assert forall j :: i <= j < i + 5 ==> (name + [c])[j] == name[j];
      assert SentinelAt(name, i);
    }
  }

  lemma NameFirst(name: string, y: string)
    requires forall i :: 0 <= i < |name| ==> IsNameBody(name[i])
    requires y == "" || !IsNameBody(y[0])
    ensures NameLen(name + y) == |name| && NameOf(name + y) == name && (name + y)[|name|..] == y
  {
    hide IsNameBody;
    NameLenOfPrefix(name, y);
  }

  lemma {:induction false} CopyPrefix(p: string, y: string, table: map<string, string>)
    requires ':' !in p
    ensures ReverseColons(p + y, table) == p + ReverseColons(y, table)
  {
    hide *;
    if p == "" {
      assert p + y == y && p + ReverseColons(y, table) == ReverseColons(y, table);
    } else {
      ReverseStep(p + y, table);
      assert (p + y)[1..] == p[1..] + y;
      assert p[0] in p;
      CopyPrefix(p[1..], y, table);
      assert [p[0]] + (p[1..] + ReverseColons(y, table)) == p + ReverseColons(y, table);
    }
  }

  lemma NamesHaveNoColon(name: string)
    requires forall i :: 0 <= i < |name| ==> IsNameBody(name[i])
    ensures ':' !in name
  {
  }

  lemma ReplaceName(name: string, y: string, table: map<string, string>)
    requires forall i :: 0 <= i < |name| ==> IsNameBody(name[i])
    requires y == "" || !IsNameBody(y[0])
    ensures ReverseColons(":" + name + y, table) ==
            ":" + (if name in table then table[name] else name) + ReverseColons(y, table)
  {
    hide *;
    NameFirst(name, y);
    NamesHaveNoColon(name);
    var s := ":" + name + y;
    ReverseStep(s, table);
    assert s[1..] == name + y && s[1 + |name|..] == y;
    if name !in table {
      CopyPrefix(name, y, table);
      assert [':'] + (name + ReverseColons(y, table)) == ":" + name + ReverseColons(y, table);
    }
  }

  /** The two names differ, so what follows them does not matter. */
  lemma NamesTell(u: string, v: string, s: string, t: string)
    requires forall i :: 0 <= i < |u| ==> IsNameBody(u[i])
    requires forall i :: 0 <= i < |v| ==> IsNameBody(v[i])
    requires s == "" || !IsNameBody(s[0])
    requires t == "" || !IsNameBody(t[0])
    ensures ":" + u + s == ":" + v + t ==> u == v
  {
    hide *;
    NameFirst(u, s);
    NameFirst(v, t);
    assert (":" + u + s)[1..] == u + s && (":" + v + t)[1..] == v + t;
  }

  lemma EncodedTells(name: string, s: string, t: string)
    requires NeedsEncoding(name)
    ensures ":" + Encode(name) + s != ":" + name + t
  {
    hide *;
    var k := EncodeDiverges(name);
    assert (":" + Encode(name) + s)[1 + k] == Encode(name)[k];
    assert (":" + name + t)[1 + k] == name[k];
  }

  /** A registered name comes back from its driver name. */
  lemma OwnName(m: NameTable, unsafe: set<string>, name: string)
    requires Consistent(m, unsafe) && name in m.userToDriver
    ensures var e := Encode(name); (if e in m.driverToUser then m.driverToUser[e] else e) == name
    ensures IsUserName(name)
  {
    hide HasSentinel, NeedsEncoding, IsUserName, UsersKnown, DriversKnown, ChangesKnown;
    KeyUser(m, unsafe, name);
    ChangesOf(m, unsafe);
    if NeedsEncoding(name) {
      ChangedKnown(m, name);
    } else {
      EncodeUnchanged(name);
      if name in m.driverToUser {
        KeyIs(m, name);
      }
    }
  }

  lemma ChangesOf(m: NameTable, unsafe: set<string>)
    requires Consistent(m, unsafe)
    ensures ChangesKnown(m)
  {
  }

  /** The text after a code run that starts with a name byte is a q-quote. */
  lemma NameByteAhead(a: string)
    requires CodeLen(a) == 0 && a != "" && IsNameBody(a[0])
    ensures QQuoteAt(a)
  {
    NameByteIsCode(a);
    CodeStep(a);
  }

  lemma QuoteAlike(a: string, b: string)
    requires Alike(a, b) && QQuoteAt(a)
    ensures QQuoteAt(b) && a[0] == b[0] && !IsNameBody(a[1]) && IsNameBody(a[0])
  {
    AlikeTail(a, b);
    AlikeFirst(a, b);
    AlikeFirst(a[1..], b[1..]);
  }

  lemma NameWithLetter(name: string, c: char)
    requires (forall i :: 0 <= i < |name| ==> IsNameBody(name[i])) && (c == 'q' || c == 'Q')
    ensures Encode(name + [c]) == Encode(name) + [c]
    ensures NeedsEncoding(name + [c]) <==> NeedsEncoding(name)
    ensures forall i :: 0 <= i < |name + [c]| ==> IsNameBody((name + [c])[i])
    ensures forall i :: 0 <= i < |Encode(name) + [c]| ==> IsNameBody((Encode(name) + [c])[i])
  {
    hide Encode, IsNameBody;
    EncodeAppend(name, [c]);
    LetterIsName(c);
    EncodeUnchanged([c]);
    EncodeIsPlain(name);
    assert (name + [c])[|name|] == c;
    if NeedsEncoding(name) {
      var i :| 0 <= i < |name| && IsMarked(name[i]);
      assert (name + [c])[i] == name[i];
    }
  }

  lemma LetterIsName(c: char)
    requires c == 'q' || c == 'Q'
    ensures IsNameBody(c) && !IsMarked(c)
  {
  }

  /** A bind that runs into a q-quote: the table must know its name with the letter. */
  lemma BindAtQuote(name: string, a: string, b: string, m: NameTable, unsafe: set<string>)
    requires Consistent(m, unsafe) && name in m.userToDriver
    requires QQuoteAt(a) && Alike(a, b)
    ensures var out := ReverseColons(":" + Encode(name) + b, m.driverToUser);
            if NeedsEncoding(name) ==> name + [a[0]] in m.userToDriver
            then out == ":" + name + ReverseColons(b, m.driverToUser) else out != ":" + name + a
  {
    hide *;
    QuoteHas(a);
    var table := m.driverToUser;
    var c := a[0];
    KeyUser(m, unsafe, name);
    UserNameBody(name);
    ChangesOf(m, unsafe);
    QuoteAlike(a, b);
    QuoteHas(b);
    NameWithLetter(name, c);
    var e := Encode(name);
    var long, seen, tail := name + [c], e + [c], b[1..];
    assert b == [c] + tail && a == [c] + a[1..];
    assert ":" + e + b == ":" + seen + tail;
    ReplaceName(seen, tail, table);
    CopyPrefix([c], tail, table);
    assert ":" + name + ([c] + ReverseColons(tail, table)) == ":" + long + ReverseColons(tail, table);
    if !NeedsEncoding(name) {
      EncodeUnchanged(name);
      SentinelNotAtQ(name, c);
      NotAKey(m, long);
    } else if long in m.userToDriver {
      ChangedKnown(m, long);
    } else if seen in table {
      WrongUser(m, unsafe, seen, long, tail, a[1..]);
      assert ":" + name + a == ":" + long + a[1..];
    } else {
      assert ":" + seen + ReverseColons(tail, table) == ":" + e + ([c] + ReverseColons(tail, table));
      EncodedTells(name, [c] + ReverseColons(tail, table), a);
    }
  }

  lemma UserNameBody(name: string)
    requires IsUserName(name)
    ensures name != "" && forall i :: 0 <= i < |name| ==> IsNameBody(name[i])
  {
    hide IsNameBody;
  }

  lemma QuoteHas(a: string)
    requires QQuoteAt(a)
    ensures |a| > 1 && (a[0] == 'q' || a[0] == 'Q') && a[1] == '\'' && a[1..] != "" && a[1..][0] == '\''
    ensures !IsNameBody('\'')
  {
  }

  lemma NotAKey(m: NameTable, name: string)
    requires ChangesKnown(m) && !HasSentinel(name)
    ensures name !in m.driverToUser
  {
    hide HasSentinel, ChangesKnown;
    if name in m.driverToUser {
      KeyIs(m, name);
    }
  }

  lemma WrongUser(m: NameTable, unsafe: set<string>, key: string, name: string, tail: string, t: string)
    requires Consistent(m, unsafe) && key in m.driverToUser && name !in m.userToDriver
    requires forall i :: 0 <= i < |name| ==> IsNameBody(name[i])
    requires tail != "" && tail[0] == '\'' && t != "" && t[0] == '\''
    ensures ":" + m.driverToUser[key] + ReverseColons(tail, m.driverToUser) != ":" + name + t
  {
    hide *;
    ChangesOf(m, unsafe);
    KeyIs(m, key);
    var user := m.driverToUser[key];
    KeyUser(m, unsafe, user);
    UserNameBody(user);
    ReverseStep(tail, m.driverToUser);
    QuoteIsNoName();
    NamesTell(user, name, ReverseColons(tail, m.driverToUser), t);
  }

  lemma QuoteIsNoName()
    ensures !IsNameBody('\'')
  {
  }

  /** A bind in front of its rewritten run. */
  lemma BindReverse(x: string, a: string, y: string, m: NameTable, unsafe: set<string>)
    requires Consistent(m, unsafe) && BindAt(x) && x[1..BindEnd(x)] in m.userToDriver
    requires MarkLen(x[BindEnd(x)..]) == 0 && CodeLen(a) == 0 && Alike(x[Width(x)..] + a, y)
    ensures var name, rest := x[1..BindEnd(x)], x[Width(x)..];
            var out := ReverseColons(":" + Encode(name) + y, m.driverToUser);
            && x == ":" + name + rest
            && (if Width(x) == |x| && !RunReversible(x, a, m) then out != x + a
                else out == ":" + name + ReverseColons(y, m.driverToUser))
  {
    hide *;
    var name, rest := x[1..BindEnd(x)], x[Width(x)..];
    UnmarkedBindText(x);
    UnmarkedIsClean(x);
    CleanFirst(rest);
    OwnName(m, unsafe, name);
    UserNameBody(name);
    EncodeIsPlain(name);
    AlikeFirst(rest + a, y);
    RunReversibleStep(x, a, m);
    if y == "" || !IsNameBody(y[0]) {
      ReplaceName(Encode(name), y, m.driverToUser);
      assert Width(x) == |x| ==> rest + a == a;
    } else {
      assert rest == "";
      assert rest + a == a && x + a == ":" + name + a;
      NameByteAhead(a);
      BindAtQuote(name, a, y, m, unsafe);
    }
  }

  lemma UnmarkedBindText(x: string)
    requires BindAt(x) && MarkLen(x[BindEnd(x)..]) == 0
    ensures Width(x) == BindEnd(x) && x == ":" + x[1..BindEnd(x)] + x[Width(x)..]
  {
    hide MarkLen, BindEnd;
  }

  lemma ShortNameNoKey(m: NameTable, y: string)
    requires ChangesKnown(m)
    requires y == "" || !IsNameBody(y[0]) || QQuoteAt(y)
    ensures NameOf(y) !in m.driverToUser
  {
    hide IsNameBody, IsSpace, ChangesKnown, HasSentinel, NeedsEncoding, Encode;
    QuoteIsNoName();
    if NameOf(y) in m.driverToUser {
      KeyIs(m, NameOf(y));
    }
  }

  lemma BadColon(x: string)
    requires x != "" && x[0] == ':' && !BindAt(x) && NoBadStart(x)
    ensures |x| > 1 ==> !IsNameBody(x[1])
  {
  }

  /** A byte of the run that starts no bind is copied. */
  lemma PlainReverse(x: string, a: string, y: string, m: NameTable)
    requires ChangesKnown(m) && x != "" && !BindAt(x) && NoBadStart(x)
    requires CodeLen(a) == 0 && Alike(x[1..] + a, y)
    ensures ReverseColons([x[0]] + y, m.driverToUser) == [x[0]] + ReverseColons(y, m.driverToUser)
  {
    hide *;
    var s := [x[0]] + y;
    ReverseStep(s, m.driverToUser);
    assert s[1..] == y;
    if x[0] == ':' {
      BadColon(x);
      AlikeFirst(x[1..] + a, y);
      if y != "" && IsNameBody(y[0]) {
        assert |x| == 1;
        assert x[1..] + a == a;
        NameByteAhead(a);
        QuoteAlike(a, y);
      }
      ShortNameNoKey(m, y);
    }
  }

  /** The run x, rewritten in front of b, comes back in front of what b becomes. */
  lemma {:induction false} RunReverse(x: string, a: string, b: string, m: NameTable, unsafe: set<string>)
    requires Consistent(m, unsafe) && Unmarked(x) && NoBadStart(x)
    requires forall n :: n in BindTokens.Names(Tokens(x)) ==> n in m.userToDriver
    requires CodeLen(a) == 0 && Alike(a, b)
    ensures var out := ReverseColons(RewriteRun(x) + b, m.driverToUser);
            if RunReversible(x, a, m) then out == x + ReverseColons(b, m.driverToUser) else out != x + a
    decreases |x|
  {
    hide *;
    RunReversibleStep(x, a, m);
    if x == "" {
      EmptyRun();
      assert "" + b == b && "" + ReverseColons(b, m.driverToUser) == ReverseColons(b, m.driverToUser);
    } else {
      var rest := x[Width(x)..];
      var y := RewriteRun(rest) + b;
      var back := ReverseColons(y, m.driverToUser);
      UnmarkedStep(x);
      NoBadStartStep(x);
      NamesStep(x);
      RunAlike(rest, a, b);
      RunReverse(rest, a, b, m, unsafe);
      RunReversibleStep(rest, a, m);
      ChangesOf(m, unsafe);
      if BindAt(x) {
        var name := x[1..BindEnd(x)];
        BindReverse(x, a, y, m, unsafe);
        RewriteBind(x);
        assert RewriteRun(x) + b == ":" + Encode(name) + y;
        Unprefix(":" + name, back, rest + a);
        assert x + a == ":" + name + (rest + a);
        assert x + ReverseColons(b, m.driverToUser) == ":" + name + (rest + ReverseColons(b, m.driverToUser));
      } else {
        RewritePlain(x);
        TokenStep(x, 0);
        PlainReverse(x, a, y, m);
        assert RewriteRun(x) + b == [x[0]] + y;
        Unprefix([x[0]], back, rest + a);
        assert x + a == [x[0]] + (rest + a);
        assert x + ReverseColons(b, m.driverToUser) == [x[0]] + (rest + ReverseColons(b, m.driverToUser));
      }
    }
  }

  lemma Unprefix(p: string, s: string, t: string)
    ensures p + s == p + t <==> s == t
  {
    assert (p + s)[|p|..] == s && (p + t)[|p|..] == t;
  }

  lemma UnmarkedStep(x: string)
    requires x != "" && Unmarked(x)
    ensures BindAt(x) ==> MarkLen(x[BindEnd(x)..]) == 0
    ensures Unmarked(x[Width(x)..])
  {
  }

  lemma NoBadStartStep(x: string)
    requires x != "" && NoBadStart(x)
    ensures NoBadStart(x[Width(x)..])
  {
    hide NoBadStart, MarkLen, BindEnd;
    if BindAt(x) {
      BindIsNotBad(x);
    } else {
      NoBadTail(x);
    }
  }

  lemma NoBadTail(x: string)
    requires x != "" && NoBadStart(x)
    ensures NoBadStart(x[1..])
  {
  }

  lemma NamesStep(x: string)
    requires x != ""
    ensures forall n :: n in BindTokens.Names(Tokens(x[Width(x)..])) ==> n in BindTokens.Names(Tokens(x))
    ensures BindAt(x) ==> x[1..BindEnd(x)] in BindTokens.Names(Tokens(x))
  {
    hide *;
    TokenStep(x, 0);
    assert BindAt(x) ==> x[1..BindEnd(x)] in [x[1..BindEnd(x)]];
  }

  // ----- Skipped text -----

  /** No name reaches from the text y into b. */
  predicate Apart(y: string, b: string) {
    b == "" || !IsNameBody(b[0]) || (y != "" && !IsNameBody(y[|y| - 1]) && y[|y| - 1] != ':')
  }

  lemma NameBeforeApart(y: string, b: string)
    requires y != "" && Apart(y, b)
    ensures y[0] == ':' ==> NameOf(y[1..] + b) == NameOf(y[1..])
    ensures |y| > 1 ==> Apart(y[1..], b)
  {
    hide IsNameBody;
    var t := y[1..];
    assert t != "" ==> t[|t| - 1] == y[|y| - 1];
    if y[0] == ':' {
      if NameLen(t) < |t| {
        assert (t + b)[NameLen(t)] == t[NameLen(t)];
        WholeName(t + b, NameOf(t));
      } else {
        NameFirst(t, b);
        assert t[..|t|] == t;
      }
    }
  }

  lemma UserOfKey(m: NameTable, unsafe: set<string>, key: string, s: string, t: string)
    requires Consistent(m, unsafe) && key in m.driverToUser
    ensures ":" + m.driverToUser[key] + s != ":" + key + t
  {
    hide *;
    ChangesOf(m, unsafe);
    KeyIs(m, key);
    var user := m.driverToUser[key];
    var k := EncodeDiverges(user);
    assert (":" + user + s)[1 + k] == user[k];
    assert (":" + key + t)[1 + k] == key[k];
  }

  lemma NoDriverStep(y: string, table: map<string, string>)
    ensures NoDriverIn("", table)
    ensures y != "" ==>
              (NoDriverIn(y, table) <==> (y[0] == ':' ==> NameOf(y[1..]) !in table) && NoDriverIn(y[1..], table))
    ensures NameLen(y) <= |y| && NameOf(y) + y[NameLen(y)..] == y
  {
  }

  /** Skipped text comes back unchanged exactly when it holds no whole driver name after a colon. */
  lemma {:induction false} SkippedReverse(y: string, a: string, b: string, m: NameTable, unsafe: set<string>)
    requires Consistent(m, unsafe) && (y == "" || Apart(y, b))
    ensures var out := ReverseColons(y + b, m.driverToUser);
            if NoDriverIn(y, m.driverToUser) then out == y + ReverseColons(b, m.driverToUser) else out != y + a
  {
    hide *;
    var table := m.driverToUser;
    NoDriverStep(y, table);
    if y == "" {
      assert "" + b == b && "" + ReverseColons(b, table) == ReverseColons(b, table);
    } else {
      var t := y[1..];
      var s := y + b;
      assert s[1..] == t + b && s[0] == y[0];
      ReverseStep(s, table);
      NameBeforeApart(y, b);
      Prefixed(y, a);
      Prefixed(y, ReverseColons(b, table));
      if y[0] == ':' && NameOf(t) in table {
        KeyInSkipped(y, a, ReverseColons(s[1 + NameLen(s[1..])..], table), m, unsafe);
      } else {
        SkippedReverse(t, a, b, m, unsafe);
        Unprefix([y[0]], ReverseColons(t + b, table), t + a);
      }
    }
  }

  lemma Prefixed(y: string, a: string)
    requires y != ""
    ensures y + a == [y[0]] + (y[1..] + a)
  {
  }

  lemma KeyInSkipped(y: string, a: string, rest: string, m: NameTable, unsafe: set<string>)
    requires Consistent(m, unsafe) && y != "" && y[0] == ':' && NameOf(y[1..]) in m.driverToUser
    ensures ":" + m.driverToUser[NameOf(y[1..])] + rest != y + a
  {
    hide *;
    var t := y[1..];
    NoDriverStep(t, m.driverToUser);
    UserOfKey(m, unsafe, NameOf(t), rest, t[NameLen(t)..] + a);
    assert y + a == ":" + NameOf(t) + (t[NameLen(t)..] + a);
  }

  /** Skipped text ends with its closing byte, before a new line, or with the query. */
  lemma SkippedApart(s: string)
    requires s != "" && Head(s).Opaque?
    ensures Apart(s[..Head(s).len], s[Head(s).len..])
  {
    hide CursorLen, QuoteTail, LineTail, BlockTail, QTail, IsSpace;
    var k := Head(s).len;
    if k < |s| {
      assert s[..k][k - 1] == s[k - 1] && s[k..][0] == s[k];
      if s[0] == '\'' || s[0] == '"' {
        QuoteTailEnds(s[1..], s[0]);
      } else if s[0] == '-' {
        LineTailEnds(s[2..]);
      } else if s[0] == '/' {
        BlockTailEnds(s[2..]);
      } else {
        QTailEnds(s[3..], Closer(s[2]));
      }
    }
  }

  lemma ApartAlike(y: string, a: string, b: string)
    requires Apart(y, a) && Alike(a, b)
    ensures Apart(y, b)
  {
    hide Alike, IsNameBody;
    AlikeFirst(a, b);
  }

  lemma ReversibleStep(g: Segment, rest: seq<Segment>, m: NameTable)
    ensures Reversible([], m)
    ensures Reversible([g] + rest, m) <==>
            && (if g.Run? then RunReversible(g.text, Join(rest), m) else NoDriverIn(g.text, m.driverToUser))
            && Reversible(rest, m)
    ensures Registered([g] + rest, m) ==>
            && (g.Run? ==>
                  && Unmarked(g.text) && NoBadStart(g.text)
                  && forall n :: n in BindTokens.Names(Tokens(g.text)) ==> n in m.userToDriver)
            && Registered(rest, m)
  {
    hide RunReversible, NoDriverIn, Unmarked, NoBadStart, Tokens, BindTokens.Names, Join;
    assert ([g] + rest)[1..] == rest;
  }

  /**
    Reversing the rewritten query gives the query back exactly when no skipped
    text holds a changed driver name after a colon and no changed bind runs into
    a q-quote (unless the table knows that longer name too).
   */
  lemma {:induction false} ColonsReversed(s: string, m: NameTable, unsafe: set<string>)
    requires Consistent(m, unsafe) && Registered(Segments(s), m)
    ensures ReverseColons(Rewrite(s), m.driverToUser) == s <==> Reversible(Segments(s), m)
    decreases |s|
  {
    hide *;
    RewriteIs(s);
    if s == "" {
      NoSegments();
      ReverseStep("", m.driverToUser);
      ReversibleStep(Run(""), [], m);
    } else {
      SegmentsStep(s);
      if CodeLen(s) > 0 {
        RunBack(s, m, unsafe);
        ColonsReversed(s[CodeLen(s)..], m, unsafe);
      } else if Head(s).Opaque? {
        SkippedBack(s, m, unsafe);
        ColonsReversed(s[Head(s).len..], m, unsafe);
      } else {
        CutBack(s, m, unsafe);
      }
    }
  }

  lemma RunBack(s: string, m: NameTable, unsafe: set<string>)
    requires Consistent(m, unsafe) && Registered(Segments(s), m) && CodeLen(s) > 0
    ensures var x, t := s[..CodeLen(s)], s[CodeLen(s)..];
            var ok := RunReversible(x, t, m);
            && Registered(Segments(t), m)
            && (Reversible(Segments(s), m) <==> ok && Reversible(Segments(t), m))
            && (ReverseColons(Rewrite(s), m.driverToUser) == s <==>
                ok && ReverseColons(Rewrite(t), m.driverToUser) == t)
  {
    hide *;
    var n := CodeLen(s);
    var x, t := s[..n], s[n..];
    var rest := Segments(t);
    CodeStep(s);
    SegmentsStep(s);
    RewriteIs(s);
    RewriteIs(t);
    JoinSegments(t);
    JoinAlike(rest);
    CodeLenTail(s, n);
    assert s == x + t;
    RewriteAllStep(Run(x), rest);
    RewriteCut(x);
    ReversibleStep(Run(x), rest, m);
    RunReverse(x, t, Rewrite(t), m, unsafe);
    Unprefix(x, ReverseColons(Rewrite(t), m.driverToUser), t);
  }

  lemma SkippedBack(s: string, m: NameTable, unsafe: set<string>)
    requires Consistent(m, unsafe) && Registered(Segments(s), m) && s != "" && Head(s).Opaque?
    ensures var y, t := s[..Head(s).len], s[Head(s).len..];
            var ok := NoDriverIn(y, m.driverToUser);
            && Registered(Segments(t), m)
            && (Reversible(Segments(s), m) <==> ok && Reversible(Segments(t), m))
            && (ReverseColons(Rewrite(s), m.driverToUser) == s <==>
                ok && ReverseColons(Rewrite(t), m.driverToUser) == t)
  {
    hide *;
    var k := Head(s).len;
    var y, t := s[..k], s[k..];
    var rest := Segments(t);
    SegmentsStep(s);
    RewriteIs(s);
    RewriteIs(t);
    JoinSegments(t);
    JoinAlike(rest);
    SkippedApart(s);
    ApartAlike(y, t, Rewrite(t));
    assert s == y + t;
    RewriteAllStep(Skipped(y), rest);
    RewriteCut(y);
    ReversibleStep(Skipped(y), rest, m);
    SkippedReverse(y, t, Rewrite(t), m, unsafe);
    Unprefix(y, ReverseColons(Rewrite(t), m.driverToUser), t);
  }

  lemma CutBack(s: string, m: NameTable, unsafe: set<string>)
    requires Consistent(m, unsafe) && s != "" && Head(s).Broken?
    ensures ReverseColons(Rewrite(s), m.driverToUser) == s <==> Reversible(Segments(s), m)
  {
    hide *;
    SegmentsStep(s);
    RewriteIs(s);
    NoSegments();
    RewriteAllStep(Cut(s), []);
    RewriteCut(s);
    ReversibleStep(Cut(s), [], m);
    EmptyApart(s);
    SkippedReverse(s, "", "", m, unsafe);
    ReverseStep("", m.driverToUser);
    assert s + "" == s;
  }

  lemma EmptyApart(s: string)
    ensures Apart(s, "")
  {
  }
}
