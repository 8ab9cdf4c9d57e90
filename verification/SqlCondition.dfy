/** Filter conditions in SQL: how they are written, and how they are read. */
module SqlCondition {
  import opened Text

  datatype Dialect = MySql | Oracle | Postgres | SqlServer

  /** `column = hole` or `column LIKE hole`; the hole stands for an argument, counted from 1. */
  datatype Test = Test(like: bool, hole: nat)

  /** `((inside OR ...) AND NOT (outside) AND ...)` */
  datatype Condition = Condition(inside: seq<Test>, outside: seq<Test>)

  function Digits(n: nat): string {
    if n < 10 then ["0123456789"[n]] else Digits(n / 10) + ["0123456789"[n % 10]]
  }

  function Placeholder(dialect: Dialect, index: nat): string {
    match dialect
    case Postgres => "$" + Digits(index)
    case Oracle => ":" + Digits(index)
    case SqlServer => "@p" + Digits(index)
    case MySql => "?"
  }

  function TestText(t: Test, column: string, dialect: Dialect): string {
    column + (if t.like then " LIKE " else " = ") + Placeholder(dialect, t.hole)
  }

  /** The tests as each dialect spells them. */
  lemma TestsSpelled(column: string, n: nat)
    ensures TestText(Test(false, n), column, Postgres) == column + " = $" + Digits(n)
    ensures TestText(Test(true, n), column, Oracle) == column + " LIKE :" + Digits(n)
    ensures TestText(Test(true, n), column, SqlServer) == column + " LIKE @p" + Digits(n)
    ensures TestText(Test(false, n), column, MySql) == column + " = ?"
    ensures Digits(12) == "12" && Digits(305) == "305"
  {
    hide Digits;
    assert " = $" == " = " + "$" && " = ?" == " = " + "?";
    assert " LIKE :" == " LIKE " + ":" && " LIKE @p" == " LIKE " + "@p";
    ConcatAssoc(column, " = ", "$");
    ConcatAssoc(column, " LIKE ", ":");
    ConcatAssoc(column, " LIKE ", "@p");
    ConcatAssoc(column, " = ", "?");
    ConcatAssoc(column + " = ", "$", Digits(n));
    ConcatAssoc(column + " LIKE ", ":", Digits(n));
    ConcatAssoc(column + " LIKE ", "@p", Digits(n));
    NumbersSpelled();
  }

  lemma NumbersSpelled()
    ensures Digits(12) == "12" && Digits(305) == "305"
  {
    assert Digits(1) == "1" && Digits(3) == "3" && Digits(30) == "30";
  }

  function JoinWith(parts: seq<string>, separator: string): string {
    if parts == [] then "" else if |parts| == 1 then parts[0]
    else parts[0] + separator + JoinWith(parts[1..], separator)
  }

  function InsideTexts(tests: seq<Test>, column: string, dialect: Dialect): seq<string> {
    seq(|tests|, i requires 0 <= i < |tests| => TestText(tests[i], column, dialect))
  }

  function OutsideTexts(tests: seq<Test>, column: string, dialect: Dialect): seq<string> {
    seq(|tests|, i requires 0 <= i < |tests| => "NOT (" + TestText(tests[i], column, dialect) + ")")
  }

  /** The condition as SQL words. */
  datatype Word = Open | Close | And | Or | Not | Compare(test: Test)

  function Spelled(w: Word, column: string, dialect: Dialect): string {
    match w
    case Open => "("
    case Close => ")"
    case And => " AND "
    case Or => " OR "
    case Not => "NOT "
    case Compare(t) => TestText(t, column, dialect)
  }

  function Sql(ws: seq<Word>, column: string, dialect: Dialect): string {
    if ws == [] then "" else Spelled(ws[0], column, dialect) + Sql(ws[1..], column, dialect)
  }

  function AnyOf(tests: seq<Test>): seq<Word> {
    if tests == [] then [] else if |tests| == 1 then [Compare(tests[0])]
    else [Compare(tests[0]), Or] + AnyOf(tests[1..])
  }

  function NoneOf(tests: seq<Test>): seq<Word> {
    if tests == [] then []
    else [Not, Open, Compare(tests[0]), Close] + (if |tests| == 1 then [] else [And] + NoneOf(tests[1..]))
  }

  function Words(c: Condition): seq<Word> {
    [Open]
    + (if c.inside == [] then NoneOf(c.outside)
       else [Open] + AnyOf(c.inside) + [Close] + (if c.outside == [] then [] else [And] + NoneOf(c.outside)))
    + [Close]
  }

  lemma {:induction false} TextAppend(a: seq<Word>, b: seq<Word>, column: string, dialect: Dialect)
    ensures Sql(a + b, column, dialect) == Sql(a, column, dialect) + Sql(b, column, dialect)
  {
    hide Spelled;
    if a == [] {
      assert a + b == b;
    } else {
      TextAppend(a[1..], b, column, dialect);
      assert (a + b)[1..] == a[1..] + b;
    }
  }

  lemma TextCons(w: Word, b: seq<Word>, column: string, dialect: Dialect)
    ensures Sql([w] + b, column, dialect) == Spelled(w, column, dialect) + Sql(b, column, dialect)
    ensures Sql([], column, dialect) == ""
  {
    hide Spelled;
    assert ([w] + b)[1..] == b;
  }

  lemma {:induction false} AnyOfText(tests: seq<Test>, column: string, dialect: Dialect)
    ensures Sql(AnyOf(tests), column, dialect) == JoinWith(InsideTexts(tests, column, dialect), " OR ")
  {
    hide Sql, TestText;
    if tests == [] {
      TextCons(Open, [], column, dialect);
    } else {
      var t := Compare(tests[0]);
      var rest := AnyOf(tests[1..]);
      AnyOfText(tests[1..], column, dialect);
      assert InsideTexts(tests, column, dialect)[1..] == InsideTexts(tests[1..], column, dialect);
      assert [t] + [] == [t] && [t, Or] + rest == [t] + ([Or] + rest);
      TextCons(t, [], column, dialect);
      TextCons(t, [Or] + rest, column, dialect);
      TextCons(Or, rest, column, dialect);
      ConcatAssoc(TestText(tests[0], column, dialect), " OR ", Sql(rest, column, dialect));
    }
  }

  lemma NotText(t: Test, rest: seq<Word>, column: string, dialect: Dialect)
    ensures Sql([Not, Open, Compare(t), Close] + rest, column, dialect) ==
            "NOT (" + TestText(t, column, dialect) + ")" + Sql(rest, column, dialect)
  {
    hide Sql, TestText;
    assert [Not, Open, Compare(t), Close] + rest == [Not] + ([Open] + ([Compare(t)] + ([Close] + rest)));
    TextCons(Not, [Open] + ([Compare(t)] + ([Close] + rest)), column, dialect);
    TextCons(Open, [Compare(t)] + ([Close] + rest), column, dialect);
    TextCons(Compare(t), [Close] + rest, column, dialect);
    TextCons(Close, rest, column, dialect);
  }

  lemma {:induction false} NoneOfText(tests: seq<Test>, column: string, dialect: Dialect)
    ensures Sql(NoneOf(tests), column, dialect) == JoinWith(OutsideTexts(tests, column, dialect), " AND ")
  {
    hide Sql, TestText;
    TextCons(Open, [], column, dialect);
    if tests != [] {
      var rest := NoneOf(tests[1..]);
      NoneOfText(tests[1..], column, dialect);
      assert OutsideTexts(tests, column, dialect)[1..] == OutsideTexts(tests[1..], column, dialect);
      NotText(tests[0], if |tests| == 1 then [] else [And] + rest, column, dialect);
      TextCons(And, rest, column, dialect);
      ConcatAssoc("NOT (" + TestText(tests[0], column, dialect) + ")", " AND ", Sql(rest, column, dialect));
    }
  }

  function InsidePart(c: Condition, column: string, dialect: Dialect): seq<string> {
    if c.inside == [] then [] else ["(" + JoinWith(InsideTexts(c.inside, column, dialect), " OR ") + ")"]
  }

  /** The words spell what joining the parts gives. */
  lemma WordsText(c: Condition, column: string, dialect: Dialect)
    requires c.inside != [] || c.outside != []
    ensures Sql(Words(c), column, dialect) ==
            "(" + JoinWith(InsidePart(c, column, dialect) + OutsideTexts(c.outside, column, dialect), " AND ") + ")"
  {
    hide Sql, TestText, JoinWith, InsideTexts, OutsideTexts, AnyOf, NoneOf;
    var inner := if c.inside == [] then NoneOf(c.outside)
                 else [Open] + AnyOf(c.inside) + [Close] + (if c.outside == [] then [] else [And] + NoneOf(c.outside));
    var outer := OutsideTexts(c.outside, column, dialect);
    TextCons(Open, inner + [Close], column, dialect);
    assert [Open] + inner + [Close] == [Open] + (inner + [Close]);
    TextAppend(inner, [Close], column, dialect);
    Closing(column, dialect);
    NoneOfText(c.outside, column, dialect);
    if c.inside == [] {
      assert [] + outer == outer;
    } else {
      GroupText(AnyOf(c.inside), if c.outside == [] then [] else [And] + NoneOf(c.outside), column, dialect);
      AnyOfText(c.inside, column, dialect);
      TextCons(And, NoneOf(c.outside), column, dialect);
      JoinFirst(InsidePart(c, column, dialect)[0], outer);
      OutsideSize(c.outside, column, dialect);
    }
  }

  lemma Closing(column: string, dialect: Dialect)
    ensures Sql([Close], column, dialect) == ")" && Sql([], column, dialect) == ""
  {
    assert [Close][1..] == [];
  }

  lemma GroupText(ws: seq<Word>, rest: seq<Word>, column: string, dialect: Dialect)
    ensures Sql([Open] + ws + [Close] + rest, column, dialect) ==
            "(" + Sql(ws, column, dialect) + ")" + Sql(rest, column, dialect)
  {
    hide Sql;
    TextAppend([Open] + ws + [Close], rest, column, dialect);
    TextAppend([Open] + ws, [Close], column, dialect);
    TextCons(Open, ws, column, dialect);
    Closing(column, dialect);
  }

  lemma JoinFirst(first: string, rest: seq<string>)
    ensures JoinWith([first] + rest, " AND ") == if rest == [] then first else first + " AND " + JoinWith(rest, " AND ")
  {
    assert ([first] + rest)[1..] == rest;
  }

  lemma OutsideSize(tests: seq<Test>, column: string, dialect: Dialect)
    ensures OutsideTexts(tests, column, dialect) == [] <==> tests == []
  {
    assert |OutsideTexts(tests, column, dialect)| == |tests|;
  }

  // ----- A reader of SQL conditions: NOT binds tighter than AND, AND tighter than OR -----

  function EvalOr(ws: seq<Word>, h: Test -> bool): (r: Option<(bool, seq<Word>)>)
    ensures r.Some? ==> |r.value.1| < |ws|
    decreases |ws|, 3
  {
    var a := EvalAnd(ws, h);
    if a.None? then None
    else if a.value.1 == [] || a.value.1[0] != Or then a
    else
      var b := EvalOr(a.value.1[1..], h);
      if b.None? then None else Some((a.value.0 || b.value.0, b.value.1))
  }

  function EvalAnd(ws: seq<Word>, h: Test -> bool): (r: Option<(bool, seq<Word>)>)
    ensures r.Some? ==> |r.value.1| < |ws|
    decreases |ws|, 2
  {
    var a := EvalNot(ws, h);
    if a.None? then None
    else if a.value.1 == [] || a.value.1[0] != And then a
    else
      var b := EvalAnd(a.value.1[1..], h);
      if b.None? then None else Some((a.value.0 && b.value.0, b.value.1))
  }

  function EvalNot(ws: seq<Word>, h: Test -> bool): (r: Option<(bool, seq<Word>)>)
    ensures r.Some? ==> |r.value.1| < |ws|
    decreases |ws|, 1
  {
    if ws == [] then None
    else match ws[0] {
      case Not =>
        var a := EvalNot(ws[1..], h);
        if a.None? then None else Some((!a.value.0, a.value.1))
      case Open =>
        var a := EvalOr(ws[1..], h);
        if a.None? || a.value.1 == [] || a.value.1[0] != Close then None else Some((a.value.0, a.value.1[1..]))
      case Compare(t) => Some((h(t), ws[1..]))
      case _ => None
    }
  }

  /** The value of a whole condition. */
  function Evaluate(ws: seq<Word>, h: Test -> bool): Option<bool> {
    var r := EvalOr(ws, h);
    if r.Some? && r.value.1 == [] then Some(r.value.0) else None
  }

  predicate Ends(rest: seq<Word>) {
    rest == [] || rest[0] == Close
  }

  lemma EvalCompare(t: Test, rest: seq<Word>, h: Test -> bool)
    ensures EvalNot([Compare(t)] + rest, h) == Some((h(t), rest))
  {
    assert ([Compare(t)] + rest)[1..] == rest;
  }

  lemma EvalGroup(ws: seq<Word>, rest: seq<Word>, v: bool, h: Test -> bool)
    requires EvalOr(ws + ([Close] + rest), h) == Some((v, [Close] + rest))
    ensures EvalNot([Open] + ws + [Close] + rest, h) == Some((v, rest))
  {
    hide EvalOr;
    var all := [Open] + ws + [Close] + rest;
    assert all[1..] == ws + ([Close] + rest) && ([Close] + rest)[1..] == rest;
  }

  lemma EvalEnds(ws: seq<Word>, v: bool, rest: seq<Word>, h: Test -> bool)
    requires EvalNot(ws, h) == Some((v, rest))
    ensures rest == [] || rest[0] != And ==> EvalAnd(ws, h) == Some((v, rest))
    ensures Ends(rest) ==> EvalOr(ws, h) == Some((v, rest))
  {
    hide EvalNot;
  }

  lemma {:induction false} EvalAnyOf(tests: seq<Test>, rest: seq<Word>, h: Test -> bool)
    requires tests != [] && Ends(rest)
    ensures EvalOr(AnyOf(tests) + rest, h) == Some((exists i :: 0 <= i < |tests| && h(tests[i]), rest))
    decreases |tests|
  {
    hide EvalOr, EvalAnd, EvalNot;
    var t := tests[0];
    if |tests| == 1 {
      EvalCompare(t, rest, h);
      EvalEnds([Compare(t)] + rest, h(t), rest, h);
    } else {
      var more := AnyOf(tests[1..]) + rest;
      var ws := [Compare(t)] + ([Or] + more);
      assert AnyOf(tests) + rest == ws;
      EvalCompare(t, [Or] + more, h);
      EvalEnds(ws, h(t), [Or] + more, h);
      EvalAnyOf(tests[1..], rest, h);
      OrStep(ws, h(t), more, h);
      assert forall i :: 0 < i < |tests| ==> tests[i] == tests[1..][i - 1];
      assert (exists i :: 0 <= i < |tests| && h(tests[i])) <==>
             h(t) || exists i :: 0 <= i < |tests[1..]| && h(tests[1..][i]);
    }
  }

  lemma OrStep(ws: seq<Word>, v: bool, more: seq<Word>, h: Test -> bool)
    requires EvalAnd(ws, h) == Some((v, [Or] + more))
    ensures EvalOr(ws, h) == (var b := EvalOr(more, h); if b.None? then None else Some((v || b.value.0, b.value.1)))
  {
    hide EvalAnd;
    assert ([Or] + more)[1..] == more;
  }

  lemma AndStep(ws: seq<Word>, v: bool, more: seq<Word>, h: Test -> bool)
    requires EvalNot(ws, h) == Some((v, [And] + more))
    ensures EvalAnd(ws, h) == (var b := EvalAnd(more, h); if b.None? then None else Some((v && b.value.0, b.value.1)))
  {
    hide EvalNot;
    assert ([And] + more)[1..] == more;
  }

  lemma EvalNegated(t: Test, rest: seq<Word>, h: Test -> bool)
    ensures EvalNot([Not, Open, Compare(t), Close] + rest, h) == Some((!h(t), rest))
  {
    hide EvalOr;
    var ws := [Not, Open, Compare(t), Close] + rest;
    assert ws[1..] == [Open] + [Compare(t)] + [Close] + rest;
    EvalCompare(t, [Close] + rest, h);
    EvalEnds([Compare(t)] + ([Close] + rest), h(t), [Close] + rest, h);
    EvalGroup([Compare(t)], rest, h(t), h);
  }

  lemma {:induction false} EvalNoneOf(tests: seq<Test>, rest: seq<Word>, h: Test -> bool)
    requires tests != [] && Ends(rest)
    ensures EvalAnd(NoneOf(tests) + rest, h) == Some((forall i :: 0 <= i < |tests| ==> !h(tests[i]), rest))
    decreases |tests|
  {
    hide EvalOr, EvalAnd, EvalNot;
    var t := tests[0];
    var front := [Not, Open, Compare(t), Close];
    if |tests| == 1 {
      EvalNegated(t, rest, h);
      assert NoneOf(tests) + rest == front + rest;
      EvalEnds(front + rest, !h(t), rest, h);
    } else {
      var more := NoneOf(tests[1..]) + rest;
      assert NoneOf(tests) + rest == front + ([And] + more);
      EvalNegated(t, [And] + more, h);
      EvalNoneOf(tests[1..], rest, h);
      AndStep(front + ([And] + more), !h(t), more, h);
      assert forall i :: 0 < i < |tests| ==> tests[i] == tests[1..][i - 1];
      assert (forall i :: 0 <= i < |tests| ==> !h(tests[i])) <==>
             !h(t) && forall i :: 0 <= i < |tests[1..]| ==> !h(tests[1..][i]);
    }
  }

  /** Read as SQL, the words say: one of the inside tests, if there are any, and none of the outside tests. */
  lemma WordsMean(c: Condition, h: Test -> bool)
    requires c.inside != [] || c.outside != []
    ensures Evaluate(Words(c), h) ==
            Some((c.inside == [] || exists i :: 0 <= i < |c.inside| && h(c.inside[i])) &&
                 forall i :: 0 <= i < |c.outside| ==> !h(c.outside[i]))
  {
    hide EvalOr, EvalAnd, EvalNot, AnyOf, NoneOf;
    var end := [Close] + [];
    var any := exists i :: 0 <= i < |c.inside| && h(c.inside[i]);
    var none := forall i :: 0 <= i < |c.outside| ==> !h(c.outside[i]);
    var inner: seq<Word>;
    if c.inside == [] {
      inner := NoneOf(c.outside);
      EvalNoneOf(c.outside, end, h);
      AndEnds(inner + end, none, end, h);
    } else {
      var tail := if c.outside == [] then end else [And] + (NoneOf(c.outside) + end);
      EvalAnyOf(c.inside, [Close] + tail, h);
      EvalGroup(AnyOf(c.inside), tail, any, h);
      var ws := [Open] + AnyOf(c.inside) + [Close] + tail;
      if c.outside == [] {
        inner := [Open] + AnyOf(c.inside) + [Close];
        assert inner + end == ws;
        EvalEnds(ws, any, end, h);
      } else {
        inner := [Open] + AnyOf(c.inside) + [Close] + ([And] + NoneOf(c.outside));
        assert inner + end == ws;
        EvalNoneOf(c.outside, end, h);
        AndStep(ws, any, NoneOf(c.outside) + end, h);
        AndEnds(ws, any && none, end, h);
      }
    }
    WordsAre(c, inner);
    EvalGroup(inner, [], (c.inside == [] || any) && none, h);
    EvalEnds(Words(c), (c.inside == [] || any) && none, [], h);
  }

  lemma WordsAre(c: Condition, inner: seq<Word>)
    requires inner == if c.inside == [] then NoneOf(c.outside)
                      else [Open] + AnyOf(c.inside) + [Close] +
                           (if c.outside == [] then [] else [And] + NoneOf(c.outside))
    ensures Words(c) == [Open] + inner + [Close] + []
  {
    hide AnyOf, NoneOf;
  }

  lemma AndEnds(ws: seq<Word>, v: bool, rest: seq<Word>, h: Test -> bool)
    requires EvalAnd(ws, h) == Some((v, rest)) && Ends(rest)
    ensures EvalOr(ws, h) == Some((v, rest))
  {
    hide EvalAnd;
  }
}
