/** Reading the text of a filter condition back into its words. */
module SqlText {
  import opened Text
  import opened SqlCondition

  /** The columns the conditions are about are plain lower-case names. */
  predicate PlainColumn(column: string) {
    column != "" && 'a' <= column[0] <= 'z'
  }

  function Mark(dialect: Dialect): string {
    match dialect
    case Postgres => "$"
    case Oracle => ":"
    case SqlServer => "@p"
    case MySql => "?"
  }

  function DigitLen(s: string): (n: nat)
    ensures n <= |s| && forall i :: 0 <= i < n ==> IsDigit(s[i])
  {
    if s != "" && IsDigit(s[0]) then 1 + DigitLen(s[1..]) else 0
  }

  function Value(digits: string): nat
    requires forall i :: 0 <= i < |digits| ==> IsDigit(digits[i])
  {
    if digits == "" then 0
    else
      assert IsDigit(digits[|digits| - 1]);
      10 * Value(digits[..|digits| - 1]) + (digits[|digits| - 1] as int - '0' as int)
  }

  /** The placeholder at the head of s and what follows it; a question mark is the next one in order. */
  function ReadHole(s: string, dialect: Dialect, next: nat): Option<(nat, string)> {
    if !StartsWith(s, Mark(dialect)) then None
    else
      var rest := s[|Mark(dialect)|..];
      if dialect.MySql? then Some((next, rest))
      else
        var n := DigitLen(rest);
        if n == 0 then None else Some((Value(rest[..n]), rest[n..]))
  }

  /** A comparison of the column: `column = hole` or `column LIKE hole`. */
  function ReadTest(s: string, column: string, dialect: Dialect, next: nat): Option<(Test, string)> {
    if !StartsWith(s, column) then None
    else
      var rest := s[|column|..];
      var like := StartsWith(rest, " LIKE ");
      if !like && !StartsWith(rest, " = ") then None
      else
        var hole := ReadHole(rest[if like then 6 else 3..], dialect, next);
        if hole.None? then None else Some((Test(like, hole.value.0), hole.value.1))
  }

  /** The first word of s and what follows it. */
  function ReadWord(s: string, column: string, dialect: Dialect, next: nat): Option<(Word, string)> {
    if StartsWith(s, "(") then Some((Open, s[1..]))
    else if StartsWith(s, ")") then Some((Close, s[1..]))
    else if StartsWith(s, " AND ") then Some((And, s[5..]))
    else if StartsWith(s, " OR ") then Some((Or, s[4..]))
    else if StartsWith(s, "NOT ") then Some((Not, s[4..]))
    else
      var t := ReadTest(s, column, dialect, next);
      if t.None? then None else Some((Compare(t.value.0), t.value.1))
  }

  function Lex(s: string, column: string, dialect: Dialect, next: nat): Option<seq<Word>>
    decreases |s|
  {
    if s == "" then Some([])
    else
      var w := ReadWord(s, column, dialect, next);
      if w.None? || |w.value.1| >= |s| then None
      else
        var rest := Lex(w.value.1, column, dialect, if w.value.0.Compare? then next + 1 else next);
        if rest.None? then None else Some([w.value.0] + rest.value)
  }

  /** The comparisons count their placeholders through, from `next` on. */
  predicate Numbered(ws: seq<Word>, next: nat) {
    ws == [] ||
    (if ws[0].Compare? then ws[0].test.hole == next && Numbered(ws[1..], next + 1) else Numbered(ws[1..], next))
  }

  lemma {:induction false} DigitsAreDigits(n: nat)
    ensures Digits(n) != "" && forall i :: 0 <= i < |Digits(n)| ==> IsDigit(Digits(n)[i])
    ensures Value(Digits(n)) == n
  {
    if n >= 10 {
      DigitsAreDigits(n / 10);
      assert Digits(n)[..|Digits(n)| - 1] == Digits(n / 10);
    } else {
      assert Digits(n)[..0] == "";
    }
  }

  lemma {:induction false} DigitRun(a: string, rest: string)
    requires (forall i :: 0 <= i < |a| ==> IsDigit(a[i])) && (rest == "" || !IsDigit(rest[0]))
    ensures DigitLen(a + rest) == |a|
  {
    if a == "" {
      assert a + rest == rest;
    } else {
      assert (a + rest)[1..] == a[1..] + rest;
      DigitRun(a[1..], rest);
    }
  }

  lemma Prefix(a: string, rest: string)
    ensures StartsWith(a + rest, a) && (a + rest)[|a|..] == rest && (a + rest)[..|a|] == a
  {
  }

  lemma HoleIsRead(hole: nat, rest: string, dialect: Dialect, next: nat)
    requires (rest == "" || !IsDigit(rest[0])) && (dialect.MySql? ==> hole == next)
    ensures ReadHole(Placeholder(dialect, hole) + rest, dialect, next) == Some((hole, rest))
  {
    hide Value, DigitLen, Digits;
    var mark := Mark(dialect);
    if dialect.MySql? {
      Prefix(mark, rest);
    } else {
      DigitsAreDigits(hole);
      DigitRun(Digits(hole), rest);
      assert Placeholder(dialect, hole) + rest == mark + (Digits(hole) + rest);
      Prefix(mark, Digits(hole) + rest);
      Prefix(Digits(hole), rest);
    }
  }

  lemma TestIsRead(t: Test, rest: string, column: string, dialect: Dialect, next: nat)
    requires (rest == "" || !IsDigit(rest[0])) && (dialect.MySql? ==> t.hole == next)
    ensures ReadTest(TestText(t, column, dialect) + rest, column, dialect, next) == Some((t, rest))
  {
    hide ReadHole, Placeholder;
    var op := if t.like then " LIKE " else " = ";
    var tail := Placeholder(dialect, t.hole) + rest;
    HoleIsRead(t.hole, rest, dialect, next);
    assert TestText(t, column, dialect) + rest == column + (op + tail);
    Prefix(column, op + tail);
    Prefix(op, tail);
    assert !t.like ==> (op + tail)[1] == '=';
  }

  lemma WordIsRead(w: Word, rest: string, column: string, dialect: Dialect, next: nat)
    requires PlainColumn(column) && (rest == "" || !IsDigit(rest[0]))
    requires w.Compare? ==> w.test.hole == next
    ensures var s := Spelled(w, column, dialect) + rest;
            ReadWord(s, column, dialect, next) == Some((w, rest)) && |rest| < |s|
  {
    hide ReadTest, Placeholder;
    var word := Spelled(w, column, dialect);
    Prefix(word, rest);
    if w.Compare? {
      TestIsRead(w.test, rest, column, dialect, next);
      assert word[0] == column[0] == (word + rest)[0];
    } else {
      assert (word + rest)[0] == word[0];
      assert |word| > 1 ==> (word + rest)[1] == word[1];
    }
  }

  lemma NoDigitFirst(ws: seq<Word>, column: string, dialect: Dialect)
    requires PlainColumn(column)
    ensures var s := Sql(ws, column, dialect); s == "" || !IsDigit(s[0])
  {
    hide Placeholder;
    if ws != [] {
      assert Spelled(ws[0], column, dialect) != "";
    }
  }

  /** The text of numbered words reads back as the words. */
  lemma {:induction false} SqlReadsBack(ws: seq<Word>, column: string, dialect: Dialect, next: nat)
    requires PlainColumn(column) && Numbered(ws, next)
    ensures Lex(Sql(ws, column, dialect), column, dialect, next) == Some(ws)
    decreases |ws|
  {
    hide ReadWord, Spelled;
    if ws != [] {
      NoDigitFirst(ws[1..], column, dialect);
      WordIsRead(ws[0], Sql(ws[1..], column, dialect), column, dialect, next);
      SqlReadsBack(ws[1..], column, dialect, if ws[0].Compare? then next + 1 else next);
      assert ws == [ws[0]] + ws[1..];
    }
  }

  function Compares(ws: seq<Word>): nat {
    if ws == [] then 0 else (if ws[0].Compare? then 1 else 0) + Compares(ws[1..])
  }

  lemma {:induction false} NumberedAppend(a: seq<Word>, b: seq<Word>, next: nat)
    ensures Numbered(a + b, next) <==> Numbered(a, next) && Numbered(b, next + Compares(a))
    ensures Compares(a + b) == Compares(a) + Compares(b)
  {
    if a == [] {
      assert a + b == b;
    } else {
      assert (a + b)[1..] == a[1..] + b;
      NumberedAppend(a[1..], b, if a[0].Compare? then next + 1 else next);
    }
  }

  lemma {:induction false} AnyOfNumbered(tests: seq<Test>, next: nat)
    requires forall i :: 0 <= i < |tests| ==> tests[i].hole == next + i
    ensures Numbered(AnyOf(tests), next) && Compares(AnyOf(tests)) == |tests|
  {
    if |tests| > 1 {
      AnyOfNumbered(tests[1..], next + 1);
      var ws := AnyOf(tests);
      assert ws[1..] == [Or] + AnyOf(tests[1..]) && ws[1..][1..] == AnyOf(tests[1..]);
    } else if |tests| == 1 {
      assert AnyOf(tests)[1..] == [];
    }
  }

  lemma {:induction false} NoneOfNumbered(tests: seq<Test>, next: nat)
    requires forall i :: 0 <= i < |tests| ==> tests[i].hole == next + i
    ensures Numbered(NoneOf(tests), next) && Compares(NoneOf(tests)) == |tests|
  {
    if tests != [] {
      NoneOfNumbered(tests[1..], next + 1);
      var tail := if |tests| == 1 then [] else [And] + NoneOf(tests[1..]);
      assert |tests| > 1 ==> tail[1..] == NoneOf(tests[1..]);
      NegatedNumbered(tests[0], next);
      NumberedAppend([Not, Open, Compare(tests[0]), Close], tail, next);
    }
  }

  lemma NegatedNumbered(t: Test, next: nat)
    requires t.hole == next
    ensures var ws := [Not, Open, Compare(t), Close]; Numbered(ws, next) && Compares(ws) == 1
  {
    var ws := [Not, Open, Compare(t), Close];
    assert ws[1..] == [Open, Compare(t), Close] && ws[1..][1..] == [Compare(t), Close];
    assert [Compare(t), Close][1..] == [Close] && [Close][1..] == [];
    Single(Close, next + 1);
    assert Numbered([Compare(t), Close], next) && Compares([Compare(t), Close]) == 1;
    assert Numbered(ws[1..], next) && Compares(ws[1..]) == 1;
  }

  lemma Single(w: Word, next: nat)
    requires !w.Compare?
    ensures Numbered([w], next) && Compares([w]) == 0
  {
    assert [w][1..] == [];
  }

  /** A condition whose tests are numbered in order is numbered as text. */
  lemma WordsNumbered(c: Condition, next: nat)
    requires forall i :: 0 <= i < |c.inside| + |c.outside| ==> (c.inside + c.outside)[i].hole == next + i
    ensures Numbered(Words(c), next)
  {
    hide Numbered, Compares, AnyOf, NoneOf;
    var k := next + |c.inside|;
    assert forall i :: 0 <= i < |c.inside| ==> c.inside[i] == (c.inside + c.outside)[i];
    assert forall i :: 0 <= i < |c.outside| ==> c.outside[i] == (c.inside + c.outside)[|c.inside| + i];
    AnyOfNumbered(c.inside, next);
    NoneOfNumbered(c.outside, k);
    var none := NoneOf(c.outside);
    Single(Open, next);
    Single(Close, k);
    Single(Close, k + |c.outside|);
    Single(And, k);
    NumberedAppend([Open], AnyOf(c.inside), next);
    NumberedAppend([Open] + AnyOf(c.inside), [Close], next);
    NumberedAppend([And], none, k);
    var tail := if c.outside == [] then [] else [And] + none;
    NothingNumbered(k);
    var inner := if c.inside == [] then none else [Open] + AnyOf(c.inside) + [Close] + tail;
    NumberedAppend([Open] + AnyOf(c.inside) + [Close], tail, next);
    NumberedAppend([Open], inner, next);
    NumberedAppend([Open] + inner, [Close], next);
  }

  lemma NothingNumbered(next: nat)
    ensures Numbered([], next) && Compares([]) == 0
  {
  }
}
