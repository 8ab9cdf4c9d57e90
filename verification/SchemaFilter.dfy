/**
  The schema filter twice: as a condition in SQL text with its arguments, and as
  a matcher in the client.
 */
module SchemaFilter {
  import opened Text
  import opened GlobPattern
  import opened SqlCondition
  import opened SqlText

  datatype Fold = Identity | ToUpper | ToLower

  datatype Filter = Filter(included: seq<string>, excluded: seq<string>)

  // ----- The client -----

  function FoldName(value: string, fold: Fold): string {
    match fold
    case Identity => value
    case ToUpper => Upper(value)
    case ToLower => Lower(value)
  }

  predicate AnyMatches(patterns: seq<string>, fold: Fold, value: string) {
    exists i :: 0 <= i < |patterns| && GlobMatches(FoldName(patterns[i], fold), value)
  }

  predicate Filters(f: Filter) {
    f.included != [] || f.excluded != []
  }

  /** No options, or options without patterns, filter nothing. */
  function Active(filter: Option<Filter>): Option<Filter> {
    if filter.Some? && filter.value.included == [] && filter.value.excluded == [] then None else filter
  }

  predicate Allowed(schema: string, filter: Option<Filter>, fold: Fold) {
    var f := Active(filter);
    f.None? ||
    var folded := FoldName(schema, fold);
    && (f.value.included == [] || AnyMatches(f.value.included, fold, folded))
    && !AnyMatches(f.value.excluded, fold, folded)
  }

  method AnyGlobMatches(patterns: seq<string>, fold: Fold, folded: string) returns (r: bool)
    ensures r <==> AnyMatches(patterns, fold, folded)
  {
    for i := 0 to |patterns|
      invariant forall k :: 0 <= k < i ==> !GlobMatches(FoldName(patterns[k], fold), folded)
    {
      var ok := SqlGlobMatches(FoldName(patterns[i], fold), folded);
      if ok {
        return true;
      }
    }
    return false;
  }

  method SchemaAllowedByOptions(schema: string, filter: Option<Filter>, fold: Fold) returns (r: bool)
    ensures r <==> Allowed(schema, filter, fold)
    ensures filter.None? || !Filters(filter.value) ==> r
  {
    var f := Active(filter);
    if f.None? {
      return true;
    }
    var folded := FoldName(schema, fold);
    var inside := f.value.included == [];
    if !inside {
      inside := AnyGlobMatches(f.value.included, fold, folded);
    }
    if !inside {
      return false;
    }
    var outside := AnyGlobMatches(f.value.excluded, fold, folded);
    return !outside;
  }

  // ----- Writing the condition -----

  function Tests(patterns: seq<string>, first: nat): seq<Test> {
    seq(|patterns|, i requires 0 <= i < |patterns| => Test(UsesGlob(patterns[i]), first + i))
  }

  function ConditionOf(f: Filter, first: nat): Condition {
    Condition(Tests(f.included, first), Tests(f.excluded, first + |f.included|))
  }

  method WriteInside(column: string, patterns: seq<string>, dialect: Dialect, first: nat)
    returns (texts: seq<string>, next: nat)
    ensures texts == InsideTexts(Tests(patterns, first), column, dialect) && next == first + |patterns|
  {
    hide Placeholder, UsesGlob;
    texts, next := [], first;
    for i := 0 to |patterns|
      invariant next == first + i && |texts| == i
      invariant forall k :: 0 <= k < i ==> texts[k] == TestText(Test(UsesGlob(patterns[k]), first + k), column, dialect)
    {
      var op := if UsesGlob(patterns[i]) then " LIKE " else " = ";
      texts := texts + [column + op + Placeholder(dialect, next)];
      next := next + 1;
    }
  }

  method WriteOutside(column: string, patterns: seq<string>, dialect: Dialect, first: nat)
    returns (texts: seq<string>, next: nat)
    ensures texts == OutsideTexts(Tests(patterns, first), column, dialect) && next == first + |patterns|
  {
    hide Placeholder, UsesGlob;
    texts, next := [], first;
    for i := 0 to |patterns|
      invariant next == first + i && |texts| == i
      invariant forall k :: 0 <= k < i ==>
                  texts[k] == "NOT (" + TestText(Test(UsesGlob(patterns[k]), first + k), column, dialect) + ")"
    {
      var op := if UsesGlob(patterns[i]) then " LIKE " else " = ";
      texts := texts + ["NOT (" + (column + op + Placeholder(dialect, next)) + ")"];
      next := next + 1;
    }
  }

  /** Writes the condition and lists its arguments; `next` is the first free placeholder. */
  method SchemaPredicate(column: string, filter: Option<Filter>, dialect: Dialect, startIndex: nat)
    returns (text: string, args: seq<string>, next: nat)
    ensures filter.None? || !Filters(filter.value) ==> text == "" && args == [] && next == startIndex
    ensures filter.Some? && Filters(filter.value) ==>
              var f := filter.value;
              && text == Sql(Words(ConditionOf(f, startIndex)), column, dialect)
              && args == f.included + f.excluded && next == startIndex + |args|
  {
    hide InsideTexts, OutsideTexts, JoinWith, Sql, Words;
    if Active(filter).None? {
      return "", [], startIndex;
    }
    var f := filter.value;
    var parts: seq<string> := [];
    next := startIndex;
    if f.included != [] {
      var inside;
      inside, next := WriteInside(column, f.included, dialect, next);
      parts := ["(" + JoinWith(inside, " OR ") + ")"];
    }
    var outside;
    outside, next := WriteOutside(column, f.excluded, dialect, next);
    WordsText(ConditionOf(f, startIndex), column, dialect);
    return "(" + JoinWith(parts + outside, " AND ") + ")", f.included + f.excluded, next;
  }

  // ----- What the server makes of it -----

  ghost predicate TestHolds(t: Test, args: seq<string>, value: string)
    requires 1 <= t.hole <= |args|
  {
    var pattern := args[t.hole - 1];
    if t.like then Like(pattern, value) else pattern == value
  }

  /** What the server makes of the condition's words. */
  ghost predicate ServerAllows(c: Condition, args: seq<string>, value: string) {
    Evaluate(Words(c), (t: Test) => 1 <= t.hole <= |args| && TestHolds(t, args, value)) == Some(true)
  }

  lemma TestAgrees(pattern: string, hole: nat, args: seq<string>, value: string)
    requires NoNewline(value) && 1 <= hole <= |args| && args[hole - 1] == pattern
    ensures TestHolds(Test(UsesGlob(pattern), hole), args, value) <==> GlobMatches(pattern, value)
  {
    hide GlobMatches, Like, UsesGlob, NoNewline;
    if UsesGlob(pattern) {
      GlobIsLike(pattern, value);
    } else {
      PlainGlobIsEquality(pattern, value);
    }
  }

  /** The patterns are already folded, as the options deliver them. */
  predicate Folded(f: Filter, fold: Fold) {
    forall p :: p in f.included + f.excluded ==> FoldName(p, fold) == p
  }

  /**
    For patterns that are already folded and a schema that the fold leaves alone
    and that holds no new line, the server keeps the schema exactly when the
    client does, wherever in the argument list this condition's patterns stand.
   */
  lemma ServerAgreesWithClient(f: Filter, fold: Fold, first: nat, args: seq<string>, schema: string)
    requires Filters(f) && Folded(f, fold)
    requires NoNewline(schema) && FoldName(schema, fold) == schema
    requires 1 <= first && first - 1 + |f.included| + |f.excluded| <= |args|
    requires args[first - 1..][..|f.included| + |f.excluded|] == f.included + f.excluded
    ensures ServerAllows(ConditionOf(f, first), args, schema) <==> Allowed(schema, Some(f), fold)
  {
    hide GlobMatches, TestHolds, UsesGlob, NoNewline, Evaluate, Words, FoldName, Tests, AnyMatches, AnyHolds;
    var c := ConditionOf(f, first);
    var h := (t: Test) => 1 <= t.hole <= |args| && TestHolds(t, args, schema);
    var n := |f.included|;
    var mine := f.included + f.excluded;
    forall k | 0 <= k < |mine| ensures args[first - 1 + k] == mine[k] && FoldName(mine[k], fold) == mine[k] {
      assert args[first - 1..][..|mine|][k] == mine[k] && mine[k] in mine;
    }
    assert mine[..n] == f.included && mine[n..] == f.excluded;
    TestsAgree(f.included, fold, first, args, schema);
    TestsAgree(f.excluded, fold, first + n, args, schema);
    AnyHoldsIs(c.inside, args, schema);
    AnyHoldsIs(c.outside, args, schema);
    TestsSize(f.included, first);
    TestsSize(f.excluded, first + n);
    WordsMean(c, h);
  }

  ghost predicate AnyHolds(tests: seq<Test>, args: seq<string>, value: string) {
    exists i :: 0 <= i < |tests| && 1 <= tests[i].hole <= |args| && TestHolds(tests[i], args, value)
  }

  lemma AnyHoldsIs(tests: seq<Test>, args: seq<string>, value: string)
    ensures var h := (t: Test) => 1 <= t.hole <= |args| && TestHolds(t, args, value);
            AnyHolds(tests, args, value) <==> exists i :: 0 <= i < |tests| && h(tests[i])
  {
    hide TestHolds;
  }

  lemma TestsSize(patterns: seq<string>, first: nat)
    ensures Tests(patterns, first) == [] <==> patterns == []
  {
    assert |Tests(patterns, first)| == |patterns|;
  }

  /** The tests of a pattern list hold on the server when one of its patterns matches in the client. */
  lemma TestsAgree(patterns: seq<string>, fold: Fold, first: nat, args: seq<string>, schema: string)
    requires NoNewline(schema) && 1 <= first && first - 1 + |patterns| <= |args|
    requires forall i :: 0 <= i < |patterns| ==>
               patterns[i] == args[first - 1 + i] && FoldName(patterns[i], fold) == patterns[i]
    ensures AnyHolds(Tests(patterns, first), args, schema) <==> AnyMatches(patterns, fold, schema)
  {
    hide GlobMatches, TestHolds, UsesGlob, NoNewline, FoldName;
    var tests := Tests(patterns, first);
    forall i | 0 <= i < |patterns|
      ensures TestHolds(tests[i], args, schema) <==> GlobMatches(FoldName(patterns[i], fold), schema)
    {
      TestAgrees(patterns[i], first + i, args, schema);
    }
  }

  /** What the server makes of the text of a condition whose placeholders count from `first`. */
  ghost predicate ServerKeeps(text: string, column: string, dialect: Dialect, first: nat,
                              args: seq<string>, value: string) {
    var ws := Lex(text, column, dialect, first);
    ws.Some? &&
    Evaluate(ws.value, (t: Test) => 1 <= t.hole <= |args| && TestHolds(t, args, value)) == Some(true)
  }

  /** The text that is sent reads back as the condition's words. */
  lemma TextIsRead(f: Filter, column: string, dialect: Dialect, first: nat, args: seq<string>, schema: string)
    requires PlainColumn(column)
    ensures var c := ConditionOf(f, first);
            ServerKeeps(Sql(Words(c), column, dialect), column, dialect, first, args, schema) <==>
            ServerAllows(c, args, schema)
  {
    hide Lex, Sql, Words, Evaluate, TestHolds, Numbered;
    var c := ConditionOf(f, first);
    WordsNumbered(c, first);
    SqlReadsBack(Words(c), column, dialect, first);
  }

  /** The same agreement for the text itself, in every dialect. */
  lemma TextAgreesWithClient(f: Filter, fold: Fold, column: string, dialect: Dialect, first: nat,
                             args: seq<string>, schema: string)
    requires Filters(f) && Folded(f, fold) && PlainColumn(column)
    requires NoNewline(schema) && FoldName(schema, fold) == schema
    requires 1 <= first && first - 1 + |f.included| + |f.excluded| <= |args|
    requires args[first - 1..][..|f.included| + |f.excluded|] == f.included + f.excluded
    ensures ServerKeeps(Sql(Words(ConditionOf(f, first)), column, dialect), column, dialect, first, args, schema) <==>
            Allowed(schema, Some(f), fold)
  {
    hide ServerKeeps, ServerAllows, Allowed, Folded, FoldName, NoNewline;
    ServerAgreesWithClient(f, fold, first, args, schema);
    TextIsRead(f, column, dialect, first, args, schema);
  }

  /** Server and client decide the same about the schema. */
  ghost predicate Agree(f: Filter, fold: Fold, schema: string) {
    ServerAllows(ConditionOf(f, 1), f.included + f.excluded, schema) <==> Allowed(schema, Some(f), fold)
  }

  /** A filter with one included pattern. */
  lemma OnePattern(p: string, fold: Fold, schema: string)
    ensures var f := Filter([p], []);
            && Filters(f) && (Folded(f, fold) <==> FoldName(p, fold) == p)
            && (ServerAllows(ConditionOf(f, 1), f.included + f.excluded, schema) <==>
                if UsesGlob(p) then Like(p, schema) else p == schema)
            && (Allowed(schema, Some(f), fold) <==> GlobMatches(FoldName(p, fold), FoldName(schema, fold)))
  {
    hide GlobMatches, Like, UsesGlob, Evaluate, Words, FoldName;
    var f := Filter([p], []);
    var args := f.included + f.excluded;
    var c := ConditionOf(f, 1);
    var h := (t: Test) => 1 <= t.hole <= |args| && TestHolds(t, args, schema);
    assert args == [p] && p in args;
    assert c.inside == [Test(UsesGlob(p), 1)] && c.outside == [];
    WordsMean(c, h);
    assert (exists i :: 0 <= i < |c.inside| && h(c.inside[i])) <==> h(c.inside[0]);
    assert AnyMatches([p], fold, FoldName(schema, fold)) <==>
           GlobMatches(FoldName([p][0], fold), FoldName(schema, fold));
  }

  /** Patterns that are not folded: the client folds both sides, the server neither. */
  lemma FoldTellsThemApart()
    ensures var f := Filter(["hr"], []);
            && Allowed("HR", Some(f), ToUpper)
            && !ServerAllows(ConditionOf(f, 1), f.included + f.excluded, "HR")
    ensures var f := Filter(["HR"], []);
            && Allowed("hr", Some(f), ToLower)
            && !ServerAllows(ConditionOf(f, 1), f.included + f.excluded, "hr")
  {
    hide ServerAllows, Allowed, GlobMatches;
    OnePattern("hr", ToUpper, "HR");
    OnePattern("HR", ToLower, "hr");
    assert FoldName("hr", ToUpper) == "HR" == FoldName("HR", ToUpper);
    assert FoldName("HR", ToLower) == "hr" == FoldName("hr", ToLower);
    GlobMatchesItself("HR");
    GlobMatchesItself("hr");
  }

  // ----- Exactly when the two agree -----

  /** A letter that the fold produces. */
  predicate IsImage(c: char, fold: Fold) {
    match fold
    case Identity => false
    case ToUpper => 'A' <= c <= 'Z'
    case ToLower => 'a' <= c <= 'z'
  }

  function Images(s: string, fold: Fold): nat {
    if s == "" then 0 else (if IsImage(s[0], fold) then 1 else 0) + Images(s[1..], fold)
  }

  lemma {:induction false} ImagesAppend(a: string, b: string, fold: Fold)
    ensures Images(a + b, fold) == Images(a, fold) + Images(b, fold)
  {
    hide IsImage;
    if a == "" {
      assert a + b == b;
    } else {
      ImagesAppend(a[1..], b, fold);
      assert (a + b)[1..] == a[1..] + b;
    }
  }

  /** Each letter of a pattern needs its own equal letter in the value. */
  lemma {:induction false} LikeNeedsImages(pattern: string, value: string, parts: seq<string>, fold: Fold)
    requires Partition(parts, pattern, value)
    ensures Images(pattern, fold) <= Images(value, fold)
    decreases |pattern|
  {
    if pattern != "" {
      var rest := Concat(parts[1..]);
      assert Partition(parts[1..], pattern[1..], rest);
      LikeNeedsImages(pattern[1..], rest, parts[1..], fold);
      ImagesAppend(parts[0], rest, fold);
      assert PartMatches(parts[0], pattern[0]);
      assert |parts[0]| == 1 ==> parts[0][1..] == "";
    }
  }

  lemma {:induction false} FoldGainsImages(s: string, fold: Fold)
    ensures Images(FoldName(s, fold), fold) >= Images(s, fold)
    ensures FoldName(s, fold) != s ==> Images(FoldName(s, fold), fold) > Images(s, fold)
  {
    if s != "" {
      FoldGainsImages(s[1..], fold);
      assert FoldName(s, fold)[1..] == FoldName(s[1..], fold);
      assert s == [s[0]] + s[1..] && FoldName(s, fold) == [FoldName(s, fold)[0]] + FoldName(s[1..], fold);
    }
  }

  lemma FoldFacts(s: string, fold: Fold)
    ensures FoldName(FoldName(s, fold), fold) == FoldName(s, fold)
    ensures NoNewline(FoldName(s, fold)) <==> NoNewline(s)
    ensures FoldName("%", fold) == "%" && UsesGlob("%")
  {
    var t := FoldName(s, fold);
    assert |t| == |s| && forall i :: 0 <= i < |s| ==> (t[i] == '\n' <==> s[i] == '\n');
    assert IsWild("%"[0]);
  }

  /** When the fold changes the schema, the folded schema as a pattern is kept by the client only. */
  lemma ChangedSchemaDisagrees(schema: string, fold: Fold)
    requires FoldName(schema, fold) != schema
    ensures var f := Filter([FoldName(schema, fold)], []); Folded(f, fold) && !Agree(f, fold, schema)
  {
    hide Images, ServerAllows, Allowed, GlobMatches, FoldName;
    var p := FoldName(schema, fold);
    OnePattern(p, fold, schema);
    FoldFacts(schema, fold);
    FoldGainsImages(schema, fold);
    GlobMatchesItself(p);
    if Like(p, schema) {
      var parts :| Partition(parts, p, schema);
      LikeNeedsImages(p, schema, parts, fold);
    }
  }

  /**
    Over all filters with folded patterns, server and client agree about a schema
    exactly when it holds no new line and the fold leaves it alone.
   */
  lemma AgreementIsExact(schema: string, fold: Fold)
    ensures (forall f :: Filters(f) && Folded(f, fold) ==> Agree(f, fold, schema)) <==>
            NoNewline(schema) && FoldName(schema, fold) == schema
  {
    hide ServerAllows, Allowed, GlobMatches, Like, FoldName, NoNewline, Folded;
    FoldFacts(schema, fold);
    OnePattern("%", fold, schema);
    PercentMatches(schema);
    PercentMatches(FoldName(schema, fold));
    if FoldName(schema, fold) != schema {
      ChangedSchemaDisagrees(schema, fold);
      OnePattern(FoldName(schema, fold), fold, schema);
    } else if NoNewline(schema) {
      forall f | Filters(f) && Folded(f, fold) ensures Agree(f, fold, schema) {
        var args := f.included + f.excluded;
        assert args[0..][..|args|] == args;
        ServerAgreesWithClient(f, fold, 1, args, schema);
      }
    } else {
      assert !Agree(Filter(["%"], []), fold, schema);
    }
  }

  // ----- One query with several conditions -----

  const ARMS := 5

  function Copies(args: seq<string>, n: nat): seq<string> {
    if n == 0 then [] else Copies(args, n - 1) + args
  }

  lemma {:induction false} CopiesAre(args: seq<string>, n: nat, j: nat)
    requires j < n
    ensures |Copies(args, n)| == n * |args| && (j + 1) * |args| <= n * |args|
    ensures Copies(args, n)[j * |args|..][..|args|] == args
    decreases n
  {
    CopiesSize(args, n);
    CopiesSize(args, n - 1);
    var front := Copies(args, n - 1);
    if j < n - 1 {
      CopiesAre(args, n - 1, j);
      var at := j * |args|;
      assert (front + args)[at..][..|args|] == front[at..][..|args|];
    } else {
      assert (front + args)[|front|..][..|args|] == args;
    }
  }

  lemma {:induction false} CopiesSize(args: seq<string>, n: nat)
    ensures |Copies(args, n)| == n * |args|
  {
    if n > 0 {
      CopiesSize(args, n - 1);
    }
  }

  /** The structure query: one condition per arm, numbered through, with all arguments in one list. */
  method StructureArms(filter: Option<Filter>) returns (texts: seq<string>, args: seq<string>)
    ensures |texts| == ARMS == 5
    ensures filter.None? || !Filters(filter.value) ==> args == [] && forall j :: 0 <= j < ARMS ==> texts[j] == ""
    ensures filter.Some? && Filters(filter.value) ==>
              var f := filter.value; var n := |f.included| + |f.excluded|;
              && args == Copies(f.included + f.excluded, ARMS)
              && forall j :: 0 <= j < ARMS ==> texts[j] == Sql(Words(ConditionOf(f, 1 + j * n)), "owner", Oracle)
  {
    hide Sql, Words, ConditionOf;
    texts, args := [], [];
    var next := 1;
    for index := 0 to ARMS
      invariant |texts| == index
      invariant filter.None? || !Filters(filter.value) ==> args == [] && forall j :: 0 <= j < index ==> texts[j] == ""
      invariant filter.Some? && Filters(filter.value) ==>
                  var f := filter.value; var n := |f.included| + |f.excluded|;
                  && args == Copies(f.included + f.excluded, index) && next == 1 + index * n
                  && forall j :: 0 <= j < index ==> texts[j] == Sql(Words(ConditionOf(f, 1 + j * n)), "owner", Oracle)
    {
      var text, armArgs;
      text, armArgs, next := SchemaPredicate("owner", filter, Oracle, next);
      texts := texts + [text];
      args := args + armArgs;
    }
  }

  /** The condition of arm j, and the arguments of the whole query. */
  function Arm(f: Filter, j: nat): Condition {
    ConditionOf(f, 1 + j * (|f.included| + |f.excluded|))
  }

  function ArmArgs(f: Filter): seq<string> {
    Copies(f.included + f.excluded, ARMS)
  }

  /** The server keeps what the client keeps, read from the arm's words or from its text. */
  ghost predicate ArmKeeps(f: Filter, fold: Fold, j: nat, schema: string) {
    && (ServerAllows(Arm(f, j), ArmArgs(f), schema) <==> Allowed(schema, Some(f), fold))
    && (ServerKeeps(Sql(Words(Arm(f, j)), "owner", Oracle), "owner", Oracle,
                    1 + j * (|f.included| + |f.excluded|), ArmArgs(f), schema) <==>
        Allowed(schema, Some(f), fold))
  }

  /** Every arm refers to its own arguments, in the order of the text, and keeps what the client keeps. */
  lemma ArmsAgree(f: Filter, fold: Fold, j: nat, schema: string)
    requires Filters(f) && Folded(f, fold) && j < ARMS
    requires NoNewline(schema) && FoldName(schema, fold) == schema
    ensures ArmKeeps(f, fold, j, schema)
    ensures var n, c := |f.included| + |f.excluded|, Arm(f, j);
            |c.inside + c.outside| == n && forall k :: 0 <= k < n ==> (c.inside + c.outside)[k].hole == 1 + j * n + k
  {
    hide ServerAllows, ServerKeeps, Allowed, Copies, UsesGlob, Folded, FoldName, Sql, Words;
    var mine := f.included + f.excluded;
    CopiesAre(mine, ARMS, j);
    assert (j + 1) * |mine| == j * |mine| + |mine|;
    ServerAgreesWithClient(f, fold, 1 + j * |mine|, Copies(mine, ARMS), schema);
    TextIsRead(f, "owner", Oracle, 1 + j * |mine|, Copies(mine, ARMS), schema);
  }
}
