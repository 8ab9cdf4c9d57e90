/** Glob patterns over schema names: SQL's LIKE, and the client's regular expression. */
module GlobPattern {
  import opened Text

  predicate NoNewline(s: string) {
    '\n' !in s
  }

  // ----- LIKE, as the SQL standard defines it (without an escape character) -----

  /** One part of the value against one character of the pattern. */
  predicate PartMatches(part: string, c: char) {
    c == '%' || (|part| == 1 && (c == '_' || part[0] == c))
  }

  ghost predicate Partition(parts: seq<string>, pattern: string, value: string) {
    |parts| == |pattern| && Concat(parts) == value && forall i :: 0 <= i < |parts| ==> PartMatches(parts[i], pattern[i])
  }

  /** The value can be cut into parts that match the pattern's characters one by one. */
  ghost predicate Like(pattern: string, value: string) {
    exists parts :: Partition(parts, pattern, value)
  }

  predicate IsWild(c: char) {
    c == '%' || c == '_'
  }

  predicate UsesGlob(pattern: string) {
    exists i :: 0 <= i < |pattern| && IsWild(pattern[i])
  }

  // ----- The regular expression of the client -----

  datatype Atom = AnyRun | AnyOne | Literal(c: char)

  /** An anchored match; a dot stands for any character but a new line. */
  predicate RegexMatches(atoms: seq<Atom>, value: string)
    decreases |atoms|
  {
    if atoms == [] then value == ""
    else match atoms[0] {
      case AnyRun => exists k :: 0 <= k <= |value| && NoNewline(value[..k]) && RegexMatches(atoms[1..], value[k..])
      case AnyOne => value != "" && value[0] != '\n' && RegexMatches(atoms[1..], value[1..])
      case Literal(c) => value != "" && value[0] == c && RegexMatches(atoms[1..], value[1..])
    }
  }

  function AtomOf(c: char): Atom {
    if c == '%' then AnyRun else if c == '_' then AnyOne else Literal(c)
  }

  function AtomsOf(pattern: string): seq<Atom> {
    seq(|pattern|, i requires 0 <= i < |pattern| => AtomOf(pattern[i]))
  }

  predicate GlobMatches(pattern: string, value: string) {
    RegexMatches(AtomsOf(pattern), value)
  }

  /** The characters that mean something in a regular expression. */
  predicate IsMeta(c: char) {
    c in "\\.+*?()|[]{}^$"
  }

  function QuoteMeta(c: char): string {
    if IsMeta(c) then ['\\', c] else [c]
  }

  function PieceText(c: char): string {
    if c == '%' then ".*" else if c == '_' then "." else QuoteMeta(c)
  }

  function BodyText(pattern: string): string {
    if pattern == "" then "" else PieceText(pattern[0]) + BodyText(pattern[1..])
  }

  /** The expressions in use, read up to the end anchor: dots, starred dots, and single characters. */
  function ReadBody(s: string): Option<seq<Atom>>
    decreases |s|
  {
    if s == "" then None
    else if s == "$" then Some([])
    else if s[0] == '\\' then (if |s| < 2 then None else Before(Literal(s[1]), ReadBody(s[2..])))
    else if s[0] == '.' then
      if |s| > 1 && s[1] == '*' then Before(AnyRun, ReadBody(s[2..])) else Before(AnyOne, ReadBody(s[1..]))
    else if s[0] in "*+?()|[]{}^$" then None
    else Before(Literal(s[0]), ReadBody(s[1..]))
  }

  function Before(a: Atom, rest: Option<seq<Atom>>): Option<seq<Atom>> {
    if rest.None? then None else Some([a] + rest.value)
  }

  /** The value matches the text of an anchored expression. */
  predicate MatchString(expression: string, value: string) {
    expression != "" && expression[0] == '^' &&
    var atoms := ReadBody(expression[1..]);
    atoms.Some? && RegexMatches(atoms.value, value)
  }

  lemma PieceIsRead(c: char, rest: string)
    requires rest != "" && rest[0] != '*'
    ensures ReadBody(PieceText(c) + rest) == Before(AtomOf(c), ReadBody(rest))
  {
    var s := PieceText(c) + rest;
    assert s[|PieceText(c)|..] == rest;
    assert s[0] == PieceText(c)[0] && (|PieceText(c)| > 1 ==> s[1] == PieceText(c)[1]);
    assert |PieceText(c)| == 1 ==> s[1] == rest[0];
  }

  lemma {:induction false} BodyIsRead(pattern: string)
    ensures ReadBody(BodyText(pattern) + "$") == Some(AtomsOf(pattern))
    ensures var s := BodyText(pattern) + "$"; s[0] != '*'
  {
    hide ReadBody, PieceText;
    if pattern == "" {
      EmptyBody();
    } else {
      var rest := BodyText(pattern[1..]) + "$";
      BodyIsRead(pattern[1..]);
      PieceIsRead(pattern[0], rest);
      PieceStart(pattern[0]);
      assert BodyText(pattern) + "$" == PieceText(pattern[0]) + rest;
      assert AtomsOf(pattern) == [AtomOf(pattern[0])] + AtomsOf(pattern[1..]);
    }
  }

  lemma EmptyBody()
    ensures ReadBody("" + "$") == Some([]) && ("" + "$")[0] == '$'
  {
    assert "" + "$" == "$";
  }

  lemma PieceStart(c: char)
    ensures PieceText(c) != "" && PieceText(c)[0] != '*'
  {
  }

  lemma {:induction false} BodyAppend(a: string, c: char)
    ensures BodyText(a + [c]) == BodyText(a) + PieceText(c)
  {
    hide PieceText;
    if a == "" {
      assert a + [c] == [c] && [c][1..] == "";
      assert PieceText(c) + "" == "" + PieceText(c);
    } else {
      BodyAppend(a[1..], c);
      assert (a + [c])[1..] == a[1..] + [c];
      ConcatAssoc(PieceText(a[0]), BodyText(a[1..]), PieceText(c));
    }
  }

  /** Writes the expression of a pattern and matches the value against it. */
  method SqlGlobMatches(pattern: string, value: string) returns (r: bool)
    ensures r <==> GlobMatches(pattern, value)
  {
    hide RegexMatches, QuoteMeta, ReadBody;
    var b := "^";
    for i := 0 to |pattern|
      invariant b == "^" + BodyText(pattern[..i])
    {
      assert pattern[..i + 1] == pattern[..i] + [pattern[i]];
      BodyAppend(pattern[..i], pattern[i]);
      ConcatAssoc("^", BodyText(pattern[..i]), PieceText(pattern[i]));
      match pattern[i]
      case '%' => b := b + ".*";
      case '_' => b := b + ".";
      case _ => b := b + QuoteMeta(pattern[i]);
    }
    assert pattern[..|pattern|] == pattern;
    b := b + "$";
    BodyIsRead(pattern);
    assert b[1..] == BodyText(pattern) + "$";
    return MatchString(b, value);
  }

  ghost predicate WildInLine(parts: seq<string>, pattern: string) {
    |parts| == |pattern| && forall i :: 0 <= i < |parts| && IsWild(pattern[i]) ==> NoNewline(parts[i])
  }

  /** A LIKE match whose wildcards cover no new line. */
  ghost predicate LikeInLine(pattern: string, value: string) {
    exists parts :: Partition(parts, pattern, value) && WildInLine(parts, pattern)
  }

  lemma AtomsCons(pattern: string, value: string)
    requires pattern != ""
    ensures AtomsOf(pattern) == [AtomOf(pattern[0])] + AtomsOf(pattern[1..])
    ensures GlobMatches(pattern, value) <==>
            match AtomOf(pattern[0])
            case AnyRun =>
              exists k :: 0 <= k <= |value| && NoNewline(value[..k]) && GlobMatches(pattern[1..], value[k..])
            case AnyOne => value != "" && value[0] != '\n' && GlobMatches(pattern[1..], value[1..])
            case Literal(c) => value != "" && value[0] == c && GlobMatches(pattern[1..], value[1..])
  {
    assert AtomsOf(pattern)[1..] == AtomsOf(pattern[1..]);
  }

  lemma PartsCons(part: string, parts: seq<string>, pattern: string, value: string)
    requires pattern != ""
    ensures Partition([part] + parts, pattern, part + value) && WildInLine([part] + parts, pattern) <==>
            && PartMatches(part, pattern[0]) && (IsWild(pattern[0]) ==> NoNewline(part))
            && Partition(parts, pattern[1..], value) && WildInLine(parts, pattern[1..])
  {
    hide NoNewline, PartMatches, IsWild;
    var all := [part] + parts;
    assert all[1..] == parts && all[0] == part;
    assert Concat(all) == part + Concat(parts);
    assert part + Concat(parts) == part + value <==> Concat(parts) == value by {
      assert (part + Concat(parts))[|part|..] == Concat(parts) && (part + value)[|part|..] == value;
    }
    if |parts| == |pattern| - 1 {
      assert forall i :: 0 < i < |all| ==> all[i] == parts[i - 1] && pattern[i] == pattern[1..][i - 1];
      assert forall i :: 0 <= i < |parts| ==> parts[i] == all[i + 1] && pattern[1..][i] == pattern[i + 1];
    }
  }

  lemma {:induction false} GlobToParts(pattern: string, value: string) returns (parts: seq<string>)
    requires GlobMatches(pattern, value)
    ensures Partition(parts, pattern, value) && WildInLine(parts, pattern)
    decreases |pattern|
  {
    if pattern == "" {
      parts := [];
    } else {
      AtomsCons(pattern, value);
      var k: nat := 1;
      if pattern[0] == '%' {
        k :| 0 <= k <= |value| && NoNewline(value[..k]) && GlobMatches(pattern[1..], value[k..]);
      }
      var rest := GlobToParts(pattern[1..], value[k..]);
      parts := [value[..k]] + rest;
      assert value[..k] + value[k..] == value;
      PartsCons(value[..k], rest, pattern, value[k..]);
    }
  }

  lemma {:induction false} PartsToGlob(pattern: string, value: string, parts: seq<string>)
    requires Partition(parts, pattern, value) && WildInLine(parts, pattern)
    ensures GlobMatches(pattern, value)
    decreases |pattern|
  {
    if pattern != "" {
      var part, rest := parts[0], Concat(parts[1..]);
      assert parts == [part] + parts[1..] && value == part + rest;
      PartsCons(part, parts[1..], pattern, rest);
      PartsToGlob(pattern[1..], rest, parts[1..]);
      AtomsCons(pattern, value);
      assert value[..|part|] == part && value[|part|..] == rest;
    }
  }

  /** The client's matcher is LIKE with wildcards that stop at new lines. */
  lemma GlobIsLikeInLine(pattern: string, value: string)
    ensures GlobMatches(pattern, value) <==> LikeInLine(pattern, value)
  {
    hide GlobMatches, Partition, WildInLine;
    if GlobMatches(pattern, value) {
      var parts := GlobToParts(pattern, value);
    }
    if LikeInLine(pattern, value) {
      var parts :| Partition(parts, pattern, value) && WildInLine(parts, pattern);
      PartsToGlob(pattern, value, parts);
    }
  }

  lemma {:induction false} PartsInLine(parts: seq<string>)
    requires NoNewline(Concat(parts))
    ensures forall i :: 0 <= i < |parts| ==> NoNewline(parts[i])
  {
    if parts != [] {
      assert forall j :: 0 <= j < |parts[0]| ==> parts[0][j] == Concat(parts)[j];
      assert forall j :: 0 <= j < |Concat(parts[1..])| ==> Concat(parts[1..])[j] == Concat(parts)[|parts[0]| + j];
      PartsInLine(parts[1..]);
      assert forall i :: 0 < i < |parts| ==> parts[i] == parts[1..][i - 1];
    }
  }

  /** For a value without new lines the client's matcher is LIKE. */
  lemma GlobIsLike(pattern: string, value: string)
    requires NoNewline(value)
    ensures GlobMatches(pattern, value) <==> Like(pattern, value)
  {
    hide GlobMatches, NoNewline;
    GlobIsLikeInLine(pattern, value);
    if Like(pattern, value) {
      var parts :| Partition(parts, pattern, value);
      PartsInLine(parts);
      assert WildInLine(parts, pattern);
    }
  }

  /** `%` is LIKE every value, and matches just those without a new line. */
  lemma PercentMatches(value: string)
    ensures Like("%", value)
    ensures GlobMatches("%", value) <==> NoNewline(value)
  {
    hide NoNewline;
    assert [value][1..] == [] && value + "" == value;
    assert Concat([value]) == value;
    assert Partition([value], "%", value);
    AtomsCons("%", value);
    assert "%"[1..] == "" && AtomsOf("") == [] && value[..|value|] == value;
    assert value[|value|..] == "";
    assert forall k :: 0 <= k <= |value| && value[k..] == "" ==> k == |value|;
  }

  /** The client's matcher is LIKE, over all patterns, exactly for the values without a new line. */
  lemma GlobIsLikeExactly(value: string)
    ensures (forall p :: GlobMatches(p, value) <==> Like(p, value)) <==> NoNewline(value)
  {
    hide GlobMatches, Like, NoNewline;
    PercentMatches(value);
    if NoNewline(value) {
      forall p ensures GlobMatches(p, value) <==> Like(p, value) {
        GlobIsLike(p, value);
      }
    }
  }

  /** A name with a new line tells the two apart. */
  lemma NewlineTellsThemApart()
    ensures Like("%", "\n") && !GlobMatches("%", "\n")
  {
    PercentMatches("\n");
    assert '\n' in "\n";
  }

  lemma {:induction false} PlainGlobIsEquality(pattern: string, value: string)
    requires !UsesGlob(pattern)
    ensures GlobMatches(pattern, value) <==> pattern == value
    decreases |pattern|
  {
    if pattern != "" {
      assert forall i :: 0 <= i < |pattern[1..]| ==> pattern[1..][i] == pattern[i + 1];
      assert !IsWild(pattern[0]);
      AtomsCons(pattern, value);
      if value != "" {
        PlainGlobIsEquality(pattern[1..], value[1..]);
        assert value == [value[0]] + value[1..] && pattern == [pattern[0]] + pattern[1..];
      }
    }
  }

  function Singles(value: string): seq<string> {
    seq(|value|, i requires 0 <= i < |value| => [value[i]])
  }

  lemma {:induction false} SinglesJoin(value: string)
    ensures Concat(Singles(value)) == value
  {
    if value != "" {
      SinglesJoin(value[1..]);
      assert Singles(value)[1..] == Singles(value[1..]);
      assert [value[0]] + value[1..] == value;
    }
  }

  /** A pattern matches itself, wildcards and all. */
  lemma GlobMatchesItself(value: string)
    ensures GlobMatches(value, value)
  {
    SinglesJoin(value);
    PartsToGlob(value, value, Singles(value));
  }
}
