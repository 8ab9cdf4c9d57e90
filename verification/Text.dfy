/**
  Byte classes and small text functions shared by the other modules.

  A Go string is modelled as a `string` whose characters stand for bytes. The
  theorems quantify over every character, and so over every byte.
 */
module Text {

  datatype Option<+T> = None | Some(value: T)

  datatype Result<+T, +E> = Ok(value: T) | Err(error: E)

  predicate IsSpace(c: char) {
    c == ' ' || c == '\n' || c == '\r' || c == '\t' || c == '\U{000C}' || c == '\U{000B}'
  }

  predicate IsDigit(c: char) {
    '0' <= c <= '9'
  }

  /** A letter or an underscore: the first byte of a bind name. */
  predicate IsNameStart(c: char) {
    'A' <= c <= 'Z' || 'a' <= c <= 'z' || c == '_'
  }

  predicate IsMarked(c: char) {
    c == '$' || c == '#'
  }

  predicate IsNameBody(c: char) {
    IsNameStart(c) || IsDigit(c) || IsMarked(c)
  }

  /** After a colon these bytes start a bind that the rewriter rejects. */
  predicate IsBadStart(c: char) {
    IsDigit(c) || IsMarked(c)
  }

  /** The wide byte set that may precede a cursor marker. */
  predicate IsBroadByte(c: char) {
    !IsSpace(c) && c != '/' && c != ':' && c != '(' && c != ')' && c != ';' && c != ',' &&
    c != '\'' && c != '"' && c != '='
  }

  function UpperByte(c: char): char {
    if 'a' <= c <= 'z' then c - 32 as char else c
  }

  function LowerByte(c: char): char {
    if 'A' <= c <= 'Z' then c + 32 as char else c
  }

  function Upper(s: string): (r: string)
    ensures |r| == |s|
    ensures forall i :: 0 <= i < |s| ==> r[i] == UpperByte(s[i])
  {
    seq(|s|, i requires 0 <= i < |s| => UpperByte(s[i]))
  }

  function Lower(s: string): (r: string)
    ensures |r| == |s|
    ensures forall i :: 0 <= i < |s| ==> r[i] == LowerByte(s[i])
  {
    seq(|s|, i requires 0 <= i < |s| => LowerByte(s[i]))
  }

  /** Length of the leading white space. */
  function SpaceLen(s: string): (n: nat)
    ensures n <= |s|
  {
    if s != "" && IsSpace(s[0]) then 1 + SpaceLen(s[1..]) else 0
  }

  lemma {:induction false} SpacesThen(spaces: string, rest: string)
    requires (forall i :: 0 <= i < |spaces| ==> IsSpace(spaces[i])) && (rest != "" ==> !IsSpace(rest[0]))
    ensures SpaceLen(spaces + rest) == |spaces|
  {
    hide IsSpace;
    if spaces == "" {
      assert spaces + rest == rest;
    } else {
      assert (spaces + rest)[1..] == spaces[1..] + rest;
      SpacesThen(spaces[1..], rest);
    }
  }

  /** Length of the leading run of name bytes. */
  function NameLen(s: string): (n: nat)
    ensures n <= |s|
    ensures forall i :: 0 <= i < n ==> IsNameBody(s[i])
    ensures n < |s| ==> !IsNameBody(s[n])
  {
    if s != "" && IsNameBody(s[0]) then 1 + NameLen(s[1..]) else 0
  }

  function Concat(parts: seq<string>): string {
    if parts == [] then "" else parts[0] + Concat(parts[1..])
  }

  lemma {:induction false} ConcatAppend(a: seq<string>, b: seq<string>)
    ensures Concat(a + b) == Concat(a) + Concat(b)
  {
    hide *;
    if a == [] {
      ConcatNothing();
      assert a + b == b && "" + Concat(b) == Concat(b);
    } else {
      ConcatAppend(a[1..], b);
      ConcatStep(a + b);
      ConcatStep(a);
      assert (a + b)[0] == a[0] && (a + b)[1..] == a[1..] + b;
      ConcatAssoc(a[0], Concat(a[1..]), Concat(b));
    }
  }

  lemma ConcatNothing()
    ensures Concat([]) == ""
  {
  }

  lemma ConcatStep(parts: seq<string>)
    requires parts != []
    ensures Concat(parts) == parts[0] + Concat(parts[1..])
  {
  }

  lemma ConcatAssoc(a: string, b: string, c: string)
    ensures (a + b) + c == a + (b + c)
  {
  }

  lemma SliceOfSlice(s: string, a: nat, b: nat, c: nat, d: nat)
    requires a <= b <= |s| && c <= d <= b - a
    ensures s[a..b][c..d] == s[a + c..a + d]
  {
    forall k | 0 <= k < d - c ensures s[a..b][c..d][k] == s[a + c..a + d][k] {
      assert s[a..b][c + k] == s[a + (c + k)];
    }
  }

  lemma DropOfSlice(s: string, a: nat, b: nat, c: nat)
    requires a + c <= b <= |s|
    ensures s[a..b][c..] == s[a + c..b]
  {
  }

  predicate StartsWith(s: string, p: string) {
    |p| <= |s| && s[..|p|] == p
  }
}
