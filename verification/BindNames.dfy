/**
  Bind names: the grammar users may write, the grammar the driver accepts, and
  the encoding between them (`$` becomes `_x24_`, `#` becomes `_x23_`).

  The reserved words of the driver are a parameter `unsafe`. The two facts the
  rewriter relies on are `NoPrefixP` and `NoSentinelWord`.
 */
module BindNames {
  import opened Text

  const DOLLAR_SENTINEL := "_x24_"
  const HASH_SENTINEL := "_x23_"
  const UNNAMED := "p_unnamed"

  /** One of the sentinels, in any letter case, stands at position i. */
  predicate SentinelAt(s: string, i: nat) {
    i + 5 <= |s| && s[i] == '_' && LowerByte(s[i + 1]) == 'x' && s[i + 2] == '2' &&
    (s[i + 3] == '4' || s[i + 3] == '3') && s[i + 4] == '_'
  }

  predicate HasSentinel(s: string) {
    exists i :: 0 <= i < |s| && SentinelAt(s, i)
  }

  predicate IsUserName(name: string) {
    name != "" && IsNameStart(name[0]) && forall i :: 0 <= i < |name| ==> IsNameBody(name[i])
  }

  predicate IsDriverName(name: string) {
    IsUserName(name) && !NeedsEncoding(name)
  }

  predicate NeedsEncoding(name: string) {
    exists i :: 0 <= i < |name| && IsMarked(name[i])
  }

  predicate ValidUser(name: string, unsafe: set<string>) {
    IsUserName(name) && !HasSentinel(name) && Upper(name) !in unsafe
  }

  predicate ValidDriver(name: string, unsafe: set<string>) {
    IsDriverName(name) && Upper(name) !in unsafe
  }

  predicate NoPrefixP(unsafe: set<string>) {
    forall w :: w in unsafe ==> !StartsWith(w, "P_")
  }

  predicate NoSentinelWord(unsafe: set<string>) {
    forall w :: w in unsafe ==> !HasSentinel(w)
  }

  function EncodeByte(c: char): (r: string)
    ensures r != "" && r[|r| - 1] == (if IsMarked(c) then '_' else c)
    ensures IsMarked(c) ==> |r| == 5 && r[0] == '_'
  {
    if c == '$' then DOLLAR_SENTINEL else if c == '#' then HASH_SENTINEL else [c]
  }

  function Encode(name: string): string {
    if name == "" then "" else EncodeByte(name[0]) + Encode(name[1..])
  }

  lemma {:induction false} EncodeAppend(a: string, b: string)
    ensures Encode(a + b) == Encode(a) + Encode(b)
  {
    if a == "" {
      assert a + b == b;
    } else {
      EncodeAppend(a[1..], b);
      assert (a + b)[0] == a[0] && (a + b)[1..] == a[1..] + b;
      ConcatAssoc(EncodeByte(a[0]), Encode(a[1..]), Encode(b));
    }
  }

  /** The encoding leaves only letters, digits and underscores. */
  lemma {:induction false} EncodeIsPlain(name: string)
    requires forall i :: 0 <= i < |name| ==> IsNameBody(name[i])
    ensures forall i :: 0 <= i < |Encode(name)| ==> IsNameBody(Encode(name)[i]) && !IsMarked(Encode(name)[i])
    ensures |Encode(name)| >= |name|
    ensures name != "" ==> Encode(name)[0] == (if IsMarked(name[0]) then '_' else name[0])
    ensures name != "" ==> var c := name[|name| - 1];
                           Encode(name)[|Encode(name)| - 1] == (if IsMarked(c) then '_' else c)
  {
    if name != "" {
      EncodeIsPlain(name[1..]);
      assert name[1..] != "" ==> name[1..][|name| - 2] == name[|name| - 1];
    }
  }

  lemma {:induction false} EncodeUnchanged(name: string)
    requires !NeedsEncoding(name)
    ensures Encode(name) == name
  {
    if name != "" {
      assert !IsMarked(name[0]);
      assert forall i :: 0 <= i < |name[1..]| ==> name[1..][i] == name[i + 1];
      EncodeUnchanged(name[1..]);
    }
  }

  lemma UpperKeepsSentinel(s: string)
    ensures HasSentinel(Upper(s)) == HasSentinel(s)
  {
    forall i | 0 <= i < |s| ensures SentinelAt(s, i) == SentinelAt(Upper(s), i) {
      if i + 5 <= |s| {
        assert forall j :: i <= j < i + 5 ==> Upper(s)[j] == UpperByte(s[j]);
      }
    }
    if HasSentinel(s) {
      var i :| 0 <= i < |s| && SentinelAt(s, i);
      assert SentinelAt(Upper(s), i);
    }
  }

  lemma {:induction false} EncodeChanged(name: string)
    requires NeedsEncoding(name)
    ensures HasSentinel(Encode(name))
  {
    var i :| 0 <= i < |name| && IsMarked(name[i]);
    assert name == name[..i] + [name[i]] + name[i + 1..];
    EncodeAppend(name[..i] + [name[i]], name[i + 1..]);
    EncodeAppend(name[..i], [name[i]]);
    assert Encode([name[i]]) == EncodeByte(name[i]) by { assert Encode("") == ""; }
    assert SentinelAt(Encode(name), |Encode(name[..i])|);
  }

  /** A name the user may write never fails the driver check once encoded. */
  lemma EncodedIsValidDriver(name: string, unsafe: set<string>)
    requires ValidUser(name, unsafe) && NoSentinelWord(unsafe)
    ensures ValidDriver(Encode(name), unsafe)
  {
    EncodeIsPlain(name);
    if NeedsEncoding(name) {
      EncodeChanged(name);
      UpperKeepsSentinel(Encode(name));
    } else {
      EncodeUnchanged(name);
    }
  }

  /** At the first marked byte of a name its encoding differs from it. */
  lemma {:induction false} EncodeDiverges(name: string) returns (k: nat)
    requires NeedsEncoding(name)
    ensures k < |name| && k < |Encode(name)| && name[k] != Encode(name)[k]
    ensures name[..k] == Encode(name)[..k]
  {
    if IsMarked(name[0]) {
      k := 0;
    } else {
      var i :| 0 <= i < |name| && IsMarked(name[i]);
      assert name[1..][i - 1] == name[i];
      var j := EncodeDiverges(name[1..]);
      k := j + 1;
      assert Encode(name) == [name[0]] + Encode(name[1..]);
      assert name[..k] == [name[0]] + name[1..][..j];
    }
  }

  /**
    The encoding alone is not injective: two different valid names share one
    driver name, so only the table kept by the rewrite map tells them apart.
   */
  lemma EncodeIsNotInjective()
    ensures ValidUser("a_x24$", {}) && ValidUser("a$x24_", {})
    ensures Encode("a_x24$") == Encode("a$x24_") == "a_x24_x24_"
  {
    hide Encode;
    EncodeParts("a_x24", "");
    EncodeParts("a", "x24_");
    assert "a_x24" + "$" + "" == "a_x24$" && "a" + "$" + "x24_" == "a$x24_";
  }

  lemma EncodeParts(a: string, b: string)
    requires !NeedsEncoding(a) && !NeedsEncoding(b)
    ensures Encode(a + "$" + b) == a + DOLLAR_SENTINEL + b
  {
    EncodeUnchanged(a);
    EncodeUnchanged(b);
    EncodeAppend(a + "$", b);
    EncodeAppend(a, "$");
    assert Encode("$") == DOLLAR_SENTINEL by { assert Encode("") == ""; }
  }

  /** Checks a name, then writes its driver form byte by byte. */
  method RewriteName(name: string, unsafe: set<string>) returns (r: Result<(string, bool), string>)
    requires NoSentinelWord(unsafe)
    ensures r.Ok? <==> ValidUser(name, unsafe)
    ensures r.Ok? ==> r.value == (Encode(name), NeedsEncoding(name)) && ValidDriver(r.value.0, unsafe)
    ensures r.Err? ==> r.error == name
  {
    if !ValidUser(name, unsafe) {
      return Err(name);
    }
    EncodedIsValidDriver(name, unsafe);
    if !NeedsEncoding(name) {
      EncodeUnchanged(name);
      if !ValidDriver(name, unsafe) {
        return Err(name);
      }
      return Ok((name, false));
    }
    var b := "";
    for i := 0 to |name|
      invariant b == Encode(name[..i])
    {
      EncodeAppend(name[..i], [name[i]]);
      assert name[..i + 1] == name[..i] + [name[i]];
      assert Encode([name[i]]) == EncodeByte(name[i]) by { assert Encode("") == ""; }
      b := b + EncodeByte(name[i]);
    }
    assert name[..|name|] == name;
    if !ValidDriver(b, unsafe) {
      return Err(name);
    }
    r := Ok((b, true));
  }

  function TrimLeft(s: string): (r: string)
    ensures r != "" ==> r[0] != '_'
    ensures forall i :: 0 <= i < |r| ==> r[i] in s
  {
    if s != "" && s[0] == '_' then TrimLeft(s[1..]) else s
  }

  function TrimRight(s: string): (r: string)
    ensures r <= s
  {
    if s != "" && s[|s| - 1] == '_' then TrimRight(s[..|s| - 1]) else s
  }

  /** Whether a name is valid does not depend on its letter case. */
  lemma ValidityIgnoresCase(a: string, b: string, unsafe: set<string>)
    requires Upper(a) == Upper(b)
    ensures ValidUser(a, unsafe) <==> ValidUser(b, unsafe)
    ensures ValidDriver(a, unsafe) <==> ValidDriver(b, unsafe)
  {
    hide Upper, HasSentinel;
    UpperKeepsSentinel(a);
    UpperKeepsSentinel(b);
    assert |Upper(a)| == |a| == |b|;
    forall i | 0 <= i < |a|
      ensures IsNameStart(a[i]) == IsNameStart(b[i]) && IsNameBody(a[i]) == IsNameBody(b[i]) &&
              IsMarked(a[i]) == IsMarked(b[i])
    {
      assert UpperByte(a[i]) == Upper(a)[i] == UpperByte(b[i]);
    }
  }

  function CleanByte(c: char): char {
    if IsNameBody(c) then c else '_'
  }

  function Cleaned(name: string): (r: string)
    ensures |r| == |name|
  {
    seq(|name|, i requires 0 <= i < |name| => CleanByte(name[i]))
  }

  /** The name without its stray bytes and its outer underscores. */
  function Stem(name: string): string
    requires name != ""
  {
    TrimRight(TrimLeft((if IsNameStart(name[0]) then "" else "p_") + Cleaned(name)))
  }

  function Started(stem: string): string {
    if stem != "" && IsNameStart(stem[0]) then stem else "p_" + stem
  }

  function Suggestion(name: string, unsafe: set<string>): string {
    if name == "" || Stem(name) == "" then UNNAMED
    else
      var s := Started(Stem(name));
      if HasSentinel(s) then UNNAMED
      else
        var t := if Upper(s) in unsafe then "p_" + s else s;
        if !IsUserName(t) || HasSentinel(t) then UNNAMED else t
  }

  lemma UnnamedIsValid(unsafe: set<string>)
    requires NoPrefixP(unsafe)
    ensures ValidUser(UNNAMED, unsafe)
  {
    assert Upper(UNNAMED)[..2] == "P_";
  }

  lemma SuggestionIsValid(name: string, unsafe: set<string>)
    requires NoPrefixP(unsafe)
    ensures ValidUser(Suggestion(name, unsafe), unsafe)
  {
    hide HasSentinel, IsUserName, Stem;
    UnnamedIsValid(unsafe);
    if name != "" {
      assert Upper("p_" + Started(Stem(name)))[..2] == "P_";
    }
  }

  lemma NoTrim(s: string)
    requires s != "" && s[0] != '_' && s[|s| - 1] != '_'
    ensures TrimRight(TrimLeft(s)) == s
  {
  }

  lemma CleanedIs(name: string)
    requires forall i :: 0 <= i < |name| ==> IsNameBody(name[i])
    ensures Cleaned(name) == name
  {
  }

  /**
    A name of good bytes without outer underscores is kept, apart from a prefix:
    it is its own suggestion, unless it is reserved or does not start like a name.
   */
  lemma SuggestionKeeps(name: string, unsafe: set<string>)
    requires NoPrefixP(unsafe) && name != "" && (forall i :: 0 <= i < |name| ==> IsNameBody(name[i]))
    requires name[0] != '_' && name[|name| - 1] != '_' && !HasSentinel(name) && !HasSentinel("p_" + name)
    ensures Suggestion(name, unsafe) ==
            if IsNameStart(name[0]) && Upper(name) !in unsafe then name else "p_" + name
  {
    hide HasSentinel, Upper, TrimLeft, TrimRight;
    CleanedIs(name);
    NoTrim(name);
    NoTrim("p_" + name);
    PrefixedIsName(name, unsafe);
    assert "" + name == name;
  }

  lemma PrefixedIsName(name: string, unsafe: set<string>)
    requires NoPrefixP(unsafe) && forall i :: 0 <= i < |name| ==> IsNameBody(name[i])
    ensures IsUserName("p_" + name) && Upper("p_" + name) !in unsafe
  {
    assert Upper("p_" + name)[..2] == "P_";
  }

  /** Behind the first byte, a stray byte counts as an underscore. */
  lemma StrayByteIsUnderscore(a: string, c: char, b: string, unsafe: set<string>)
    requires a != "" && !IsNameBody(c)
    ensures Suggestion(a + [c] + b, unsafe) == Suggestion(a + "_" + b, unsafe)
  {
    hide HasSentinel, Upper, TrimLeft, TrimRight, Started, IsUserName;
    assert Cleaned(a + [c] + b) == Cleaned(a + "_" + b);
  }

  lemma CleanedGrows(name: string, i: nat)
    requires i < |name|
    ensures Cleaned(name)[..i + 1] == Cleaned(name)[..i] + [if IsNameBody(name[i]) then name[i] else '_']
  {
  }

  lemma {:induction false} TrimLeftBefore(s: string)
    ensures TrimLeft(s + "_") == if TrimLeft(s) == "" then "" else TrimLeft(s) + "_"
  {
    if s == "" {
      assert s + "_" == "_" && "_"[1..] == "";
    } else if s[0] == '_' {
      TrimLeftBefore(s[1..]);
      assert (s + "_")[1..] == s[1..] + "_";
    }
  }

  lemma TrimOuter(s: string)
    ensures TrimRight(TrimLeft(s + "_")) == TrimRight(TrimLeft(s)) == TrimRight(TrimLeft("_" + s))
  {
    hide TrimLeft;
    TrimLeftBefore(s);
    var t := TrimLeft(s);
    assert (t + "_")[..|t|] == t;
    TrimLeftStep(s);
  }

  lemma TrimLeftStep(s: string)
    ensures TrimLeft("_" + s) == TrimLeft(s)
  {
    assert ("_" + s)[1..] == s;
  }

  lemma StemIs(name: string)
    requires name != ""
    ensures Stem(name + "_") == Stem(name)
    ensures IsNameStart(name[0]) ==> Stem("_" + name) == Stem(name)
  {
    hide TrimLeft, TrimRight;
    assert Cleaned(name + "_") == Cleaned(name) + "_" && Cleaned("_" + name) == "_" + Cleaned(name);
    var prefix := if IsNameStart(name[0]) then "" else "p_";
    ConcatAssoc(prefix, Cleaned(name), "_");
    TrimOuter(prefix + Cleaned(name));
    assert "" + Cleaned(name) == Cleaned(name) && "" + ("_" + Cleaned(name)) == "_" + Cleaned(name);
  }

  /** Outer underscores do not matter. */
  lemma UnderscoresGo(name: string, unsafe: set<string>)
    requires name != ""
    ensures Suggestion(name + "_", unsafe) == Suggestion(name, unsafe)
    ensures IsNameStart(name[0]) ==> Suggestion("_" + name, unsafe) == Suggestion(name, unsafe)
  {
    hide Stem, Started, HasSentinel, Upper, IsUserName, IsNameStart;
    StemIs(name);
  }

  /** Proposes a name that the user may write in place of a rejected one. */
  method SafeSuggestion(name: string, unsafe: set<string>) returns (r: string)
    requires NoPrefixP(unsafe)
    ensures r == Suggestion(name, unsafe) && ValidUser(r, unsafe)
  {
    hide HasSentinel, IsUserName, Upper, TrimLeft, TrimRight, ValidUser, NoPrefixP, Cleaned, IsNameBody, IsNameStart;
    SuggestionIsValid(name, unsafe);
    if name == "" {
      return UNNAMED;
    }
    var b := "";
    if !IsNameStart(name[0]) {
      b := "p_";
    }
    ghost var prefix := b;
    assert prefix + Cleaned(name)[..0] == prefix;
    for i := 0 to |name|
      invariant b == prefix + Cleaned(name)[..i]
    {
      b := b + [if IsNameBody(name[i]) then name[i] else '_'];
      CleanedGrows(name, i);
    }
    assert Cleaned(name)[..|name|] == Cleaned(name);
    r := TrimRight(TrimLeft(b));
    if r == "" {
      return UNNAMED;
    }
    if !IsNameStart(r[0]) {
      r := "p_" + r;
    }
    if HasSentinel(r) {
      return UNNAMED;
    }
    if Upper(r) in unsafe {
      r := "p_" + r;
    }
    if !IsUserName(r) || HasSentinel(r) {
      return UNNAMED;
    }
  }
}
