/**
  The query string of a connection URL: finding its wallet parameter and
  replacing the parameter's value. Escaping is that of section 2.1 of RFC 3986,
  with `+` for a space.
 */
module WalletQuery {
  import opened Text

  datatype Problem = BadEscape | Conflict

  datatype Param = Param(key: string, value: string)

  predicate IsByte(c: char) {
    (c as int) < 256
  }

  predicate Unreserved(c: char) {
    'A' <= c <= 'Z' || 'a' <= c <= 'z' || IsDigit(c) || c == '-' || c == '_' || c == '.' || c == '~'
  }

  const HEX := "0123456789ABCDEF"

  function HexValue(c: char): Option<nat> {
    if IsDigit(c) then Some(c as int - '0' as int)
    else if 'A' <= c <= 'F' then Some(c as int - 'A' as int + 10)
    else if 'a' <= c <= 'f' then Some(c as int - 'a' as int + 10)
    else None
  }

  function EscapeByte(c: char): string {
    if Unreserved(c) then [c]
    else if c == ' ' then "+"
    else ['%', HEX[c as int % 256 / 16], HEX[c as int % 16]]
  }

  function Escape(s: string): string {
    if s == "" then "" else EscapeByte(s[0]) + Escape(s[1..])
  }

  function Unescape(s: string): Result<string, Problem> {
    if s == "" then Ok("")
    else if s[0] == '%' then
      if |s| < 3 || HexValue(s[1]).None? || HexValue(s[2]).None? then Err(BadEscape)
      else
        var rest := Unescape(s[3..]);
        if rest.Err? then rest
        else Ok([(16 * HexValue(s[1]).value + HexValue(s[2]).value) as char] + rest.value)
    else
      var rest := Unescape(s[1..]);
      if rest.Err? then rest else Ok([if s[0] == '+' then ' ' else s[0]] + rest.value)
  }

  lemma HexDigits(v: nat)
    requires v < 16
    ensures HexValue(HEX[v]) == Some(v) && HEX[v] != '&' && HEX[v] != '='
  {
  }

  lemma UnescapeHex(a: char, b: char, rest: string)
    requires HexValue(a).Some? && HexValue(b).Some?
    ensures Unescape(['%', a, b] + rest) ==
            var r := Unescape(rest);
            if r.Err? then r else Ok([(16 * HexValue(a).value + HexValue(b).value) as char] + r.value)
  {
    hide HexValue;
    assert (['%', a, b] + rest)[3..] == rest;
  }

  lemma UnescapePlain(c: char, rest: string)
    requires c != '%'
    ensures Unescape([c] + rest) ==
            var r := Unescape(rest); if r.Err? then r else Ok([if c == '+' then ' ' else c] + r.value)
  {
    hide HexValue;
    assert ([c] + rest)[1..] == rest;
  }

  lemma EscapeOne(c: char, rest: string)
    requires IsByte(c)
    ensures Unescape(EscapeByte(c) + rest) ==
            (var r := Unescape(rest); if r.Err? then r else Ok([c] + r.value))
    ensures '&' !in EscapeByte(c) && '=' !in EscapeByte(c)
  {
    hide Unescape, HexValue;
    if Unreserved(c) {
      UnescapePlain(c, rest);
    } else if c == ' ' {
      UnescapePlain('+', rest);
    } else {
      EscapeHex(c, rest);
    }
  }

  lemma EscapeHex(c: char, rest: string)
    requires IsByte(c)
    ensures var s := ['%', HEX[c as int % 256 / 16], HEX[c as int % 16]];
            && Unescape(s + rest) == (var r := Unescape(rest); if r.Err? then r else Ok([c] + r.value))
            && '&' !in s && '=' !in s
  {
    hide *;
    var high, low := c as int % 256 / 16, c as int % 16;
    ByteDigits(c);
    HexDigits(high);
    HexDigits(low);
    UnescapeHex(HEX[high], HEX[low], rest);
  }

  lemma ByteDigits(c: char)
    requires IsByte(c)
    ensures c as int % 256 / 16 < 16 == |HEX| && (16 * (c as int % 256 / 16) + c as int % 16) as char == c
  {
  }

  lemma {:induction false} EscapeRoundTrip(s: string)
    requires forall i :: 0 <= i < |s| ==> IsByte(s[i])
    ensures Unescape(Escape(s)) == Ok(s) && '&' !in Escape(s) && '=' !in Escape(s)
  {
    hide Unescape, EscapeByte;
    if s == "" {
      EmptyText();
    } else {
      EscapeRoundTrip(s[1..]);
      EscapeOne(s[0], Escape(s[1..]));
      assert s == [s[0]] + s[1..];
    }
  }

  lemma EmptyText()
    ensures Unescape("") == Ok("")
  {
  }

  // ----- Segments -----

  /** The non-empty stretches between `&`. */
  function Fields(s: string): (r: seq<string>)
    decreases |s|
  {
    if s == "" then []
    else
      var n := CutLen(s, '&');
      (if n == 0 then [] else [s[..n]]) + (if n == |s| then [] else Fields(s[n + 1..]))
  }

  /** Length of s up to the first c. */
  function CutLen(s: string, c: char): (n: nat)
    ensures n <= |s| && c !in s[..n]
    ensures n < |s| ==> s[n] == c
  {
    if s == "" || s[0] == c then 0 else
      var n := CutLen(s[1..], c);
      assert s[..n + 1] == [s[0]] + s[1..][..n];
      n + 1
  }

  function JoinFields(parts: seq<string>): string {
    if parts == [] then "" else if |parts| == 1 then parts[0] else parts[0] + "&" + JoinFields(parts[1..])
  }

  function RawKey(part: string): string {
    part[..CutLen(part, '=')]
  }

  function RawValue(part: string): string {
    var n := CutLen(part, '=');
    if n < |part| then part[n + 1..] else ""
  }

  predicate IsWalletKey(key: string) {
    |key| == 6 && forall i :: 0 <= i < 6 ==> LowerByte(key[i]) == "wallet"[i]
  }

  predicate IsWallet(part: string) {
    Unescape(RawKey(part)).Ok? && IsWalletKey(Unescape(RawKey(part)).value)
  }

  /** What the segments say about the wallet, given what was found before them. */
  function FindIn(parts: seq<string>, found: Option<Param>): Result<Option<Param>, Problem> {
    if parts == [] then Ok(found)
    else
      var key := Unescape(RawKey(parts[0]));
      if key.Err? then Err(BadEscape)
      else if !IsWalletKey(key.value) then FindIn(parts[1..], found)
      else
        var value := Unescape(RawValue(parts[0]));
        if value.Err? then Err(BadEscape)
        else if found.None? then FindIn(parts[1..], Some(Param(key.value, value.value)))
        else if found.value.value != value.value then Err(Conflict)
        else FindIn(parts[1..], found)
  }

  function Find(rawQuery: string): Result<Option<Param>, Problem> {
    FindIn(Fields(rawQuery), None)
  }

  method FindWalletQueryParam(rawQuery: string) returns (r: Result<Option<Param>, Problem>)
    ensures r == Find(rawQuery)
  {
    var found: Option<Param> := None;
    var parts := Fields(rawQuery);
    for i := 0 to |parts|
      invariant Find(rawQuery) == FindIn(parts[i..], found)
    {
      var part := parts[i];
      assert parts[i..][1..] == parts[i + 1..];
      var key := Unescape(RawKey(part));
      if key.Err? {
        return Err(BadEscape);
      }
      if !IsWalletKey(key.value) {
        continue;
      }
      var value := Unescape(RawValue(part));
      if value.Err? {
        return Err(BadEscape);
      }
      if found.None? {
        found := Some(Param(key.value, value.value));
        continue;
      }
      if found.value.value != value.value {
        return Err(Conflict);
      }
    }
    return Ok(found);
  }

  function Segment(key: string, path: string): string {
    Escape(key) + "=" + Escape(path)
  }

  /** The first wallet segment becomes `seg`, later ones go; with none, `seg` is added at the end. */
  function Replaced(parts: seq<string>, seg: string, wrote: bool): seq<string> {
    if parts == [] then (if wrote then [] else [seg])
    else if IsWallet(parts[0]) then (if wrote then [] else [seg]) + Replaced(parts[1..], seg, true)
    else [parts[0]] + Replaced(parts[1..], seg, wrote)
  }

  lemma ReplacedStep(parts: seq<string>, i: nat, seg: string, wrote: bool)
    requires i <= |parts|
    ensures var r := Replaced(parts[i..], seg, wrote);
            if i == |parts| then r == if wrote then [] else [seg]
            else if !IsWallet(parts[i]) then r == [parts[i]] + Replaced(parts[i + 1..], seg, wrote)
            else if wrote then r == Replaced(parts[i + 1..], seg, true)
            else r == [seg] + Replaced(parts[i + 1..], seg, true)
  {
    hide IsWallet;
    if i < |parts| {
      assert parts[i..][1..] == parts[i + 1..];
    }
  }

  method RewriteWalletRawQuery(rawQuery: string, originalKey: string, walletPath: string) returns (r: string)
    ensures r == JoinFields(Replaced(Fields(rawQuery), Segment(originalKey, walletPath), false))
  {
    hide Fields, Escape, IsWallet, JoinFields, Replaced;
    var parts := Fields(rawQuery);
    var seg := Escape(originalKey) + "=" + Escape(walletPath);
    var out: seq<string>, wroteWallet := [], false;
    assert parts[0..] == parts;
    for i := 0 to |parts|
      invariant out + Replaced(parts[i..], seg, wroteWallet) == Replaced(parts, seg, false)
    {
      ReplacedStep(parts, i, seg, wroteWallet);
      if IsWallet(parts[i]) {
        if wroteWallet {
          continue;
        }
        wroteWallet := true;
        out := out + [seg];
        continue;
      }
      out := out + [parts[i]];
    }
    ReplacedStep(parts, |parts|, seg, wroteWallet);
    if !wroteWallet {
      out := out + [seg];
    }
    assert out == Replaced(parts, seg, false);
    return JoinFields(out);
  }

  // ----- The round trip -----

  predicate IsField(part: string) {
    part != "" && '&' !in part
  }

  lemma CutAtEnd(s: string, c: char)
    requires c !in s
    ensures CutLen(s, c) == |s|
  {
  }

  lemma {:induction false} CutAt(s: string, c: char, rest: string)
    requires c !in s
    ensures CutLen(s + [c] + rest, c) == |s|
  {
    if s != "" {
      CutAt(s[1..], c, rest);
      assert (s + [c] + rest)[1..] == s[1..] + [c] + rest;
    }
  }

  lemma {:induction false} FieldsAreFields(s: string)
    ensures forall p :: p in Fields(s) ==> IsField(p)
    decreases |s|
  {
    if s != "" {
      var n := CutLen(s, '&');
      if n < |s| {
        FieldsAreFields(s[n + 1..]);
      }
    }
  }

  lemma FieldThenRest(part: string, rest: string)
    requires IsField(part)
    ensures Fields(part) == [part] && Fields(part + "&" + rest) == [part] + Fields(rest)
  {
    hide CutLen;
    CutAtEnd(part, '&');
    CutAt(part, '&', rest);
    assert part[..|part|] == part;
    var s := part + "&" + rest;
    assert s == part + ['&'] + rest && s[..|part|] == part && s[|part| + 1..] == rest;
  }

  lemma {:induction false} JoinThenSplit(parts: seq<string>)
    requires forall p :: p in parts ==> IsField(p)
    ensures Fields(JoinFields(parts)) == parts
  {
    hide Fields, IsField;
    if parts == [] {
      assert Fields("") == [] by { NoFields(); }
    } else {
      assert parts[0] in parts;
      FieldThenRest(parts[0], JoinFields(parts[1..]));
      JoinThenSplit(parts[1..]);
    }
  }

  lemma NoFields()
    ensures Fields("") == []
  {
  }

  /** The segments that are not about the wallet. */
  function Others(parts: seq<string>): seq<string> {
    if parts == [] then [] else (if IsWallet(parts[0]) then [] else [parts[0]]) + Others(parts[1..])
  }

  function CountWallets(parts: seq<string>): nat {
    if parts == [] then 0 else (if IsWallet(parts[0]) then 1 else 0) + CountWallets(parts[1..])
  }

  lemma {:induction false} ReplacedKeepsOthers(parts: seq<string>, seg: string, wrote: bool)
    requires IsWallet(seg)
    ensures Others(Replaced(parts, seg, wrote)) == Others(parts)
    ensures CountWallets(Replaced(parts, seg, wrote)) == if wrote then 0 else 1
    ensures forall p :: p in Replaced(parts, seg, wrote) ==> p in parts || p == seg
  {
    hide IsWallet;
    if parts != [] {
      ReplacedKeepsOthers(parts[1..], seg, wrote || IsWallet(parts[0]));
      var rest := Replaced(parts[1..], seg, wrote || IsWallet(parts[0]));
      OneMore(seg, rest);
      OneMore(parts[0], rest);
    } else {
      OneMore(seg, []);
    }
  }

  lemma OneMore(part: string, rest: seq<string>)
    ensures Others([part] + rest) == (if IsWallet(part) then [] else [part]) + Others(rest)
    ensures CountWallets([part] + rest) == (if IsWallet(part) then 1 else 0) + CountWallets(rest)
    ensures [] + rest == rest
  {
    hide IsWallet;
    assert ([part] + rest)[1..] == rest;
  }

  lemma SegmentIs(key: string, path: string)
    requires IsWalletKey(key) && forall i :: 0 <= i < |path| ==> IsByte(path[i])
    ensures var seg := Segment(key, path);
            && IsField(seg) && IsWallet(seg)
            && Unescape(RawKey(seg)) == Ok(key) && Unescape(RawValue(seg)) == Ok(path)
  {
    hide Unescape, Escape, LowerByte;
    WalletKeyIsPlain(key);
    EscapeRoundTrip(key);
    EscapeRoundTrip(path);
    var seg := Segment(key, path);
    CutAt(Escape(key), '=', Escape(path));
    assert seg == Escape(key) + ['='] + Escape(path);
    assert seg[..|Escape(key)|] == Escape(key) && seg[|Escape(key)| + 1..] == Escape(path);
  }

  lemma WalletKeyIsPlain(key: string)
    requires IsWalletKey(key)
    ensures forall i :: 0 <= i < |key| ==> IsByte(key[i])
  {
  }

  /** Once the wallet is written, the search finds it and nothing that contradicts it. */
  lemma {:induction false} FindReplaced(parts: seq<string>, key: string, path: string,
                                        before: Option<Param>, wrote: bool)
    requires FindIn(parts, before).Ok?
    requires IsWallet(Segment(key, path)) && Unescape(RawKey(Segment(key, path))) == Ok(key)
    requires Unescape(RawValue(Segment(key, path))) == Ok(path) && IsWalletKey(key)
    ensures FindIn(Replaced(parts, Segment(key, path), wrote), if wrote then Some(Param(key, path)) else None) ==
            Ok(Some(Param(key, path)))
    decreases |parts|
  {
    hide Unescape, RawKey, RawValue, Segment, IsWalletKey;
    var seg := Segment(key, path);
    FindCons(seg, [], None);
    FindNothing(Some(Param(key, path)));
    if parts != [] {
      var rest := parts[1..];
      var found := if wrote then Some(Param(key, path)) else None;
      assert parts == [parts[0]] + rest;
      FindCons(parts[0], rest, before);
      if IsWallet(parts[0]) {
        var value := Unescape(RawValue(parts[0])).value;
        var first := Some(Param(Unescape(RawKey(parts[0])).value, value));
        FindReplaced(rest, key, path, if before.None? then first else before, true);
        FindCons(seg, Replaced(rest, seg, true), None);
        assert [] + Replaced(rest, seg, true) == Replaced(rest, seg, true);
      } else {
        FindReplaced(rest, key, path, before, wrote);
        FindCons(parts[0], Replaced(rest, seg, wrote), found);
      }
    }
  }

  lemma FindNothing(found: Option<Param>)
    ensures FindIn([], found) == Ok(found)
  {
  }

  lemma FindCons(part: string, rest: seq<string>, found: Option<Param>)
    ensures FindIn([part] + rest, found) ==
            var key := Unescape(RawKey(part));
            if key.Err? then Err(BadEscape)
            else if !IsWalletKey(key.value) then FindIn(rest, found)
            else
              var value := Unescape(RawValue(part));
              if value.Err? then Err(BadEscape)
              else if found.None? then FindIn(rest, Some(Param(key.value, value.value)))
              else if found.value.value != value.value then Err(Conflict)
              else FindIn(rest, found)
  {
    hide Unescape, RawKey, RawValue, IsWalletKey;
    assert ([part] + rest)[1..] == rest;
  }

  /**
    When the search succeeds on a query, then on the rewritten query it returns
    the same key with exactly the new path. One wallet segment remains; the other
    segments keep their text and their order.
   */
  lemma WalletRoundTrip(rawQuery: string, key: string, path: string)
    requires Find(rawQuery).Ok? && IsWalletKey(key)
    requires forall i :: 0 <= i < |path| ==> IsByte(path[i])
    ensures var out := JoinFields(Replaced(Fields(rawQuery), Segment(key, path), false));
            && Find(out) == Ok(Some(Param(key, path)))
            && CountWallets(Fields(out)) == 1
            && Others(Fields(out)) == Others(Fields(rawQuery))
  {
    hide *;
    var parts, seg := Fields(rawQuery), Segment(key, path);
    SegmentIs(key, path);
    FindIs(rawQuery);
    FieldsAreFields(rawQuery);
    ReplacedKeepsOthers(parts, seg, false);
    JoinThenSplit(Replaced(parts, seg, false));
    FindIs(JoinFields(Replaced(parts, seg, false)));
    FindReplaced(parts, key, path, None, false);
  }

  lemma FindIs(rawQuery: string)
    ensures Find(rawQuery) == FindIn(Fields(rawQuery), None)
  {
  }

  /** The first `=` parts key and value; without one the value is empty. */
  lemma KeyAndValue(key: string, value: string)
    requires '=' !in key
    ensures RawKey(key) == key && RawValue(key) == ""
    ensures RawKey(key + "=" + value) == key && RawValue(key + "=" + value) == value
  {
    CutAtEnd(key, '=');
    CutAt(key, '=', value);
    assert key + "=" + value == key + ['='] + value;
  }

  // ----- What the search finds -----

  /** Its key can be unescaped, and so can its value when it is about the wallet. */
  predicate Decodes(part: string) {
    Unescape(RawKey(part)).Ok? && (IsWallet(part) ==> Unescape(RawValue(part)).Ok?)
  }

  predicate AllDecode(parts: seq<string>) {
    forall p :: p in parts ==> Decodes(p)
  }

  /** Every wallet segment gives this value. */
  predicate AllGive(parts: seq<string>, value: string) {
    forall p :: p in parts && IsWallet(p) ==> Unescape(RawValue(p)) == Ok(value)
  }

  function Wallets(parts: seq<string>): seq<string> {
    if parts == [] then [] else (if IsWallet(parts[0]) then [parts[0]] else []) + Wallets(parts[1..])
  }

  lemma PartsOf(part: string, rest: seq<string>, value: string)
    ensures AllDecode([part] + rest) <==> Decodes(part) && AllDecode(rest)
    ensures AllGive([part] + rest, value) <==>
              (IsWallet(part) ==> Unescape(RawValue(part)) == Ok(value)) && AllGive(rest, value)
    ensures Wallets([part] + rest) == (if IsWallet(part) then [part] else []) + Wallets(rest)
  {
    hide Unescape, RawKey, RawValue, IsWallet, Decodes;
    assert ([part] + rest)[1..] == rest;
    assert forall p :: p in [part] + rest <==> p == part || p in rest;
  }

  lemma {:induction false} FindAgainst(parts: seq<string>, found: Param)
    ensures FindIn(parts, Some(found)).Ok? <==> AllDecode(parts) && AllGive(parts, found.value)
    ensures FindIn(parts, Some(found)).Ok? ==> FindIn(parts, Some(found)).value == Some(found)
    ensures FindIn(parts, Some(found)).Err? ==>
              if FindIn(parts, Some(found)).error == Conflict then !AllGive(parts, found.value) else !AllDecode(parts)
  {
    hide Unescape, RawKey, RawValue, IsWalletKey, AllDecode, AllGive, Wallets;
    if parts == [] {
      NoParts(found.value);
      FindNothing(Some(found));
    } else {
      assert parts == [parts[0]] + parts[1..];
      FindCons(parts[0], parts[1..], Some(found));
      PartsOf(parts[0], parts[1..], found.value);
      FindAgainst(parts[1..], found);
    }
  }

  lemma NoParts(value: string)
    ensures AllDecode([]) && AllGive([], value) && Wallets([]) == []
  {
  }

  /**
    The search succeeds exactly when everything can be unescaped and all wallet
    segments give one value. It finds nothing when there are none, and else the
    key of the first with that value.
   */
  lemma {:induction false} FindsExactly(parts: seq<string>)
    ensures var r := FindIn(parts, None); var wallets := Wallets(parts);
            && (r.Ok? <==> AllDecode(parts) && exists value :: AllGive(parts, value))
            && (r.Err? ==> if r.error == Conflict then !exists value :: AllGive(parts, value) else !AllDecode(parts))
            && (r.Ok? ==> (r.value.None? <==> wallets == []))
            && (r.Ok? && wallets != [] ==>
                && Unescape(RawKey(wallets[0])) == Ok(r.value.value.key) && AllGive(parts, r.value.value.value))
  {
    hide Unescape, RawKey, RawValue, IsWalletKey, AllDecode, AllGive, Wallets;
    if parts == [] {
      NoParts("");
      FindNothing(None);
    } else {
      var part, rest := parts[0], parts[1..];
      assert parts == [part] + rest;
      FindCons(part, rest, None);
      forall value
        ensures AllDecode(parts) <==> Decodes(part) && AllDecode(rest)
        ensures AllGive(parts, value) <==>
                  (IsWallet(part) ==> Unescape(RawValue(part)) == Ok(value)) && AllGive(rest, value)
        ensures Wallets(parts) == (if IsWallet(part) then [part] else []) + Wallets(rest)
      {
        PartsOf(part, rest, value);
      }
      if IsWallet(part) && Decodes(part) {
        FindAgainst(rest, Param(Unescape(RawKey(part)).value, Unescape(RawValue(part)).value));
      } else {
        FindsExactly(rest);
      }
      PartsOf(part, rest, "");
    }
  }

  lemma WalletKeyIs(key: string)
    ensures IsWalletKey(key) <==> Upper(key) == "WALLET"
  {
    var w, u := "wallet", "WALLET";
    assert forall i :: 0 <= i < 6 ==> UpperByte(w[i]) == u[i] && LowerByte(u[i]) == w[i];
    if Upper(key) == u {
      assert |key| == 6 && forall i :: 0 <= i < 6 ==> UpperByte(key[i]) == u[i];
      assert forall i :: 0 <= i < 6 ==> LowerByte(key[i]) == w[i];
    }
    if IsWalletKey(key) {
      assert forall i :: 0 <= i < 6 ==> UpperByte(key[i]) == u[i];
      assert Upper(key) == u;
    }
  }

  /** The key that the search returns is a wallet key, so it can be written back. */
  lemma {:induction false} FoundKeyIsWallet(parts: seq<string>, found: Option<Param>)
    requires found.Some? ==> IsWalletKey(found.value.key)
    ensures var r := FindIn(parts, found); r.Ok? && r.value.Some? ==> IsWalletKey(r.value.value.key)
    ensures var r := FindIn(parts, found);
            r.Ok? ==> (r.value.Some? <==> found.Some? || CountWallets(parts) > 0)
  {
    hide Unescape, RawKey, RawValue, IsWalletKey;
    if parts != [] {
      var key := Unescape(RawKey(parts[0]));
      var value := Unescape(RawValue(parts[0]));
      if key.Ok? {
        FoundKeyIsWallet(parts[1..], found);
        if IsWalletKey(key.value) && value.Ok? && found.None? {
          FoundKeyIsWallet(parts[1..], Some(Param(key.value, value.value)));
        }
      }
    }
  }
}
