/** The classes of bytes, spelled out: what the range tests in the other modules come to. */
module ByteTables {
  import opened Text
  import opened WalletQuery

  const CAPITALS := "ABCDEFGHIJKLMNOPQRSTUVWXYZ"
  const SMALL := "abcdefghijklmnopqrstuvwxyz"
  const DIGITS := "0123456789"

  lemma NameClasses(c: char)
    ensures IsDigit(c) <==> c in DIGITS
    ensures IsNameStart(c) <==> c in CAPITALS || c in SMALL || c == '_'
    ensures IsNameBody(c) <==> c in CAPITALS || c in SMALL || c in DIGITS || c in "_$#"
    ensures IsBadStart(c) <==> c in DIGITS || c in "$#"
    ensures Unreserved(c) <==> c in CAPITALS || c in SMALL || c in DIGITS || c in "-_.~"
  {
    CapitalsAre(c);
    SmallAre(c);
    DigitsAre(c);
    assert c in "_$#" <==> c == '_' || c == '$' || c == '#' by { ThreeOf(c, "_$#"); }
    assert c in "$#" <==> c == '$' || c == '#' by { assert "$#"[0] == '$' && "$#"[1] == '#'; }
    assert c in "-_.~" <==> c == '-' || c == '_' || c == '.' || c == '~' by {
      assert "-_.~"[0] == '-' && "-_.~"[1] == '_' && "-_.~"[2] == '.' && "-_.~"[3] == '~';
    }
  }

  lemma ThreeOf(c: char, s: string)
    requires |s| == 3
    ensures c in s <==> c == s[0] || c == s[1] || c == s[2]
  {
  }

  lemma CapitalsAre(c: char)
    ensures 'A' <= c <= 'Z' <==> c in CAPITALS
    ensures 'A' <= c <= 'Z' ==> CAPITALS[c as int - 'A' as int] == c
  {
    CapitalAt();
    if 'A' <= c <= 'Z' {
      assert CAPITALS[c as int - 'A' as int] == c;
    }
  }

  lemma CapitalAt()
    ensures forall i :: 0 <= i < 26 ==> CAPITALS[i] as int == 'A' as int + i
  {
  }

  lemma SmallAre(c: char)
    ensures 'a' <= c <= 'z' <==> c in SMALL
    ensures 'a' <= c <= 'z' ==> SMALL[c as int - 'a' as int] == c
  {
    SmallAt();
    if 'a' <= c <= 'z' {
      assert SMALL[c as int - 'a' as int] == c;
    }
  }

  lemma SmallAt()
    ensures forall i :: 0 <= i < 26 ==> SMALL[i] as int == 'a' as int + i
  {
  }

  lemma DigitsAre(c: char)
    ensures '0' <= c <= '9' <==> c in DIGITS
    ensures '0' <= c <= '9' ==> DIGITS[c as int - '0' as int] == c
  {
    DigitAt();
    if '0' <= c <= '9' {
      assert DIGITS[c as int - '0' as int] == c;
    }
  }

  lemma DigitAt()
    ensures forall i :: 0 <= i < 10 ==> DIGITS[i] as int == '0' as int + i
  {
  }

  /** The two letter cases pair up, and nothing else is touched. */
  lemma LetterCases(c: char, i: nat)
    ensures i < 26 ==> UpperByte(SMALL[i]) == CAPITALS[i] && LowerByte(CAPITALS[i]) == SMALL[i]
    ensures c !in SMALL ==> UpperByte(c) == c
    ensures c !in CAPITALS ==> LowerByte(c) == c
  {
    CapitalsAre(c);
    SmallAre(c);
    CapitalAt();
    SmallAt();
    if i < 26 {
      assert SMALL[i] as int == 'a' as int + i && CAPITALS[i] as int == 'A' as int + i;
    }
  }

  lemma SpaceClasses(c: char)
    ensures IsSpace(c) <==> c in " \n\r\t\U{000B}\U{000C}"
    ensures IsBroadByte(c) <==> !IsSpace(c) && c !in "/:();,'\"="
  {
    var s := " \n\r\t\U{000B}\U{000C}";
    assert s[0] == ' ' && s[1] == '\n' && s[2] == '\r' && s[3] == '\t' && s[4] == '\U{000B}' && s[5] == '\U{000C}';
    var t := "/:();,'\"=";
    assert t[0] == '/' && t[1] == ':' && t[2] == '(' && t[3] == ')' && t[4] == ';' && t[5] == ',';
    assert t[6] == '\'' && t[7] == '"' && t[8] == '=';
  }

  /** What is written for a byte: itself, a plus for a space, or a percent sign and two capital digits. */
  lemma EscapesSpelled(c: char)
    requires IsByte(c)
    ensures EscapeByte(c) ==
            if c in CAPITALS || c in SMALL || c in DIGITS || c in "-_.~" then [c]
            else if c == ' ' then "+"
            else ['%', "0123456789ABCDEF"[c as int / 16], "0123456789ABCDEF"[c as int % 16]]
  {
    hide CAPITALS, SMALL, DIGITS, Unreserved;
    NameClasses(c);
    EscapeOf(c);
  }

  lemma EscapeOf(c: char)
    requires IsByte(c)
    ensures EscapeByte(c) ==
            if Unreserved(c) then [c]
            else if c == ' ' then "+"
            else ['%', "0123456789ABCDEF"[c as int / 16], "0123456789ABCDEF"[c as int % 16]]
  {
    hide Unreserved;
    assert c as int % 256 == c as int;
  }

  /** An escape is read alike with capital and with small digits, and nothing else is a digit. */
  lemma EscapesReadAlike(high: nat, low: nat, rest: string)
    requires high < 16 && low < 16 && Unescape(rest).Ok?
    ensures forall a, b ::
              a in {"0123456789ABCDEF"[high], "0123456789abcdef"[high]} &&
              b in {"0123456789ABCDEF"[low], "0123456789abcdef"[low]} ==>
                Unescape(['%', a, b] + rest) == Ok([(16 * high + low) as char] + Unescape(rest).value)
  {
    hide Unescape, HexValue;
    HexEitherCase(high);
    HexEitherCase(low);
    forall a, b |
      a in {"0123456789ABCDEF"[high], "0123456789abcdef"[high]} &&
      b in {"0123456789ABCDEF"[low], "0123456789abcdef"[low]}
      ensures Unescape(['%', a, b] + rest) == Ok([(16 * high + low) as char] + Unescape(rest).value)
    {
      UnescapeHex(a, b, rest);
    }
  }

  lemma HexEitherCase(v: nat)
    requires v < 16
    ensures HexValue("0123456789ABCDEF"[v]) == Some(v) == HexValue("0123456789abcdef"[v])
  {
  }

  predicate IsHex(c: char) {
    c in "0123456789" || c in "ABCDEFabcdef"
  }

  lemma HexDigitsOnly(c: char)
    ensures HexValue(c).Some? <==> IsHex(c)
  {
    DigitsAre(c);
    var s := "ABCDEFabcdef";
    assert forall i :: 0 <= i < 6 ==> s[i] as int == 'A' as int + i;
    assert forall i :: 6 <= i < 12 ==> s[i] as int == 'a' as int + i - 6;
    if 'A' <= c <= 'F' {
      assert s[c as int - 'A' as int] == c;
    } else if 'a' <= c <= 'f' {
      assert s[c as int - 'a' as int + 6] == c;
    }
  }

  /** Two digits stand behind the percent sign at i. */
  predicate GoodEscape(s: string, i: nat) {
    i + 2 < |s| && IsHex(s[i + 1]) && IsHex(s[i + 2])
  }

  /** A text is refused exactly when some percent sign is not followed by two digits. */
  lemma {:induction false} UnescapesExactly(s: string)
    ensures Unescape(s).Ok? <==> forall i: nat :: i < |s| && s[i] == '%' ==> GoodEscape(s, i)
  {
    hide HexValue, IsHex;
    if s != "" {
      var k := if s[0] == '%' then 3 else 1;
      if s[0] == '%' && |s| >= 3 {
        HexDigitsOnly(s[1]);
        HexDigitsOnly(s[2]);
        HexNoPercent(s[1]);
        HexNoPercent(s[2]);
      }
      if k <= |s| {
        UnescapesExactly(s[k..]);
        forall i: nat | k <= i < |s|
          ensures s[i] == s[k..][i - k] && (GoodEscape(s[k..], i - k) <==> GoodEscape(s, i))
        {
        }
        assert forall j: nat :: j < |s| - k ==> s[k..][j] == s[j + k];
      } else {
        assert !GoodEscape(s, 0);
      }
    }
  }

  lemma HexNoPercent(c: char)
    ensures IsHex(c) ==> c != '%'
  {
    HexDigitsOnly(c);
  }
}
