/**
  Reading a driver name back: `_x24_` is `$` and `_x23_` is `#`. The reader takes
  the first sentinel it meets, so a name comes back exactly when no sentinel
  comes to stand at the seam between what the user wrote and what was encoded.
 */
module NamesDecoded {
  import opened Text
  import opened BindNames
  import opened NameMap
  import opened RewritePlan

  function Decode(s: string): string {
    if StartsWith(s, "_x24_") then "$" + Decode(s[5..])
    else if StartsWith(s, "_x23_") then "#" + Decode(s[5..])
    else if s == "" then ""
    else [s[0]] + Decode(s[1..])
  }

  /** Four bytes of a sentinel, and behind them an underscore or a byte whose sentinel begins with one. */
  predicate Overlap(name: string, i: nat) {
    && i + 5 <= |name| && (name[i..i + 4] == "_x24" || name[i..i + 4] == "_x23")
    && (name[i + 4] == '_' || name[i + 4] == '$' || name[i + 4] == '#')
  }

  predicate Readable(name: string) {
    forall i :: 0 <= i < |name| ==> !Overlap(name, i)
  }

  lemma EncodeCons(c: char, t: string)
    ensures Encode([c] + t) == EncodeByte(c) + Encode(t)
  {
    assert ([c] + t)[1..] == t;
  }

  /** What stands at the head of an encoded text, up to the first underscore. */
  lemma {:induction false} EncodeBegins(t: string, p: string)
    requires '_' !in p && !NeedsEncoding(p)
    ensures StartsWith(Encode(t), p + "_") <==>
              |p| < |t| && t[..|p|] == p && (t[|p|] == '_' || IsMarked(t[|p|]))
  {
    hide Encode;
    EncodeNothing();
    if t != "" {
      var e := Encode(t[1..]);
      assert t == [t[0]] + t[1..];
      EncodeCons(t[0], t[1..]);
      if p == "" {
        assert p + "_" == "_";
      } else if !IsMarked(t[0]) {
        assert EncodeByte(t[0]) == [t[0]];
        StartsCons(t[0], e, p[0], p[1..] + "_");
        assert p + "_" == [p[0]] + (p[1..] + "_");
        NoMarksBehind(p);
        EncodeBegins(t[1..], p[1..]);
        assert |p| <= |t| ==> t[..|p|] == [t[0]] + t[1..][..|p| - 1];
      } else {
        var sentinel := EncodeByte(t[0]);
        assert sentinel + e == ['_'] + (sentinel[1..] + e) && p + "_" == [p[0]] + (p[1..] + "_");
        StartsCons('_', sentinel[1..] + e, p[0], p[1..] + "_");
        MarkIsOther(t, p);
      }
    }
  }

  lemma MarkIsOther(t: string, p: string)
    requires t != "" && p != "" && IsMarked(t[0]) && !NeedsEncoding(p)
    ensures |p| <= |t| ==> t[..|p|] != p
  {
    assert !IsMarked(p[0]);
    assert |p| <= |t| ==> t[..|p|][0] == t[0];
  }

  lemma EncodeNothing()
    ensures Encode("") == ""
  {
  }

  lemma StartsCons(c: char, t: string, d: char, p: string)
    ensures StartsWith([c] + t, [d] + p) <==> c == d && StartsWith(t, p)
  {
    if 1 + |p| <= 1 + |t| {
      assert ([c] + t)[..|p| + 1] == [c] + t[..|p|];
      assert ([c] + t)[..|p| + 1][1..] == t[..|p|] && ([d] + p)[1..] == p;
    }
  }

  lemma NoMarksBehind(p: string)
    requires p != "" && '_' !in p && !NeedsEncoding(p)
    ensures '_' !in p[1..] && !NeedsEncoding(p[1..]) && !IsMarked(p[0])
  {
    assert forall i :: 0 <= i < |p| - 1 ==> p[1..][i] == p[i + 1];
  }

  lemma SentinelBegins(name: string)
    requires name != "" && !IsMarked(name[0])
    ensures StartsWith(Encode(name), "_x24_") || StartsWith(Encode(name), "_x23_") <==> Overlap(name, 0)
  {
    hide Encode;
    var t := name[1..];
    assert name == [name[0]] + t;
    EncodeCons(name[0], t);
    assert EncodeByte(name[0]) == [name[0]];
    EncodeBegins(t, "x24");
    EncodeBegins(t, "x23");
    assert "x24" + "_" == "x24_" && "x23" + "_" == "x23_";
    StartsCons(name[0], Encode(t), '_', "x24_");
    StartsCons(name[0], Encode(t), '_', "x23_");
    assert ['_'] + "x24_" == "_x24_" && ['_'] + "x23_" == "_x23_";
    if |name| >= 5 {
      assert name[..4] == [name[0]] + t[..3] && name[0..4] == name[..4];
      assert ['_'] + "x24" == "_x24" && ['_'] + "x23" == "_x23";
      assert name[..4][1..] == t[..3] && "_x24"[1..] == "x24" && "_x23"[1..] == "x23";
    }
  }

  lemma DecodeSentinel(rest: string)
    ensures Decode("_x24_" + rest) == "$" + Decode(rest) && Decode("_x23_" + rest) == "#" + Decode(rest)
  {
    assert ("_x24_" + rest)[..5] == "_x24_" && ("_x24_" + rest)[5..] == rest;
    assert ("_x23_" + rest)[..5] == "_x23_" && ("_x23_" + rest)[5..] == rest;
    assert ("_x23_" + rest)[..5][3] == '3';
  }

  lemma DecodePlain(c: char, rest: string)
    requires !StartsWith([c] + rest, "_x24_") && !StartsWith([c] + rest, "_x23_")
    ensures Decode([c] + rest) == [c] + Decode(rest)
  {
    assert ([c] + rest)[1..] == rest;
  }

  lemma DecodeHead(s: string)
    ensures StartsWith(s, "_x24_") || StartsWith(s, "_x23_") ==> Decode(s) != "" && IsMarked(Decode(s)[0])
  {
  }

  lemma ReadableCons(name: string)
    requires name != ""
    ensures Readable(name) <==> !Overlap(name, 0) && Readable(name[1..])
  {
    assert forall i :: 0 <= i < |name| - 1 ==> Overlap(name[1..], i) == Overlap(name, i + 1) by {
      forall i | 0 <= i < |name| - 1 ensures Overlap(name[1..], i) == Overlap(name, i + 1) {
        assert i + 6 <= |name| ==> name[1..][i..i + 4] == name[i + 1..i + 5];
      }
    }
    forall i | 0 <= i < |name| && Readable(name[1..]) && !Overlap(name, 0) ensures !Overlap(name, i) {
      if i > 0 {
        assert !Overlap(name[1..], i - 1);
      }
    }
  }

  /** A name is read back from its driver name exactly when no sentinel overlaps a seam. */
  lemma {:induction false} DecodesExactly(name: string)
    ensures Decode(Encode(name)) == name <==> Readable(name)
  {
    hide Encode, Decode, Overlap, Readable;
    if name == "" {
      NothingDecodes();
    } else {
      var c, t := name[0], name[1..];
      assert name == [c] + t;
      EncodeCons(c, t);
      ReadableCons(name);
      DecodesExactly(t);
      if IsMarked(c) {
        DecodeSentinel(Encode(t));
        MarkIsNoOverlap(name);
        assert "$" + Decode(Encode(t)) == name <==> c == '$' && Decode(Encode(t)) == t by {
          SameTail("$", Decode(Encode(t)), name);
        }
        assert "#" + Decode(Encode(t)) == name <==> c == '#' && Decode(Encode(t)) == t by {
          SameTail("#", Decode(Encode(t)), name);
        }
      } else {
        SentinelBegins(name);
        if Overlap(name, 0) {
          DecodeHead(Encode(name));
        } else {
          DecodePlain(c, Encode(t));
          SameTail([c], Decode(Encode(t)), name);
        }
      }
    }
  }

  lemma SameTail(c: string, d: string, name: string)
    requires |c| == 1 && name != ""
    ensures c + d == name <==> c[0] == name[0] && d == name[1..]
  {
    assert (c + d)[1..] == d && (c + d)[0] == c[0];
    assert name == [name[0]] + name[1..];
  }

  lemma MarkIsNoOverlap(name: string)
    requires name != "" && IsMarked(name[0])
    ensures !Overlap(name, 0)
  {
    if |name| >= 5 {
      assert name[0..4][0] == name[0];
    }
  }

  lemma NothingDecodes()
    ensures Decode("") == "" && Encode("") == "" && Readable("")
  {
  }

  /** A sentinel without its last byte, in front of a byte to encode. */
  predicate Seam(name: string, i: nat) {
    i + 5 <= |name| && (name[i..i + 4] == "_x24" || name[i..i + 4] == "_x23") && IsMarked(name[i + 4])
  }

  /** For names that users may write, these seams are what must not occur. */
  lemma ValidReadable(name: string, unsafe: set<string>)
    requires ValidUser(name, unsafe)
    ensures Decode(Encode(name)) == name <==> forall i :: 0 <= i < |name| ==> !Seam(name, i)
  {
    hide Decode, Encode, Overlap, Seam, SentinelAt, IsUserName;
    DecodesExactly(name);
    forall i: nat | i < |name| ensures Overlap(name, i) <==> Seam(name, i) {
      OverlapIs(name, i);
    }
  }

  lemma OverlapIs(name: string, i: nat)
    ensures Overlap(name, i) <==> Seam(name, i) || (Overlap(name, i) && SentinelAt(name, i))
  {
    if Overlap(name, i) {
      var four := name[i..i + 4];
      assert four[0] == name[i] && four[1] == name[i + 1] && four[2] == name[i + 2] && four[3] == name[i + 3];
    }
  }

  /** The other way round, every text without `$` and `#` is the encoding of what is read from it. */
  lemma {:induction false} EncodesWhatItReads(s: string)
    requires !NeedsEncoding(s)
    ensures Encode(Decode(s)) == s
  {
    hide Encode, EncodeByte;
    if s == "" {
      NothingDecodes();
    } else if StartsWith(s, "_x24_") || StartsWith(s, "_x23_") {
      TailUnmarked(s, 5);
      EncodesWhatItReads(s[5..]);
      EncodeCons(if StartsWith(s, "_x24_") then '$' else '#', Decode(s[5..]));
      SentinelsAre();
      assert s == s[..5] + s[5..];
    } else {
      TailUnmarked(s, 1);
      EncodesWhatItReads(s[1..]);
      EncodeCons(s[0], Decode(s[1..]));
      PlainEncodes(s[0]);
      assert s == [s[0]] + s[1..];
    }
  }

  lemma TailUnmarked(s: string, k: nat)
    requires k <= |s| && !NeedsEncoding(s)
    ensures !NeedsEncoding(s[k..]) && (k > 0 ==> !IsMarked(s[0]))
  {
    assert forall i :: 0 <= i < |s| - k ==> s[k..][i] == s[i + k];
  }

  lemma SentinelsAre()
    ensures EncodeByte('$') == "_x24_" && EncodeByte('#') == "_x23_"
  {
  }

  lemma PlainEncodes(c: char)
    requires !IsMarked(c)
    ensures EncodeByte(c) == [c]
  {
  }

  // ----- Which names collide -----

  lemma LowerCons(c: char, t: string)
    ensures Lower([c] + t) == [LowerByte(c)] + Lower(t)
    ensures Lower("") == ""
  {
    hide LowerByte;
    LowerAppend([c], t);
  }

  lemma LowerAppend(a: string, b: string)
    ensures Lower(a + b) == Lower(a) + Lower(b)
  {
    hide LowerByte;
  }

  /** Encoding and folding to small letters commute. */
  lemma {:induction false} LowerEncode(name: string)
    ensures Lower(Encode(name)) == Encode(Lower(name))
  {
    hide Encode, EncodeByte, Lower;
    EncodeNothing();
    if name == "" {
      LowerCons('a', "");
    } else {
      var c, t := name[0], name[1..];
      assert name == [c] + t;
      LowerEncode(t);
      EncodeCons(c, t);
      LowerCons(c, t);
      EncodeCons(LowerByte(c), Lower(t));
      LowerAppend(EncodeByte(c), Encode(t));
      LowerSentinel(c);
    }
  }

  lemma LowerSentinel(c: char)
    ensures Lower(EncodeByte(c)) == EncodeByte(LowerByte(c))
  {
  }

  /** Equal but for case, by capitals or by small letters. */
  lemma UpperIsLower(a: string, b: string)
    ensures Upper(a) == Upper(b) <==> Lower(a) == Lower(b)
  {
    if Upper(a) == Upper(b) {
      assert |Upper(a)| == |Upper(b)|;
      assert forall i :: 0 <= i < |a| ==> Upper(a)[i] == UpperByte(a[i]) && Upper(b)[i] == UpperByte(b[i]);
      assert forall i :: 0 <= i < |a| ==> Lower(a)[i] == Lower(b)[i];
    }
    if Lower(a) == Lower(b) {
      assert |Lower(a)| == |Lower(b)|;
      assert forall i :: 0 <= i < |a| ==> Lower(a)[i] == LowerByte(a[i]) && Lower(b)[i] == LowerByte(b[i]);
      assert forall i :: 0 <= i < |a| ==> Upper(a)[i] == Upper(b)[i];
    }
  }

  /** Names without overlaps collide exactly when they differ in case only. */
  lemma CollideExactly(a: string, b: string)
    requires Readable(Lower(a)) && Readable(Lower(b))
    ensures DriverKey(a) == DriverKey(b) <==> Upper(a) == Upper(b)
  {
    hide Encode, Decode, Readable, Lower, Upper;
    if Upper(a) == Upper(b) {
      KeyOfUpper(a, b);
    }
    if DriverKey(a) == DriverKey(b) {
      UpperIsLower(Encode(a), Encode(b));
      LowerEncode(a);
      LowerEncode(b);
      DecodesExactly(Lower(a));
      DecodesExactly(Lower(b));
      UpperIsLower(a, b);
    }
  }

  /** The names agree but for `$` against `#`. */
  predicate DifferInMarks(a: string, b: string) {
    |a| == |b| && forall i :: 0 <= i < |a| ==> a[i] == b[i] || (IsMarked(a[i]) && IsMarked(b[i]))
  }

  /** Such names never collide, overlaps or not. */
  lemma {:induction false} MarksKeepApart(a: string, b: string)
    requires DifferInMarks(a, b) && DriverKey(a) == DriverKey(b)
    ensures a == b
  {
    hide Encode, EncodeByte;
    if a != "" {
      assert a == [a[0]] + a[1..] && b == [b[0]] + b[1..];
      EncodeCons(a[0], a[1..]);
      EncodeCons(b[0], b[1..]);
      UpperAppend(EncodeByte(a[0]), Encode(a[1..]));
      UpperAppend(EncodeByte(b[0]), Encode(b[1..]));
      MarkKeys(a[0], b[0]);
      var x, y := Upper(EncodeByte(a[0])), Upper(EncodeByte(b[0]));
      assert (x + DriverKey(a[1..]))[..|x|] == x && (x + DriverKey(a[1..]))[|x|..] == DriverKey(a[1..]);
      assert (y + DriverKey(b[1..]))[..|y|] == y && (y + DriverKey(b[1..]))[|y|..] == DriverKey(b[1..]);
      MarksKeepApart(a[1..], b[1..]);
    }
  }

  lemma MarkKeys(c: char, d: char)
    requires c == d || (IsMarked(c) && IsMarked(d))
    ensures |Upper(EncodeByte(c))| == |Upper(EncodeByte(d))|
    ensures Upper(EncodeByte(c)) == Upper(EncodeByte(d)) ==> c == d
  {
    assert Upper("_x24_")[3] == '4' && Upper("_x23_")[3] == '3';
  }
}
