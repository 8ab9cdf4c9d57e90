/** The three phrases, spelled out: what the user is shown for an error text that is just one of them. */
module PhrasesRestored {
  import opened Text
  import opened ReverseNames
  import opened BareTemplates
  import opened PhraseSearch

  function Phrase(t: Template, name: string): string {
    t.before + name + (t.sought + t.tail)
  }

  lemma PhraseTexts(name: string)
    ensures Phrase(NOT_DEFINED, name) == "parameter " + name + " is not defined"
    ensures Phrase(INVALID, name) == "bind " + name + " invalid"
    ensures Phrase(NOT_FOUND, name) == "parameter \"" + name + "\" not found"
  {
  }

  lemma PhraseIsQuoted(t: Template, key: string)
    ensures Quoted(Phrase(t, key), t, key, |t.before|)
    ensures At(Phrase(t, key), t.before + key, 0) && At(Phrase(t, key), t.sought + t.tail, |t.before| + |key|)
  {
    hide *;
    PhraseIs(t, key);
    WholeText(Phrase(t, key));
    SplitAt(Phrase(t, key), t.before + key, t.sought + t.tail, 0);
    SplitAt(Phrase(t, key), t.before, key, 0);
    QuotedIs(Phrase(t, key), t, key, |t.before|);
  }

  lemma WholeText(msg: string)
    ensures At(msg, msg, 0)
  {
    assert msg[0..] == msg && msg[..|msg|] == msg;
  }

  lemma PhraseIs(t: Template, key: string)
    ensures Phrase(t, key) == t.before + key + (t.sought + t.tail)
  {
  }

  lemma PhraseHit(t: Template, key: string)
    requires t in TEMPLATES && forall i :: 0 <= i < |key| ==> IsNameBody(key[i])
    ensures |t.before| in Hits(Phrase(t, key), t, key, 0)
  {
    hide *;
    PhraseIsQuoted(t, key);
    NoneBefore(Phrase(t, key), t, key, |t.before|);
  }

  lemma NoneBefore(msg: string, t: Template, key: string, p: nat)
    requires t in TEMPLATES && Quoted(msg, t, key, p) && p == |t.before|
    ensures p in Hits(msg, t, key, 0)
  {
    hide At, Quoted, Hits, IsNameBody;
    TemplateShape(t);
    PhraseIsFound(msg, t, key, 0, p);
  }

  /** No other name stands in such a text, in any of the phrases. */
  lemma OnlyPhrase(t: Template, key: string, other: Template, name: string, q: nat)
    requires t in TEMPLATES && other in TEMPLATES && key != "" && name != ""
    requires forall i :: 0 <= i < |key| ==> IsNameBody(key[i])
    requires forall i :: 0 <= i < |name| ==> IsNameBody(name[i])
    requires Quoted(Phrase(t, key), other, name, q)
    ensures q == |t.before|
  {
    hide At, Quoted;
    var msg := Phrase(t, key);
    var p := |t.before|;
    QuotedIs(msg, other, name, q);
    BeforeIsApart(t, key, other, name, q);
    if q > p {
      BehindTail(t, key, other, name, q);
    }
  }

  lemma BeforeIsApart(t: Template, key: string, other: Template, name: string, q: nat)
    requires t in TEMPLATES && other in TEMPLATES && key != "" && name != ""
    requires (forall i :: 0 <= i < |key| ==> IsNameBody(key[i])) && IsNameBody(name[0])
    requires |other.before| <= q
    requires At(Phrase(t, key), other.before, q - |other.before|) && At(Phrase(t, key), name, q)
    ensures q >= |t.before| && (q > |t.before| ==> q > |t.before| + |key|)
  {
    hide At, IsNameBody;
    var msg, p, w := Phrase(t, key), |t.before|, |other.before|;
    TemplateShape(other);
    AtChar(msg, other.before, q - w, w - 1);
    AtChar(msg, other.before, q - w, w - 2);
    AtChar(msg, name, q, 0);
    assert forall i :: 0 <= i < |key| ==> msg[p + i] == key[i];
    assert forall i :: 0 <= i < p ==> msg[i] == t.before[i];
    OpeningShape(t);
    OpeningShape(other);
  }

  lemma OpeningShape(t: Template)
    requires t in TEMPLATES
    ensures var w := |t.before|;
            && w >= 2 && (t.before[w - 1] == ' ' || t.before[w - 1] == '"')
            && !IsNameBody(' ') && !IsNameBody('"')
            && (t.before[w - 1] == '"' <==> w == 11) && (w == 11 ==> t.before[w - 2] == ' ')
            && (t.before[w - 1] == ' ' ==> t.before[w - 2] != ' ')
            && (forall i :: 0 <= i < w - 1 ==> t.before[i] != '"')
            && (forall i :: 0 <= i < w - 2 ==> t.before[i] != ' ')
            && (w == 10 ==> t.before[w - 2] == 'r') && (w == 5 ==> t.before[w - 2] == 'd') && w in {5, 10, 11}
  {
  }

  lemma BehindTail(t: Template, key: string, other: Template, name: string, q: nat)
    requires t in TEMPLATES && other in TEMPLATES && name != ""
    requires q > |t.before| + |key|
    ensures !At(Phrase(t, key), other.sought + other.tail, q + |name|)
  {
    hide StartsWith;
    var msg, end := Phrase(t, key), |t.before| + |key|;
    var j := q + |name| - end;
    if q + |name| <= |msg| {
      assert msg[q + |name|..] == (t.sought + t.tail)[j..];
      TailText(t);
      TailText(other);
      NoTailInTail(t.sought + t.tail, other.sought + other.tail, j);
    }
  }

  lemma TailText(t: Template)
    requires t in TEMPLATES
    ensures t.sought + t.tail in {" is not defined", " invalid", "\" not found"}
  {
    assert "" + " is not defined" == " is not defined" && "" + " invalid" == " invalid";
    assert "\" not found" + "" == "\" not found";
  }

  lemma NoTailInTail(r: string, s: string, j: nat)
    requires r in {" is not defined", " invalid", "\" not found"}
    requires s in {" is not defined", " invalid", "\" not found"}
    requires 2 <= j <= |r|
    ensures !StartsWith(r[j..], s)
  {
    if j + |s| <= |r| {
      assert r[j..][..|s|][0] == r[j] && r[j..][..|s|][1] == r[j + 1];
    }
  }

  // ----- End to end -----

  lemma HitsOfPhrase(t: Template, key: string, table: map<string, string>)
    requires t in TEMPLATES && KeysAreNames(table) && key in table
    ensures AllHits(Phrase(t, key), table.Keys) == {|t.before|}
  {
    hide Hits, Quoted, NameOf, IsNameBody;
    var msg := Phrase(t, key);
    PhraseHit(t, key);
    assert |t.before| in KeyHits(msg, key);
    forall k, q | k in table && q in KeyHits(msg, k) ensures q == |t.before| {
      HitsAreQuoted(msg, NOT_DEFINED, k, 0);
      HitsAreQuoted(msg, INVALID, k, 0);
      HitsAreQuoted(msg, NOT_FOUND, k, 0);
      var other := if q in Hits(msg, NOT_DEFINED, k, 0) then NOT_DEFINED
                   else if q in Hits(msg, INVALID, k, 0) then INVALID else NOT_FOUND;
      OnlyPhrase(t, key, other, k, q);
    }
  }

  lemma {:induction false} NoColonsNoChange(s: string, table: map<string, string>)
    requires ':' !in s
    ensures ReverseColons(s, table) == s
  {
    hide NameOf;
    if s != "" {
      NoColonsNoChange(s[1..], table);
    }
  }

  lemma PhraseRewritten(t: Template, key: string, table: map<string, string>)
    requires t in TEMPLATES && KeysAreNames(table) && key in table && ':' !in table[key]
    ensures Restored(Phrase(t, key), table) == Phrase(t, table[key])
  {
    hide AllHits, NameOf, IsNameBody, At;
    var msg, p, user := Phrase(t, key), |t.before|, table[key];
    var end := p + |key|;
    HitsOfPhrase(t, key, table);
    CopyTo(msg, 0, p, {p}, table);
    PhraseName(t, key);
    assert msg[p..end] == key;
    ReplaceHere(msg, Replacement(p, end, user), {p}, table);
    CopyTo(msg, end, |msg|, {p}, table);
    assert ReplaceAt(msg, |msg|, {p}, table) == "";
    assert msg[0..p] == t.before && msg[end..|msg|] == t.sought + t.tail;
    NoColonIn(t);
    assert t.before + (user + (t.sought + t.tail + "")) == Phrase(t, user);
    NoColonsNoChange(Phrase(t, user), table);
  }

  lemma PhraseName(t: Template, key: string)
    requires t in TEMPLATES && forall i :: 0 <= i < |key| ==> IsNameBody(key[i])
    ensures NameOf(Phrase(t, key)[|t.before|..]) == key
  {
    var s := Phrase(t, key)[|t.before|..];
    assert s == key + (t.sought + t.tail);
    assert s[..|key|] == key && !IsNameBody(s[|key|]);
    WholeName(s, key);
  }

  lemma NoColonIn(t: Template)
    requires t in TEMPLATES
    ensures ':' !in t.before && ':' !in t.sought + t.tail
  {
  }

  /** Each of the three texts names the user's bind instead of the driver's. */
  lemma PhrasesNameTheUser(key: string, table: map<string, string>)
    requires KeysAreNames(table) && key in table && ':' !in table[key]
    ensures var user := table[key];
            && Restored("parameter " + key + " is not defined", table) == "parameter " + user + " is not defined"
            && Restored("bind " + key + " invalid", table) == "bind " + user + " invalid"
            && Restored("parameter \"" + key + "\" not found", table) == "parameter \"" + user + "\" not found"
  {
    hide Restored, Phrase, KeysAreNames;
    PhraseTexts(key);
    PhraseTexts(table[key]);
    PhraseRewritten(NOT_DEFINED, key, table);
    PhraseRewritten(INVALID, key, table);
    PhraseRewritten(NOT_FOUND, key, table);
  }
}
