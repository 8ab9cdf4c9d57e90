/** Which keys the search for quoted names can be trusted with. */
module PhraseSearch {
  import opened Text
  import opened ReverseNames
  import opened BareTemplates

  /** The key does not end in the way the phrase begins. */
  predicate KeyApart(key: string, t: Template) {
    forall n :: 1 <= n <= |key| && n <= |t.before| ==> key[|key| - n..] != t.before[..n]
  }

  /** The search for this key and phrase finds every genuine phrase in every text. */
  ghost predicate FindsAll(key: string, t: Template) {
    forall msg, p: nat :: Quoted(msg, t, key, p) ==> p in KeyHitsFor(msg, t, key)
  }

  function KeyHitsFor(msg: string, t: Template, key: string): set<nat> {
    if t.before == "" then {} else Hits(msg, t, key, 0)
  }

  lemma AtChar(msg: string, pattern: string, i: nat, k: nat)
    requires At(msg, pattern, i) && k < |pattern|
    ensures i + k < |msg| && msg[i + k] == pattern[k]
  {
    assert msg[i..][..|pattern|][k] == msg[i + k];
  }

  lemma AtSlice(msg: string, pattern: string, i: nat, a: nat, b: nat)
    requires At(msg, pattern, i) && a <= b <= |pattern|
    ensures i + b <= |msg| && msg[i + a..i + b] == pattern[a..b]
  {
    assert msg[i..][..|pattern|][a..b] == msg[i + a..i + b];
  }

  lemma TemplateShape(t: Template)
    requires t in TEMPLATES
    ensures |t.before| > 1 && !IsNameBody(t.before[|t.before| - 1])
    ensures forall k :: 0 < k < |t.before| ==> t.before[k] != t.before[0]
    ensures t == NOT_FOUND ==> t.before[|t.before| - 1] == '"' && !IsNameBody(t.before[|t.before| - 2])
    ensures t == NOT_FOUND ==> forall k :: 0 <= k < |t.before| - 1 ==> t.before[k] != '"'
    ensures t == NOT_FOUND <==> t.sought != ""
    ensures t == NOT_FOUND ==> t.sought[0] == '"'
  {
  }

  /** The opening of a phrase does not overlap itself. */
  lemma NotInOpening(msg: string, t: Template, i: nat, s: nat)
    requires t in TEMPLATES && At(msg, t.before, i) && At(msg, t.before, s) && i < s
    ensures i + |t.before| <= s
  {
    hide At;
    TemplateShape(t);
    AtChar(msg, t.before, s, 0);
    if s < i + |t.before| {
      AtChar(msg, t.before, i, s - i);
    }
  }

  /** Bytes that the opening and a key share are name bytes. */
  lemma SharedByte(msg: string, t: Template, key: string, at: nat, m: nat, n: nat)
    requires 1 <= m <= |key| && n < m && n < |t.before| && forall k :: 0 <= k < |key| ==> IsNameBody(key[k])
    requires At(msg, key, at) && At(msg, t.before, at + |key| - m)
    ensures IsNameBody(t.before[n])
  {
    hide At, IsNameBody;
    AtChar(msg, t.before, at + |key| - m, n);
    AtChar(msg, key, at, |key| - m + n);
  }

  /** So they share less of it than stands in front of the byte that is no name byte. */
  lemma SharedLength(msg: string, t: Template, key: string, at: nat, m: nat)
    requires t in TEMPLATES && 1 <= m <= |key| && forall k :: 0 <= k < |key| ==> IsNameBody(key[k])
    requires At(msg, key, at) && At(msg, t.before, at + |key| - m)
    ensures m < |t.before| && (t == NOT_FOUND ==> m < |t.before| - 1)
  {
    hide *;
    TemplateShape(t);
    var w := |t.before|;
    if m >= w {
      SharedByte(msg, t, key, at, m, w - 1);
      assert false;
    } else if m >= w - 1 && t == NOT_FOUND {
      SharedByte(msg, t, key, at, m, w - 2);
      assert false;
    }
  }

  /** Where it overlaps a key, the key ends in its first m bytes. */
  lemma KeyEndsAs(msg: string, t: Template, key: string, at: nat, m: nat)
    requires t in TEMPLATES && 1 <= m <= |key| && forall k :: 0 <= k < |key| ==> IsNameBody(key[k])
    requires At(msg, key, at) && At(msg, t.before, at + |key| - m)
    ensures m < |t.before| && key[|key| - m..] == t.before[..m]
    ensures t == NOT_FOUND ==> m < |t.before| - 1
  {
    hide *;
    SharedLength(msg, t, key, at, m);
    var k, s := |key| - m, at + |key| - m;
    AtSlice(msg, key, at, k, |key|);
    AtSlice(msg, t.before, s, 0, m);
    assert at + k == s + 0 && at + |key| == s + m;
    assert key[k..|key|] == key[k..] && t.before[0..m] == t.before[..m];
  }

  /** A phrase cannot begin inside an earlier sighting, except where the key ends like the phrase. */
  lemma BeginsBehind(msg: string, t: Template, key: string, i: nat, s: nat)
    requires t in TEMPLATES && forall k :: 0 <= k < |key| ==> IsNameBody(key[k])
    requires t == NOT_FOUND || KeyApart(key, t)
    requires At(msg, t.before + key + t.sought, i) && At(msg, t.before, s) && i < s
    ensures i + |t.before| + |key| <= s
  {
    hide At, IsNameBody;
    TemplateShape(t);
    var at := i + |t.before|;
    SplitAt(msg, t.before + key, t.sought, i);
    SplitAt(msg, t.before, key, i);
    NotInOpening(msg, t, i, s);
    if s < at + |key| {
      var m := at + |key| - s;
      KeyEndsAs(msg, t, key, at, m);
      if t == NOT_FOUND {
        AtChar(msg, t.before, s, m);
        AtChar(msg, t.sought, at + |key|, 0);
      }
    }
  }

  lemma {:induction false} VisitIsSighting(msg: string, t: Template, key: string, from: nat, i: nat)
    requires t.before != "" && Visits(msg, t, key, from, i)
    ensures At(msg, t.before + key + t.sought, i)
    decreases |msg| - from
  {
    hide At;
    VisitsStep(msg, t, key, from);
    var j := IndexFrom(msg, t.before + key + t.sought, from).value;
    if i != j {
      VisitIsSighting(msg, t, key, j + |t.before| + |key|, i);
    }
  }

  lemma ApartFinds(key: string, t: Template, msg: string, p: nat)
    requires t in TEMPLATES && forall k :: 0 <= k < |key| ==> IsNameBody(key[k])
    requires (t == NOT_FOUND || KeyApart(key, t)) && Quoted(msg, t, key, p)
    ensures p in KeyHitsFor(msg, t, key)
  {
    hide At, IsNameBody, Hits, Visits, KeyApart;
    TemplateShape(t);
    QuotedIs(msg, t, key, p);
    var start := p - |t.before|;
    forall i: nat | Visits(msg, t, key, 0, i) && i < start ensures i + |t.before| + |key| <= start {
      VisitIsSighting(msg, t, key, 0, i);
      BeginsBehind(msg, t, key, i, start);
    }
    PhraseIsFound(msg, t, key, 0, p);
  }

  /** A text in which a phrase begins in the last n bytes of an earlier sighting of the key. */
  function Crossing(key: string, t: Template, n: nat): string
    requires n <= |t.before|
  {
    t.before + key + (t.before[n..] + key + t.tail)
  }

  lemma CrossingText(key: string, t: Template, n: nat)
    requires n <= |key| && n <= |t.before| && key[|key| - n..] == t.before[..n]
    ensures Crossing(key, t, n) == (t.before + key[..|key| - n]) + (t.before + (key + t.tail))
  {
    var a, rest := t.before + key[..|key| - n], key + t.tail;
    assert t.before == t.before[..n] + t.before[n..] && key == key[..|key| - n] + t.before[..n];
    assert Crossing(key, t, n) == t.before + (key[..|key| - n] + t.before[..n]) + (t.before[n..] + rest);
    assert a + (t.before + rest) == t.before + (key[..|key| - n] + t.before[..n]) + (t.before[n..] + rest);
  }

  /** A phrase behind any text is genuine. */
  lemma PhraseBehind(a: string, key: string, t: Template)
    requires t.sought == ""
    ensures Quoted(a + (t.before + (key + t.tail)), t, key, |a| + |t.before|)
  {
    hide *;
    var msg := a + (t.before + (key + t.tail));
    Placed(a, t.before, key + t.tail);
    Placed(a + t.before, key, t.tail);
    Placed(a + t.before + key, t.tail, "");
    ConcatAssoc(a, t.before, key + t.tail);
    ConcatAssoc(a + t.before, key, t.tail);
    assert msg == (a + t.before + key) + (t.tail + "");
    assert t.sought + t.tail == t.tail;
    QuotedIs(msg, t, key, |a| + |t.before|);
  }

  lemma CrossingIsMissed(key: string, t: Template, n: nat)
    requires t in TEMPLATES && t != NOT_FOUND && 1 <= n <= |key| && n <= |t.before|
    requires key[|key| - n..] == t.before[..n]
    ensures var msg := Crossing(key, t, n); var p := 2 * |t.before| + |key| - n;
            Quoted(msg, t, key, p) && p !in KeyHitsFor(msg, t, key)
  {
    hide *;
    TemplateShape(t);
    var msg := Crossing(key, t, n);
    var w := |t.before|;
    CrossingText(key, t, n);
    PhraseBehind(t.before + key[..|key| - n], key, t);
    SeenFirst(key, t, n);
    MissedBehind(msg, t, key, w + |key| - n);
  }

  lemma SeenFirst(key: string, t: Template, n: nat)
    requires n <= |t.before| && t.sought == ""
    ensures At(Crossing(key, t, n), t.before + key + t.sought, 0)
  {
    assert t.before + key + t.sought == t.before + key;
    Placed("", t.before + key, t.before[n..] + key + t.tail);
    assert "" + (t.before + key) == t.before + key;
  }

  /** A sighting at the start hides a phrase that begins inside it. */
  lemma MissedBehind(msg: string, t: Template, key: string, s: nat)
    requires t in TEMPLATES && Quoted(msg, t, key, s + |t.before|) && 0 < s < |t.before| + |key|
    requires At(msg, t.before + key + t.sought, 0)
    ensures s + |t.before| !in KeyHitsFor(msg, t, key)
  {
    hide At, Quoted, Hits;
    TemplateShape(t);
    VisitsStep(msg, t, key, 0);
    assert Visits(msg, t, key, 0, 0);
    PhraseIsFound(msg, t, key, 0, s + |t.before|);
  }

  lemma Placed(a: string, b: string, c: string)
    ensures At(a + b + c, b, |a|) && At(a + (b + c), b, |a|)
  {
    assert (a + b + c)[|a|..] == b + c && (b + c)[..|b|] == b;
    assert a + b + c == a + (b + c);
  }

  /**
    The search finds every genuine phrase for a key, in every text, exactly when
    the key does not end in the way the phrase begins. The quoted phrase is safe
    for every key.
   */
  lemma FindsAllExactly(key: string, t: Template)
    requires t in TEMPLATES && forall k :: 0 <= k < |key| ==> IsNameBody(key[k])
    ensures FindsAll(key, t) <==> t == NOT_FOUND || KeyApart(key, t)
  {
    hide IsNameBody, Quoted, KeyHitsFor;
    if t == NOT_FOUND || KeyApart(key, t) {
      forall msg, p: nat | Quoted(msg, t, key, p) ensures p in KeyHitsFor(msg, t, key) {
        ApartFinds(key, t, msg, p);
      }
    } else {
      var n :| 1 <= n <= |key| && n <= |t.before| && key[|key| - n..] == t.before[..n];
      CrossingIsMissed(key, t, n);
    }
  }

  /** With such keys in the table, the names replaced are just those in genuine phrases. */
  lemma AllPhrasesFound(msg: string, table: map<string, string>)
    requires KeysAreNames(table)
    requires forall k :: k in table ==> KeyApart(k, NOT_DEFINED) && KeyApart(k, INVALID)
    ensures forall p: nat :: p in AllHits(msg, table.Keys) <==>
                               exists k, t :: k in table && t in TEMPLATES && Quoted(msg, t, k, p)
  {
    hide At, KeyApart, Hits, Quoted, NameOf;
    forall k, t, p: nat | k in table && t in TEMPLATES ensures Quoted(msg, t, k, p) <==> p in Hits(msg, t, k, 0) {
      TemplateShape(t);
      HitsAreQuoted(msg, t, k, 0);
      if Quoted(msg, t, k, p) {
        ApartFinds(k, t, msg, p);
      }
    }
    forall p: nat | p in AllHits(msg, table.Keys)
      ensures exists k, t :: k in table && t in TEMPLATES && Quoted(msg, t, k, p)
    {
      var k :| k in table && p in KeyHits(msg, k);
      var t := if p in Hits(msg, NOT_DEFINED, k, 0) then NOT_DEFINED
               else if p in Hits(msg, INVALID, k, 0) then INVALID else NOT_FOUND;
      assert Quoted(msg, t, k, p);
    }
    forall k, t, p: nat | k in table && t in TEMPLATES && Quoted(msg, t, k, p) ensures p in AllHits(msg, table.Keys) {
      assert p in KeyHits(msg, k);
    }
  }

  const OVERLAPPED := "parameter a_x24_p" + "arameter a_x24_p is not defined"

  lemma PassedOverText()
    ensures Crossing("a_x24_p", NOT_DEFINED, 1) == OVERLAPPED
  {
    assert "parameter "[1..] == "arameter ";
    assert "arameter " + "a_x24_p" + " is not defined" == "arameter a_x24_p is not defined";
    assert "parameter " + "a_x24_p" == "parameter a_x24_p";
  }

  /** A phrase that is passed over: the key ends in the first letter of the phrase. */
  lemma PhraseIsPassedOver()
    ensures Quoted(OVERLAPPED, NOT_DEFINED, "a_x24_p", 26) && 26 !in Hits(OVERLAPPED, NOT_DEFINED, "a_x24_p", 0)
  {
    hide Quoted, Hits, Crossing;
    var key := "a_x24_p";
    assert key[6..] == "p" == NOT_DEFINED.before[..1];
    CrossingIsMissed(key, NOT_DEFINED, 1);
    PassedOverText();
  }
}
