/**
  The first pass over an error text: driver names inside the three phrases in
  which the driver quotes a bind without its colon.
 */
module BareTemplates {
  import opened Text
  import opened NameMap
  import opened ReverseNames

  /** A phrase around a name; `sought` is found with the name, `tail` is checked after it. */
  datatype Template = Template(before: string, sought: string, tail: string)

  datatype Replacement = Replacement(start: nat, end: nat, text: string)

  const NOT_DEFINED := Template("parameter ", "", " is not defined")
  const INVALID := Template("bind ", "", " invalid")
  const NOT_FOUND := Template("parameter \"", "\" not found", "")
  const TEMPLATES := {NOT_DEFINED, INVALID, NOT_FOUND}

  predicate At(msg: string, pattern: string, i: nat) {
    i <= |msg| && StartsWith(msg[i..], pattern)
  }

  /** The first place at or after `from` where the pattern stands. */
  function IndexFrom(msg: string, pattern: string, from: nat): (r: Option<nat>)
    ensures r.Some? ==> from <= r.value && At(msg, pattern, r.value)
    ensures r.Some? ==> forall i :: from <= i < r.value ==> !At(msg, pattern, i)
    ensures r.None? ==> forall i :: from <= i ==> !At(msg, pattern, i)
    decreases |msg| - from
  {
    if At(msg, pattern, from) then Some(from)
    else if from >= |msg| then None
    else IndexFrom(msg, pattern, from + 1)
  }

  /** The phrase stands around the name at bytes p to p + |key|. */
  predicate Quoted(msg: string, t: Template, key: string, p: nat) {
    && |t.before| <= p && At(msg, t.before, p - |t.before|) && At(msg, key, p)
    && At(msg, t.sought + t.tail, p + |key|)
  }

  /** Starts of the names that the search for one key and one phrase accepts. */
  function Hits(msg: string, t: Template, key: string, from: nat): set<nat>
    requires t.before != ""
    decreases |msg| - from
  {
    match IndexFrom(msg, t.before + key + t.sought, from)
    case None => {}
    case Some(i) =>
      var p := i + |t.before|;
      var end := p + |key|;
      assert |t.before + key + t.sought| <= |msg| - i;
      (if !(end < |msg| && IsNameBody(msg[end])) && At(msg, t.tail, end) then {p} else {}) + Hits(msg, t, key, end)
  }

  function KeyHits(msg: string, key: string): set<nat> {
    Hits(msg, NOT_DEFINED, key, 0) + Hits(msg, INVALID, key, 0) + Hits(msg, NOT_FOUND, key, 0)
  }

  function AllHits(msg: string, keys: set<string>): set<nat> {
    set k, p | k in keys && p in KeyHits(msg, k) :: p
  }

  /** Replaces the names that start at the given positions, from left to right. */
  function ReplaceAt(msg: string, at: nat, starts: set<nat>, table: map<string, string>): string
    decreases |msg| - at
  {
    if at >= |msg| then ""
    else
      var name := NameOf(msg[at..]);
      if at in starts && name != "" && name in table then table[name] + ReplaceAt(msg, at + |name|, starts, table)
      else [msg[at]] + ReplaceAt(msg, at + 1, starts, table)
  }

  /** What the user is shown for an error text. */
  function Restored(msg: string, table: map<string, string>): string {
    ReverseColons(ReplaceAt(msg, 0, AllHits(msg, table.Keys), table), table)
  }

  lemma SplitAt(msg: string, a: string, b: string, i: nat)
    ensures At(msg, a + b, i) <==> At(msg, a, i) && At(msg, b, i + |a|)
  {
    if i + |a| + |b| <= |msg| {
      assert msg[i..][..|a| + |b|] == msg[i..][..|a|] + msg[i + |a|..][..|b|];
      if At(msg, a + b, i) {
        assert msg[i..][..|a|] == (a + b)[..|a|] && msg[i + |a|..][..|b|] == (a + b)[|a|..];
      }
    }
  }

  /** Every accepted name is a whole key inside a genuine phrase. */
  lemma {:induction false} HitsAreQuoted(msg: string, t: Template, key: string, from: nat)
    requires t in TEMPLATES && forall i :: 0 <= i < |key| ==> IsNameBody(key[i])
    ensures forall p :: p in Hits(msg, t, key, from) ==>
                          Quoted(msg, t, key, p) && p + |key| <= |msg| && NameOf(msg[p..]) == key
    decreases |msg| - from
  {
    hide IsNameBody, At, Quoted, NameOf;
    var found := IndexFrom(msg, t.before + key + t.sought, from);
    if found.Some? {
      HitIsQuoted(msg, t, key, found.value);
      HitsAreQuoted(msg, t, key, found.value + |t.before| + |key|);
    }
  }

  lemma HitIsQuoted(msg: string, t: Template, key: string, i: nat)
    requires t in TEMPLATES && forall i :: 0 <= i < |key| ==> IsNameBody(key[i])
    requires At(msg, t.before + key + t.sought, i)
    ensures var p := i + |t.before|; var end := p + |key|;
            && end <= |msg|
            && (!(end < |msg| && IsNameBody(msg[end])) && At(msg, t.tail, end) ==>
                Quoted(msg, t, key, p) && NameOf(msg[p..]) == key)
  {
    hide *;
    var p := i + |t.before|;
    var end := p + |key|;
    SplitAt(msg, t.before + key, t.sought, i);
    SplitAt(msg, t.before, key, i);
    WordAt(msg, key, p);
    if !(end < |msg| && IsNameBody(msg[end])) && At(msg, t.tail, end) {
      TailFollows(msg, t, end);
      QuotedIs(msg, t, key, p);
    }
  }

  lemma QuotedIs(msg: string, t: Template, key: string, p: nat)
    ensures Quoted(msg, t, key, p) <==>
            && |t.before| <= p && At(msg, t.before, p - |t.before|) && At(msg, key, p)
            && At(msg, t.sought + t.tail, p + |key|)
  {
    hide At;
  }

  lemma WordAt(msg: string, key: string, p: nat)
    requires At(msg, key, p) && forall i :: 0 <= i < |key| ==> IsNameBody(key[i])
    ensures p + |key| <= |msg|
    ensures !(p + |key| < |msg| && IsNameBody(msg[p + |key|])) ==> NameOf(msg[p..]) == key
  {
    hide IsNameBody, NameOf;
    WholeName(msg[p..], key);
  }

  lemma TailFollows(msg: string, t: Template, end: nat)
    requires t in TEMPLATES && At(msg, t.sought, end) && At(msg, t.tail, end)
    ensures At(msg, t.sought + t.tail, end)
  {
    assert t.sought == "" ==> t.sought + t.tail == t.tail;
    assert t.tail == "" ==> t.sought + t.tail == t.sought;
  }

  /** A text without such phrases is left as it is. */
  lemma NoPhraseNoHits(msg: string, table: map<string, string>)
    requires KeysAreNames(table)
    requires forall t, k, p :: t in TEMPLATES && k in table && 0 <= p ==> !Quoted(msg, t, k, p)
    ensures AllHits(msg, table.Keys) == {}
    ensures Restored(msg, table) == ReverseColons(msg, table)
  {
    forall k | k in table ensures KeyHits(msg, k) == {} {
      HitsAreQuoted(msg, NOT_DEFINED, k, 0);
      HitsAreQuoted(msg, INVALID, k, 0);
      HitsAreQuoted(msg, NOT_FOUND, k, 0);
    }
    NothingReplaced(msg, 0, table);
    assert msg[0..] == msg;
  }

  lemma {:induction false} NothingReplaced(msg: string, at: nat, table: map<string, string>)
    requires at <= |msg|
    ensures ReplaceAt(msg, at, {}, table) == msg[at..]
    decreases |msg| - at
  {
    if at < |msg| {
      NothingReplaced(msg, at + 1, table);
    }
  }

  /** The search for one key and one phrase stops at position i. */
  predicate Visits(msg: string, t: Template, key: string, from: nat, i: nat)
    requires t.before != ""
    decreases |msg| - from
  {
    match IndexFrom(msg, t.before + key + t.sought, from)
    case None => false
    case Some(j) =>
      assert |t.before + key + t.sought| <= |msg| - j;
      i == j || Visits(msg, t, key, j + |t.before| + |key|, i)
  }

  lemma VisitsStep(msg: string, t: Template, key: string, from: nat)
    requires t.before != ""
    ensures match IndexFrom(msg, t.before + key + t.sought, from)
            case None => forall i: nat :: !Visits(msg, t, key, from, i)
            case Some(j) =>
              var end := j + |t.before| + |key|;
              && from <= j < end <= |msg|
              && forall i: nat :: Visits(msg, t, key, from, i) <==> i == j || Visits(msg, t, key, end, i)
  {
    hide IndexFrom;
    var found := IndexFrom(msg, t.before + key + t.sought, from);
    assert found.Some? ==> |t.before + key + t.sought| <= |msg| - found.value;
  }

  lemma {:induction false} VisitsLater(msg: string, t: Template, key: string, from: nat, i: nat)
    requires t.before != "" && Visits(msg, t, key, from, i)
    ensures from <= i
    decreases |msg| - from
  {
    hide IndexFrom, Visits;
    VisitsStep(msg, t, key, from);
    var j := IndexFrom(msg, t.before + key + t.sought, from).value;
    if i != j {
      VisitsLater(msg, t, key, j + |t.before| + |key|, i);
    }
  }

  /** No place at which the search stops overlaps a phrase that starts at `start`. */
  ghost predicate NoOverlap(msg: string, t: Template, key: string, from: nat, start: nat)
    requires t.before != ""
  {
    forall i: nat :: Visits(msg, t, key, from, i) && i < start ==> i + |t.before| + |key| <= start
  }

  lemma OverlapStep(msg: string, t: Template, key: string, from: nat, start: nat)
    requires t.before != "" && IndexFrom(msg, t.before + key + t.sought, from).Some?
    ensures var i := IndexFrom(msg, t.before + key + t.sought, from).value;
            var end := i + |t.before| + |key|;
            NoOverlap(msg, t, key, from, start) <==> (i < start ==> end <= start) && NoOverlap(msg, t, key, end, start)
  {
    hide IndexFrom, Visits;
    VisitsStep(msg, t, key, from);
    var i := IndexFrom(msg, t.before + key + t.sought, from).value;
    var end := i + |t.before| + |key|;
    assert Visits(msg, t, key, from, i);
    if NoOverlap(msg, t, key, from, start) {
      forall k: nat | Visits(msg, t, key, end, k) && k < start ensures k + |t.before| + |key| <= start {
        assert Visits(msg, t, key, from, k);
      }
    }
    if (i < start ==> end <= start) && NoOverlap(msg, t, key, end, start) {
      forall k: nat | Visits(msg, t, key, from, k) && k < start ensures k + |t.before| + |key| <= start {
        assert k == i || Visits(msg, t, key, end, k);
      }
    }
  }

  lemma NoneOverlaps(msg: string, t: Template, key: string, end: nat, start: nat)
    requires t.before != "" && start <= end
    ensures NoOverlap(msg, t, key, end, start)
  {
    hide Visits;
    forall k: nat | Visits(msg, t, key, end, k) ensures end <= k {
      VisitsLater(msg, t, key, end, k);
    }
  }

  /** A genuine phrase is found exactly when no place at which the search stops overlaps its start. */
  lemma {:induction false} PhraseIsFound(msg: string, t: Template, key: string, from: nat, p: nat)
    requires t in TEMPLATES && t.before != "" && Quoted(msg, t, key, p) && from + |t.before| <= p
    ensures p in Hits(msg, t, key, from) <==> NoOverlap(msg, t, key, from, p - |t.before|)
    decreases |msg| - from
  {
    hide IsNameBody, At, Quoted, IndexFrom, Hits, NoOverlap;
    QuotedIs(msg, t, key, p);
    var start := p - |t.before|;
    SplitAt(msg, t.sought, t.tail, p + |key|);
    SplitAt(msg, t.before, key, start);
    SplitAt(msg, t.before + key, t.sought, start);
    TailIsPlain(msg, t, p + |key|);
    HitsStep(msg, t, key, from);
    var i := IndexFrom(msg, t.before + key + t.sought, from).value;
    var end := i + |t.before| + |key|;
    HitsLater(msg, t, key, end);
    OverlapStep(msg, t, key, from, start);
    if end <= start {
      PhraseIsFound(msg, t, key, end, p);
    } else if i == start {
      NoneOverlaps(msg, t, key, end, start);
    }
  }

  lemma {:induction false} HitsLater(msg: string, t: Template, key: string, from: nat)
    requires t in TEMPLATES && t.before != ""
    ensures forall p :: p in Hits(msg, t, key, from) ==> from + |t.before| <= p
    decreases |msg| - from
  {
    hide At, IsNameBody, Hits, IndexFrom;
    HitsStep(msg, t, key, from);
    VisitsStep(msg, t, key, from);
    var found := IndexFrom(msg, t.before + key + t.sought, from);
    if found.Some? {
      HitsLater(msg, t, key, found.value + |t.before| + |key|);
    }
  }

  lemma TailIsPlain(msg: string, t: Template, end: nat)
    requires t in TEMPLATES && At(msg, t.sought + t.tail, end)
    ensures end < |msg| && !IsNameBody(msg[end]) && At(msg, t.tail, end)
  {
    assert msg[end..][..|t.sought + t.tail|][0] == msg[end];
    assert t.sought == "" ==> t.sought + t.tail == t.tail;
  }

  // ----- The loops -----

  function Starts(rs: seq<Replacement>): set<nat> {
    set x | x in rs :: x.start
  }

  /** Each replacement covers a whole key and carries its user name. */
  predicate Fits(rs: seq<Replacement>, msg: string, table: map<string, string>) {
    forall x :: x in rs ==>
      && x.start < x.end <= |msg| && msg[x.start..x.end] == NameOf(msg[x.start..])
      && msg[x.start..x.end] in table && x.text == table[msg[x.start..x.end]]
  }

  method FindHits(msg: string, t: Template, key: string, table: map<string, string>) returns (r: seq<Replacement>)
    requires KeysAreNames(table) && key in table && t in TEMPLATES && t.before != ""
    ensures Starts(r) == Hits(msg, t, key, 0) && Fits(r, msg, table)
  {
    hide *;
    r := [];
    var pattern := t.before + key + t.sought;
    var searchFrom: nat := 0;
    StartsBegin(msg, table);
    while true
      invariant Starts(r) + Hits(msg, t, key, searchFrom) == Hits(msg, t, key, 0)
      invariant Fits(r, msg, table)
      decreases |msg| - searchFrom
    {
      var found := IndexFrom(msg, pattern, searchFrom);
      HitsStep(msg, t, key, searchFrom);
      if found.None? {
        return;
      }
      KeyIsName(table, key);
      HitIsQuoted(msg, t, key, found.value);
      var start := found.value + |t.before|;
      var end := start + |key|;
      if !(end < |msg| && IsNameBody(msg[end])) && At(msg, t.tail, end) {
        var hit := Replacement(start, end, table[key]);
        SliceIsName(msg, start, end, key);
        OneMore(r, hit, msg, table);
        r := r + [hit];
      }
      searchFrom := end;
    }
  }

  lemma StartsBegin(msg: string, table: map<string, string>)
    ensures Starts([]) == {} && Fits([], msg, table)
  {
  }

  lemma KeyIsName(table: map<string, string>, key: string)
    requires KeysAreNames(table) && key in table
    ensures key != "" && forall i :: 0 <= i < |key| ==> IsNameBody(key[i])
  {
  }

  lemma HitsStep(msg: string, t: Template, key: string, from: nat)
    requires t in TEMPLATES
    ensures t.before != ""
    ensures match IndexFrom(msg, t.before + key + t.sought, from)
            case None => Hits(msg, t, key, from) == {}
            case Some(i) =>
              var p := i + |t.before|;
              var end := p + |key|;
              Hits(msg, t, key, from) ==
              (if !(end < |msg| && IsNameBody(msg[end])) && At(msg, t.tail, end) then {p} else {}) +
              Hits(msg, t, key, end)
  {
    hide IndexFrom, IsNameBody, At;
  }

  lemma OneMore(rs: seq<Replacement>, x: Replacement, msg: string, table: map<string, string>)
    requires Fits(rs, msg, table) && x.start < x.end <= |msg|
    requires msg[x.start..x.end] == NameOf(msg[x.start..]) && msg[x.start..x.end] in table
    requires x.text == table[msg[x.start..x.end]]
    ensures Fits(rs + [x], msg, table) && Starts(rs + [x]) == Starts(rs) + {x.start}
  {
    hide NameOf;
  }

  lemma SliceIsName(msg: string, start: nat, end: nat, key: string)
    requires start <= end <= |msg| && NameOf(msg[start..]) == key && end == start + |key|
    ensures msg[start..end] == key
  {
    assert msg[start..][..|key|] == msg[start..end];
  }

  lemma StartsAppend(a: seq<Replacement>, b: seq<Replacement>)
    ensures Starts(a + b) == Starts(a) + Starts(b)
  {
  }

  method CollectReplacements(msg: string, table: map<string, string>, keys: seq<string>) returns (r: seq<Replacement>)
    requires KeysAreNames(table) && forall k :: k in keys <==> k in table
    ensures Starts(r) == AllHits(msg, table.Keys) && Fits(r, msg, table)
  {
    hide Hits, KeysAreNames, NameOf;
    r := [];
    for a := 0 to |keys|
      invariant Starts(r) == AllHits(msg, ToSet(keys[..a])) && Fits(r, msg, table)
    {
      var defined := FindHits(msg, NOT_DEFINED, keys[a], table);
      var invalid := FindHits(msg, INVALID, keys[a], table);
      var quoted := FindHits(msg, NOT_FOUND, keys[a], table);
      StartsAppend(r, defined + invalid + quoted);
      StartsAppend(defined + invalid, quoted);
      StartsAppend(defined, invalid);
      HitsGrow(msg, keys, a);
      r := r + (defined + invalid + quoted);
    }
    assert keys[..|keys|] == keys && ToSet(keys) == table.Keys;
  }

  lemma HitsGrow(msg: string, keys: seq<string>, a: nat)
    requires a < |keys|
    ensures AllHits(msg, ToSet(keys[..a + 1])) == AllHits(msg, ToSet(keys[..a])) + KeyHits(msg, keys[a])
  {
    hide KeyHits;
    assert keys[..a + 1] == keys[..a] + [keys[a]];
  }

  predicate Ascending(rs: seq<Replacement>) {
    forall i, j :: 0 <= i < j < |rs| ==> rs[i].start <= rs[j].start
  }

  method SortByStart(rs: seq<Replacement>) returns (r: seq<Replacement>)
    ensures Ascending(r) && forall x :: x in r <==> x in rs
  {
    r := [];
    for i := 0 to |rs|
      invariant Ascending(r) && forall x :: x in r <==> x in rs[..i]
    {
      var k := 0;
      while k < |r| && r[k].start < rs[i].start
        invariant 0 <= k <= |r|
        invariant forall j :: 0 <= j < k ==> r[j].start < rs[i].start
      {
        k := k + 1;
      }
      assert rs[..i + 1] == rs[..i] + [rs[i]];
      assert forall x :: x in r <==> x in r[..k] || x in r[k..];
      r := r[..k] + [rs[i]] + r[k..];
    }
  }

  lemma CopyTo(msg: string, at: nat, to: nat, starts: set<nat>, table: map<string, string>)
    requires at <= to <= |msg| && forall p :: p in starts ==> !(at <= p < to)
    ensures ReplaceAt(msg, at, starts, table) == msg[at..to] + ReplaceAt(msg, to, starts, table)
    decreases |msg| - at
  {
    hide NameOf;
    if at < to {
      CopyTo(msg, at + 1, to, starts, table);
    }
  }

  lemma ReplaceHere(msg: string, x: Replacement, starts: set<nat>, table: map<string, string>)
    requires x.start in starts && Fits([x], msg, table)
    ensures x.start < x.end <= |msg|
    ensures ReplaceAt(msg, x.start, starts, table) == x.text + ReplaceAt(msg, x.end, starts, table)
  {
    hide NameOf;
    assert x in [x];
    assert |msg[x.start..x.end]| == x.end - x.start;
  }

  method ReplaceBare(msg: string, table: map<string, string>, keys: seq<string>) returns (r: string)
    requires KeysAreNames(table) && forall k :: k in keys <==> k in table
    ensures r == ReplaceAt(msg, 0, AllHits(msg, table.Keys), table)
  {
    hide KeysAreNames, NameOf, ReplaceAt, AllHits;
    var found := CollectReplacements(msg, table, keys);
    ghost var starts := Starts(found);
    if found == [] {
      CopyTo(msg, 0, |msg|, starts, table);
      ReplacedAll(msg, starts, table);
      return msg;
    }
    var rs := SortByStart(found);
    assert Starts(rs) == starts;
    r := Apply(msg, table, rs);
  }

  /** Every start from `last` on belongs to a replacement from k on. */
  ghost predicate Left(rs: seq<Replacement>, k: nat, last: nat)
    requires k <= |rs|
  {
    forall p :: p in Starts(rs) && last <= p ==> p in Starts(rs[k..])
  }

  lemma LeftStep(rs: seq<Replacement>, k: nat, last: nat, next: nat)
    requires Ascending(rs) && k < |rs| && Left(rs, k, last) && last <= next
    requires next == last || rs[k].start < next
    requires next == last ==> rs[k].start < last
    ensures Left(rs, k + 1, next)
    ensures last <= rs[k].start ==> forall p :: p in Starts(rs) ==> !(last <= p < rs[k].start)
  {
    forall p | p in Starts(rs) && last <= p ensures rs[k].start <= p && (p in Starts(rs[k + 1..]) || p == rs[k].start) {
      var x :| x in rs[k..] && x.start == p;
      var i :| 0 <= i < |rs| - k && rs[k..][i] == x;
      assert rs[k + i] == x;
      assert i > 0 ==> rs[k + 1..][i - 1] == x;
    }
  }

  /** Writes the replacements in order, passing over those inside an earlier one. */
  method Apply(msg: string, table: map<string, string>, rs: seq<Replacement>) returns (r: string)
    requires Ascending(rs) && Fits(rs, msg, table)
    ensures r == ReplaceAt(msg, 0, Starts(rs), table)
  {
    hide *;
    ghost var starts := Starts(rs);
    r := "";
    var last: nat := 0;
    LeftAtStart(rs);
    for k := 0 to |rs|
      invariant last <= |msg| && Left(rs, k, last)
      invariant ReplaceAt(msg, 0, starts, table) == r + ReplaceAt(msg, last, starts, table)
    {
      OneFits(rs, k, msg, table);
      if rs[k].start < last {
        LeftStep(rs, k, last, last);
        continue;
      }
      LeftStep(rs, k, last, rs[k].end);
      ReplaceHere(msg, rs[k], starts, table);
      CopyTo(msg, last, rs[k].start, starts, table);
      r := r + msg[last..rs[k].start] + rs[k].text;
      last := rs[k].end;
    }
    CopyRest(rs, last, msg, table);
    r := r + msg[last..];
  }

  lemma LeftAtStart(rs: seq<Replacement>)
    ensures Left(rs, 0, 0)
  {
    assert rs[0..] == rs;
  }

  lemma OneFits(rs: seq<Replacement>, k: nat, msg: string, table: map<string, string>)
    requires k < |rs| && Fits(rs, msg, table)
    ensures Fits([rs[k]], msg, table) && rs[k].start in Starts(rs) && rs[k].start < rs[k].end <= |msg|
  {
    hide NameOf;
    assert rs[k] in rs;
  }

  lemma CopyRest(rs: seq<Replacement>, last: nat, msg: string, table: map<string, string>)
    requires Left(rs, |rs|, last) && last <= |msg|
    ensures ReplaceAt(msg, last, Starts(rs), table) == msg[last..]
  {
    hide ReplaceAt;
    assert rs[|rs|..] == [] && Starts([]) == {};
    CopyTo(msg, last, |msg|, Starts(rs), table);
    ReplacedAll(msg, Starts(rs), table);
    assert msg[last..|msg|] + "" == msg[last..];
  }

  lemma ReplacedAll(msg: string, starts: set<nat>, table: map<string, string>)
    ensures ReplaceAt(msg, |msg|, starts, table) == ""
    ensures msg[0..|msg|] == msg && msg + "" == msg
  {
  }

  /** The error text the user sees; the order of the keys plays no part in it. */
  method ReverseDriverNames(msg: string, table: map<string, string>, keys: seq<string>) returns (r: string)
    requires KeysAreNames(table) && forall k :: k in keys <==> k in table
    ensures r == Restored(msg, table)
  {
    var bare := ReplaceBare(msg, table, keys);
    r := ReverseAfterColons(bare, table, keys);
  }
}
