/** The two orders in which names are sorted: byte order, and longest first. */
module Ordering {

  predicate LexLess(a: string, b: string) {
    b != "" && (a == "" || a[0] < b[0] || (a[0] == b[0] && LexLess(a[1..], b[1..])))
  }

  predicate LongestFirst(a: string, b: string) {
    |a| > |b| || (|a| == |b| && LexLess(a, b))
  }

  ghost predicate StrictTotal(before: (string, string) -> bool) {
    && (forall a, b :: before(a, b) ==> !before(b, a))
    && (forall a, b :: before(a, b) || before(b, a) || a == b)
    && (forall a, b, c :: before(a, b) && before(b, c) ==> before(a, c))
  }

  predicate SortedBy(s: seq<string>, before: (string, string) -> bool) {
    forall i, j :: 0 <= i < j < |s| ==> before(s[i], s[j])
  }

  lemma {:induction false} LexTotal(a: string, b: string)
    ensures LexLess(a, b) ==> !LexLess(b, a)
    ensures LexLess(a, b) || LexLess(b, a) || a == b
  {
    if a != "" && b != "" && a[0] == b[0] {
      LexTotal(a[1..], b[1..]);
      if a[1..] == b[1..] {
        assert a == [a[0]] + a[1..] == b;
      }
    }
  }

  lemma {:induction false} LexTransitive(a: string, b: string, c: string)
    requires LexLess(a, b) && LexLess(b, c)
    ensures LexLess(a, c)
  {
    if a != "" && a[0] == b[0] && b[0] == c[0] {
      LexTransitive(a[1..], b[1..], c[1..]);
    }
  }

  lemma OrdersAreTotal()
    ensures StrictTotal(LexLess) && StrictTotal(LongestFirst)
  {
    forall a: string, b: string
      ensures LexLess(a, b) ==> !LexLess(b, a)
      ensures LexLess(a, b) || LexLess(b, a) || a == b
    {
      LexTotal(a, b);
    }
    forall a: string, b: string, c: string | LexLess(a, b) && LexLess(b, c)
      ensures LexLess(a, c)
    {
      LexTransitive(a, b, c);
    }
  }

  /** At the first difference the smaller byte decides; a text comes before its continuations. */
  lemma {:induction false} LexLessIs(a: string, b: string)
    ensures LexLess(a, b) <==>
              exists k :: 0 <= k <= |a| && k < |b| && a[..k] == b[..k] && (k == |a| || a[k] < b[k])
  {
    if b != "" && (a == "" || a[0] < b[0]) {
      assert a[..0] == b[..0];
    } else if a != "" && b != "" && a[0] == b[0] {
      LexLessIs(a[1..], b[1..]);
      if LexLess(a[1..], b[1..]) {
        var k :| 0 <= k <= |a| - 1 && k < |b| - 1 && a[1..][..k] == b[1..][..k] &&
                 (k == |a| - 1 || a[1..][k] < b[1..][k]);
        assert a[..k + 1] == [a[0]] + a[1..][..k] && b[..k + 1] == [b[0]] + b[1..][..k];
      }
      if k :| 0 <= k <= |a| && k < |b| && a[..k] == b[..k] && (k == |a| || a[k] < b[k]) {
        assert k > 0 && a[1..][..k - 1] == a[..k][1..] && b[1..][..k - 1] == b[..k][1..];
        assert k == |a| || a[1..][k - 1] < b[1..][k - 1];
      }
    } else {
      assert a != "" && b != "" ==> forall k :: 0 < k <= |a| && k < |b| ==> a[..k][0] != b[..k][0];
    }
  }

  /** No name comes in front of one that continues it. */
  lemma LongerFirst(names: seq<string>, i: nat, j: nat)
    requires SortedBy(names, LongestFirst) && i < |names| && j < |names| && names[i] < names[j]
    ensures j < i
  {
    assert i < j ==> LongestFirst(names[i], names[j]);
  }

  /** Sorts the keys of a map, whatever order the map yields them in. */
  method SortKeys(keys: set<string>, before: (string, string) -> bool) returns (r: seq<string>)
    requires StrictTotal(before)
    ensures SortedBy(r, before)
    ensures forall x :: x in r <==> x in keys
  {
    r := [];
    var rest := keys;
    while rest != {}
      invariant rest <= keys
      invariant SortedBy(r, before)
      invariant forall x :: x in r <==> x in keys - rest
      decreases rest
    {
      var x :| x in rest;
      rest := rest - {x};
      r := Insert(r, x, before);
    }
  }

  method Insert(s: seq<string>, x: string, before: (string, string) -> bool) returns (r: seq<string>)
    requires StrictTotal(before) && SortedBy(s, before) && x !in s
    ensures SortedBy(r, before)
    ensures forall y :: y in r <==> y == x || y in s
  {
    var k := 0;
    while k < |s| && before(s[k], x)
      invariant 0 <= k <= |s|
      invariant forall i :: 0 <= i < k ==> before(s[i], x)
    {
      k := k + 1;
    }
    r := s[..k] + [x] + s[k..];
    forall i | k <= i < |s| ensures before(x, s[i]) {
      assert s[k] in s && before(x, s[k]);
      if k < i {
        assert before(s[k], s[i]);
      }
    }
  }

  lemma HasMember(s: seq<string>)
    ensures s != [] ==> exists x :: x in s
  {
    if s != [] {
      assert s[0] in s;
    }
  }

  lemma TailSet(a: seq<string>, before: (string, string) -> bool)
    requires StrictTotal(before) && SortedBy(a, before) && a != []
    ensures forall x :: x in a[1..] <==> x in a && x != a[0]
  {
    forall x | x in a[1..] ensures x != a[0] {
      var i :| 0 < i < |a| && a[i] == x;
      assert before(a[0], a[i]);
    }
  }

  /** A set has one sorted listing. */
  lemma {:induction false} SortedUnique(a: seq<string>, b: seq<string>, before: (string, string) -> bool)
    requires StrictTotal(before) && SortedBy(a, before) && SortedBy(b, before)
    requires forall x :: x in a <==> x in b
    ensures a == b
  {
    HasMember(b);
    if a == [] {
    } else {
      assert a[0] in b && b[0] in a by { assert a[0] in a; }
      assert a[0] == b[0];
      TailSet(a, before);
      TailSet(b, before);
      SortedUnique(a[1..], b[1..], before);
      assert a == [a[0]] + a[1..] == b;
    }
  }
}
