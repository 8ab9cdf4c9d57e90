/**
  The way back: driver names in an error text become the user's names again.

  The message is read twice. The first pass replaces driver names inside three
  fixed phrases, the second every whole driver name after a colon. Both passes
  walk a list of keys; the functions here know only the table, so the methods
  proved against them give the same text whatever order the keys come in.
 */
module ReverseNames {
  import opened Text

  /** The name at the head of s: its longest run of name bytes. */
  function NameOf(s: string): string {
    s[..NameLen(s)]
  }

  function ReverseColons(s: string, table: map<string, string>): string
    decreases |s|
  {
    if s == "" then ""
    else if s[0] == ':' && NameOf(s[1..]) in table then
      ":" + table[NameOf(s[1..])] + ReverseColons(s[1 + NameLen(s[1..])..], table)
    else [s[0]] + ReverseColons(s[1..], table)
  }

  predicate KeysAreNames(table: map<string, string>) {
    forall k :: k in table ==> k != "" && forall i :: 0 <= i < |k| ==> IsNameBody(k[i])
  }

  lemma WholeName(s: string, key: string)
    requires forall i :: 0 <= i < |key| ==> IsNameBody(key[i])
    ensures NameOf(s) == key <==> StartsWith(s, key) && (|key| == |s| || !IsNameBody(s[|key|]))
  {
    hide IsNameBody;
    if StartsWith(s, key) {
      assert forall i :: 0 <= i < |key| ==> s[i] == s[..|key|][i];
    }
  }

  /** The key that stands, as a whole name, after the colon at byte i. */
  method KeyAfter(msg: string, i: nat, table: map<string, string>, keys: seq<string>) returns (r: Option<string>)
    requires i < |msg| && KeysAreNames(table) && forall k :: k in keys <==> k in table
    ensures var name := NameOf(msg[i + 1..]); r == if name in table then Some(name) else None
  {
    ghost var name := NameOf(msg[i + 1..]);
    for j := 0 to |keys|
      invariant name !in keys[..j]
    {
      var key := keys[j];
      var end := i + 1 + |key|;
      WholeName(msg[i + 1..], key);
      assert end <= |msg| ==> msg[i + 1..][..|key|] == msg[i + 1..end];
      if end > |msg| || msg[i + 1..end] != key || (end < |msg| && IsNameBody(msg[end])) {
        continue;
      }
      return Some(key);
    }
    return None;
  }

  /** The text still to be copied once everything before i is done. */
  ghost predicate Progress(msg: string, table: map<string, string>, b: string, last: nat, i: nat) {
    && last <= i <= |msg|
    && ReverseColons(msg, table) == b + msg[last..i] + ReverseColons(msg[i..], table)
  }

  method ReverseAfterColons(msg: string, table: map<string, string>, keys: seq<string>) returns (r: string)
    requires KeysAreNames(table) && forall k :: k in keys <==> k in table
    ensures r == ReverseColons(msg, table)
  {
    hide *;
    var b := "";
    var last: nat, i: nat := 0, 0;
    var changed := false;
    ProgressStarts(msg, table);
    while i < |msg|
      invariant Progress(msg, table, b, last, i) && last <= i <= |msg| && (!changed ==> b == "" && last == 0)
    {
      if msg[i] == ':' {
        var key := KeyAfter(msg, i, table, keys);
        if key.Some? {
          KeyWritten(msg, table, b, last, i);
          b := b + msg[last..i + 1] + table[key.value];
          last := i + 1 + |key.value|;
          i := last;
          changed := true;
          continue;
        }
      }
      ByteCopied(msg, table, b, last, i);
      i := i + 1;
    }
    ProgressEnds(msg, table, b, last);
    if !changed {
      return msg;
    }
    return b + msg[last..];
  }

  lemma ProgressStarts(msg: string, table: map<string, string>)
    ensures Progress(msg, table, "", 0, 0)
  {
    hide ReverseColons;
    assert "" + msg[0..0] + ReverseColons(msg[0..], table) == ReverseColons(msg, table) by {
      assert msg[0..] == msg;
    }
  }

  lemma ProgressEnds(msg: string, table: map<string, string>, b: string, last: nat)
    requires Progress(msg, table, b, last, |msg|)
    ensures ReverseColons(msg, table) == b + msg[last..]
    ensures b == "" && last == 0 ==> ReverseColons(msg, table) == msg
  {
    assert ReverseColons(msg[|msg|..], table) == "";
    assert msg[last..|msg|] == msg[last..];
  }

  lemma KeyWritten(msg: string, table: map<string, string>, b: string, last: nat, i: nat)
    requires last <= i < |msg| && Progress(msg, table, b, last, i) && msg[i] == ':' && NameOf(msg[i + 1..]) in table
    ensures var name := NameOf(msg[i + 1..]); var end := i + 1 + |name|;
            end <= |msg| && Progress(msg, table, b + msg[last..i + 1] + table[name], end, end)
  {
    hide *;
    var name := NameOf(msg[i + 1..]);
    var end := i + 1 + |name|;
    var s := msg[i..];
    NameFits(msg, i + 1);
    ReverseStep(s, table);
    assert s[1..] == msg[i + 1..] && s[1 + |name|..] == msg[end..];
    assert msg[last..i + 1] == msg[last..i] + ":";
    var user, rest := table[name], ReverseColons(msg[end..], table);
    assert b + msg[last..i] + (":" + user + rest) == (b + msg[last..i + 1] + user) + msg[end..end] + rest;
    ProgressIs(msg, table, b, last, i);
    ProgressIs(msg, table, b + msg[last..i + 1] + user, end, end);
  }

  lemma ByteCopied(msg: string, table: map<string, string>, b: string, last: nat, i: nat)
    requires last <= i < |msg| && Progress(msg, table, b, last, i)
    requires !(msg[i] == ':' && NameOf(msg[i + 1..]) in table)
    ensures Progress(msg, table, b, last, i + 1)
  {
    hide *;
    var s := msg[i..];
    ReverseStep(s, table);
    ProgressIs(msg, table, b, last, i);
    ProgressIs(msg, table, b, last, i + 1);
    assert s[1..] == msg[i + 1..];
    assert msg[last..i + 1] == msg[last..i] + [msg[i]];
    var rest := ReverseColons(msg[i + 1..], table);
    assert b + msg[last..i] + ([msg[i]] + rest) == b + msg[last..i + 1] + rest;
  }

  lemma ProgressIs(msg: string, table: map<string, string>, b: string, last: nat, i: nat)
    requires last <= i <= |msg|
    ensures Progress(msg, table, b, last, i) <==>
            ReverseColons(msg, table) == b + msg[last..i] + ReverseColons(msg[i..], table)
  {
    hide ReverseColons;
  }

  lemma NameFits(msg: string, i: nat)
    requires i <= |msg|
    ensures i + |NameOf(msg[i..])| <= |msg| && |NameOf(msg[i..])| == NameLen(msg[i..])
  {
  }

  lemma ReverseStep(s: string, table: map<string, string>)
    ensures s == "" ==> ReverseColons(s, table) == ""
    ensures s != "" && s[0] == ':' && NameOf(s[1..]) in table ==>
              ReverseColons(s, table) ==
              ":" + table[NameOf(s[1..])] + ReverseColons(s[1 + NameLen(s[1..])..], table)
    ensures s != "" && !(s[0] == ':' && NameOf(s[1..]) in table) ==>
              ReverseColons(s, table) == [s[0]] + ReverseColons(s[1..], table)
  {
    hide NameOf;
  }
}
