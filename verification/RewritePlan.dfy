/**
  The plan for one statement: the rewritten text, the arguments to bind, and the
  cursor parameters, reconciled with the bind options the user gave.
 */
module RewritePlan {
  import opened Text
  import opened BindNames
  import opened Ordering
  import opened NameMap
  import opened SqlLexer
  import opened BindTokens
  import opened CursorMarkers
  import opened BindTransform
  import opened RelexQuery
  import opened QueryMeaning
  import opened RewriteExact
  import opened FastPath
  import opened FastPathExact

  /** A driver argument: its name and the text of the value to coerce. */
  datatype Arg = Arg(name: string, value: string)

  datatype PlanError =
    | BadQuote(error: QuoteError)
    | BadMarkers(names: seq<string>)
    | BadBind(name: string)
    | BadOptions(names: seq<string>)
    | Unreferenced(cursor: string)
    | Unbalanced(missing: seq<string>, extra: seq<string>)

  function Trim(s: string): string {
    TrimSpaceRight(s[SpaceLen(s)..])
  }

  function TrimSpaceRight(s: string): (r: string)
    ensures r <= s
  {
    if s != "" && IsSpace(s[|s| - 1]) then TrimSpaceRight(s[..|s| - 1]) else s
  }

  /** The form in which cursor names and bind options are compared. */
  function Fold(name: string): string {
    Upper(Trim(name))
  }

  function Folds(names: seq<string>): set<string> {
    set n | n in names :: Fold(n)
  }

  function MarkerNames(markers: seq<Marker>): (r: seq<string>)
    ensures |r| == |markers|
  {
    seq(|markers|, i requires 0 <= i < |markers| => markers[i].name)
  }

  /** White space around a name and its case do not matter when it is compared. */
  lemma FoldIs(before: string, name: string, after: string)
    requires forall i :: 0 <= i < |before| ==> IsSpace(before[i])
    requires forall i :: 0 <= i < |after| ==> IsSpace(after[i])
    requires name != "" && !IsSpace(name[0]) && !IsSpace(name[|name| - 1])
    ensures Fold(before + name + after) == Upper(name)
  {
    hide IsSpace, Upper;
    ConcatAssoc(before, name, after);
    SpacesThen(before, name + after);
    assert (before + (name + after))[|before|..] == name + after;
    SpaceBehind(name, after);
  }

  lemma {:induction false} SpaceBehind(name: string, after: string)
    requires forall i :: 0 <= i < |after| ==> IsSpace(after[i])
    requires name != "" && !IsSpace(name[|name| - 1])
    ensures TrimSpaceRight(name + after) == name
  {
    hide IsSpace;
    if after == "" {
      assert name + after == name;
    } else {
      var n := |after| - 1;
      assert (name + after)[..|name| + n] == name + after[..n];
      SpaceBehind(name, after[..n]);
    }
  }

  /** A cursor parameter is meant, whatever the case and the white space around it. */
  predicate NamesCursor(name: string, cursors: seq<string>) {
    exists c :: c in cursors && Upper(Trim(c)) == Upper(Trim(name))
  }

  lemma CursorFolds(name: string, cursors: seq<string>)
    ensures Fold(name) in Folds(cursors) <==> NamesCursor(name, cursors)
  {
    hide Trim;
  }

  /** The bind options that do not name a cursor. */
  function Kept(binds: map<string, string>, cursors: seq<string>): map<string, string> {
    map n | n in binds && Fold(n) !in Folds(cursors) :: binds[n]
  }

  lemma {:induction false} KeyOfUpper(a: string, b: string)
    requires Upper(a) == Upper(b)
    ensures DriverKey(a) == DriverKey(b)
  {
    assert |Upper(a)| == |a| && |Upper(b)| == |b|;
    if a == "" {
    } else {
      assert Upper(a)[0] == UpperByte(a[0]) && Upper(b)[0] == UpperByte(b[0]);
      assert Upper(a[1..]) == Upper(a)[1..] && Upper(b[1..]) == Upper(b)[1..];
      KeyOfUpper(a[1..], b[1..]);
      UpperAppend(EncodeByte(a[0]), Encode(a[1..]));
      UpperAppend(EncodeByte(b[0]), Encode(b[1..]));
      EncodeByteUpper(a[0], b[0]);
    }
  }

  lemma UpperAppend(a: string, b: string)
    ensures Upper(a + b) == Upper(a) + Upper(b)
  {
  }

  lemma EncodeByteUpper(c: char, d: char)
    requires UpperByte(c) == UpperByte(d)
    ensures Upper(EncodeByte(c)) == Upper(EncodeByte(d))
  {
    if IsMarked(c) || IsMarked(d) {
      assert c == d;
    } else {
      assert EncodeByte(c) == [c] && EncodeByte(d) == [d];
    }
  }

  lemma NamesAreTrim(name: string)
    requires IsUserName(name)
    ensures Trim(name) == name
  {
    assert IsNameBody(name[0]) && IsNameBody(name[|name| - 1]);
    assert SpaceLen(name) == 0 && name[0..] == name;
  }

  /** Among registered names, one that folds to a cursor's name is that cursor. */
  lemma FoldedNamesAreEqual(names: set<string>, unsafe: set<string>, a: string, b: string)
    requires AllValid(names, unsafe) && CollisionFree(names) && a in names && b in names && Fold(a) == Fold(b)
    ensures a == b
  {
    NamesAreTrim(a);
    NamesAreTrim(b);
    KeyOfUpper(a, b);
  }

  method FilterCursorBinds(binds: map<string, string>, cursors: seq<string>) returns (r: map<string, string>)
    ensures r == Kept(binds, cursors)
    ensures forall n :: n in r <==> n in binds && !NamesCursor(n, cursors)
    ensures forall n :: n in r ==> r[n] == binds[n]
  {
    hide Fold, NamesCursor;
    forall n | n in binds ensures Fold(n) in Folds(cursors) <==> NamesCursor(n, cursors) {
      CursorFolds(n, cursors);
    }
    if binds == map[] || cursors == [] {
      return binds;
    }
    var names := {};
    for i := 0 to |cursors|
      invariant names == Folds(cursors[..i])
    {
      assert cursors[..i + 1] == cursors[..i] + [cursors[i]];
      names := names + {Fold(cursors[i])};
    }
    assert cursors[..|cursors|] == cursors;
    r := map[];
    var rest := binds.Keys;
    while rest != {}
      invariant rest <= binds.Keys
      invariant r == map n | n in binds && n !in rest && Fold(n) !in names :: binds[n]
      decreases rest
    {
      var name :| name in rest;
      rest := rest - {name};
      if Fold(name) !in names {
        r := r[name := binds[name]];
      }
    }
  }

  lemma ToSetPush(names: seq<string>, n: string)
    ensures ToSet(names + [n]) == ToSet(names) + {n}
  {
  }

  /** Registers names in order, collecting the driver names and the rejected ones. */
  method AddEach(names: seq<string>, mapping: RewriteMap) returns (drivers: seq<string>, rejected: seq<string>)
    requires mapping.Valid()
    modifies mapping
    ensures mapping.Valid() && mapping.sortedDriverNames == old(mapping.sortedDriverNames)
    ensures rejected == [] <==>
            AllValid(ToSet(names), mapping.unsafe) && CollisionFree(old(mapping.userToDriver.Keys) + ToSet(names))
    ensures rejected == [] ==>
              drivers == EncodeAll(names) && mapping.userToDriver.Keys == old(mapping.userToDriver.Keys) + ToSet(names)
    ensures rejected == Refused(old(mapping.Table()), names, mapping.unsafe)
  {
    hide Encode, ValidUser, DriverKey, Consistent, Refused;
    ghost var all := Refused(mapping.Table(), names, mapping.unsafe);
    ghost var before := mapping.userToDriver.Keys;
    drivers, rejected := [], [];
    NamesCollisionFree(mapping.Table(), mapping.unsafe);
    for i := 0 to |names|
      invariant mapping.Valid() && mapping.sortedDriverNames == old(mapping.sortedDriverNames)
      invariant rejected == [] <==>
                AllValid(ToSet(names[..i]), mapping.unsafe) && CollisionFree(before + ToSet(names[..i]))
      invariant rejected == [] ==>
                  drivers == EncodeAll(names[..i]) && mapping.userToDriver.Keys == before + ToSet(names[..i])
      invariant rejected + Refused(mapping.Table(), names[i..], mapping.unsafe) == all
    {
      assert names[i..][0] == names[i] && names[i..][1..] == names[i + 1..];
      RefusedStep(mapping.Table(), names[i..], mapping.unsafe);
      ghost var rest := Refused(mapping.Table(), names[i..][1..], mapping.unsafe);
      assert rejected + ([names[i]] + rest) == (rejected + [names[i]]) + rest;
      assert names[..i + 1] == names[..i] + [names[i]];
      ToSetPush(names[..i], names[i]);
      EncodeAllAppend(names[..i], [names[i]]);
      EncodeOne(names[i]);
      assert before + ToSet(names[..i]) + {names[i]} == before + ToSet(names[..i + 1]);
      var added := mapping.AddName(names[i]);
      if added.Err? {
        rejected := rejected + [added.error];
      } else {
        drivers := drivers + [added.value.0];
      }
    }
    assert names[..|names|] == names && names[|names|..] == [];
    RefusedStep(mapping.Table(), [], mapping.unsafe);
    assert rejected + [] == rejected;
  }

  lemma EncodeOne(name: string)
    ensures EncodeAll([name]) == [Encode(name)]
  {
    assert [name][1..] == [];
  }

  lemma NamesCollisionFree(m: NameTable, unsafe: set<string>)
    requires Consistent(m, unsafe)
    ensures CollisionFree(m.userToDriver.Keys + ToSet([])) && AllValid(m.userToDriver.Keys, unsafe)
    ensures m.userToDriver.Keys + ToSet([]) == m.userToDriver.Keys
  {
    hide ValidUser, DriverKey, ChangesKnown;
    assert forall a :: a in m.userToDriver.Keys ==> m.driverUpperToUser[DriverKey(a)] == a;
  }

  function ArgsOf(keys: seq<string>, binds: map<string, string>): seq<Arg>
    requires forall k :: k in keys ==> k in binds
  {
    seq(|keys|, i requires 0 <= i < |keys| => Arg(Encode(keys[i]), binds[keys[i]]))
  }

  ghost predicate Lists(keys: seq<string>, binds: map<string, string>) {
    SortedBy(keys, LexLess) && (forall k :: k in keys <==> k in binds)
  }

  /** The arguments of the bind options, in the order of the user names. */
  ghost predicate ArgsFor(args: seq<Arg>, binds: map<string, string>) {
    exists keys :: Lists(keys, binds) && args == ArgsOf(keys, binds)
  }

  function ArgNames(args: seq<Arg>): set<string> {
    set a | a in args :: a.name
  }

  lemma {:induction false} EncodeAllAt(names: seq<string>, i: nat)
    requires i < |names|
    ensures |EncodeAll(names)| == |names| && EncodeAll(names)[i] == Encode(names[i])
  {
    hide Encode;
    if i > 0 {
      EncodeAllAt(names[1..], i - 1);
    } else if |names| > 1 {
      EncodeAllAt(names[1..], 0);
    }
  }

  lemma ToSetIs(names: seq<string>, s: set<string>)
    requires forall k :: k in names <==> k in s
    ensures ToSet(names) == s
  {
  }

  lemma ArgsListed(keys: seq<string>, binds: map<string, string>, args: seq<Arg>)
    requires Lists(keys, binds) && |args| == |keys| == |EncodeAll(keys)|
    requires forall i :: 0 <= i < |keys| ==> args[i] == Arg(EncodeAll(keys)[i], binds[keys[i]])
    ensures ArgsFor(args, binds)
  {
    hide Encode, EncodeAll, LexLess;
    forall i | 0 <= i < |keys| ensures args[i] == Arg(Encode(keys[i]), binds[keys[i]]) {
      EncodeAllAt(keys, i);
    }
    assert args == ArgsOf(keys, binds);
  }

  method NamedArgs(binds: map<string, string>, mapping: RewriteMap) returns (r: Result<seq<Arg>, seq<string>>)
    requires mapping.Valid()
    modifies mapping
    ensures mapping.Valid() && mapping.sortedDriverNames == old(mapping.sortedDriverNames)
    ensures r.Ok? <==>
            AllValid(binds.Keys, mapping.unsafe) && CollisionFree(old(mapping.userToDriver.Keys) + binds.Keys)
    ensures r.Err? ==>
              && r.error != []
              && exists keys :: Lists(keys, binds) && r.error == Refused(old(mapping.Table()), keys, mapping.unsafe)
    ensures r.Ok? ==>
              && ArgsFor(r.value, binds)
              && mapping.userToDriver.Keys == old(mapping.userToDriver.Keys) + binds.Keys
  {
    hide Encode, ValidUser, DriverKey, CollisionFree, ToSet, Refused;
    if binds == map[] {
      assert binds.Keys == {};
      NoOptions(mapping.Table(), mapping.unsafe);
      return Ok([]);
    }
    OrdersAreTotal();
    var keys := SortKeys(binds.Keys, LexLess);
    ToSetIs(keys, binds.Keys);
    var drivers, rejected := AddEach(keys, mapping);
    if rejected != [] {
      return Err(rejected);
    }
    EncodeAllSize(keys);
    var args := seq(|keys|, i requires 0 <= i < |keys| => Arg(drivers[i], binds[keys[i]]));
    ArgsListed(keys, binds, args);
    return Ok(args);
  }

  lemma NoOptions(m: NameTable, unsafe: set<string>)
    requires Consistent(m, unsafe)
    ensures AllValid({}, unsafe) && CollisionFree(m.userToDriver.Keys + {})
    ensures m.userToDriver.Keys + {} == m.userToDriver.Keys
    ensures ArgsFor([], map[])
  {
    hide ValidUser, DriverKey;
    NamesCollisionFree(m, unsafe);
    assert ToSet([]) == {};
    assert Lists([], map[]) && ArgsOf([], map[]) == [];
  }

  class Plan {
    const originalSQL: string
    const mapping: RewriteMap
    var rewrittenSQL: string
    var bindArgs: seq<Arg>
    var cursorBindArgs: seq<Arg>
    var cursorParams: seq<string>
    var cursorDriverNames: seq<string>
    var sqlRefs: set<string>
    var hasCursor: bool

    constructor (query: string, mapping: RewriteMap)
      ensures originalSQL == rewrittenSQL == query && this.mapping == mapping
      ensures bindArgs == [] && cursorBindArgs == [] && cursorParams == [] && cursorDriverNames == []
      ensures sqlRefs == {} && !hasCursor
    {
      originalSQL, rewrittenSQL, this.mapping := query, query, mapping;
      bindArgs, cursorBindArgs, cursorParams, cursorDriverNames, sqlRefs, hasCursor := [], [], [], [], {}, false;
    }

    /** The names that building the arguments registers. */
    function Registered(binds: map<string, string>): set<string>
      reads this
    {
      if hasCursor then Kept(binds, cursorParams).Keys + ToSet(cursorParams) else binds.Keys
    }

    /** Builds the arguments, and for a cursor statement the cursor names. */
    method BuildBindArgs(binds: map<string, string>) returns (rejected: seq<string>)
      requires mapping.Valid() && (hasCursor <==> cursorParams != [])
      requires cursorDriverNames == [] && cursorBindArgs == [] && bindArgs == []
      modifies this`bindArgs, this`cursorBindArgs, this`cursorDriverNames, mapping
      ensures mapping.Valid()
      ensures rejected == [] <==>
              && AllValid(Registered(binds), mapping.unsafe)
              && CollisionFree(old(mapping.userToDriver.Keys) + Registered(binds))
      ensures rejected == [] ==>
                && mapping.userToDriver.Keys == old(mapping.userToDriver.Keys) + Registered(binds)
                && ArgsFor(bindArgs, if hasCursor then Kept(binds, cursorParams) else binds)
                && cursorDriverNames == EncodeAll(cursorParams)
                && cursorBindArgs == (if hasCursor then bindArgs else [])
                && (forall d :: d in mapping.sortedDriverNames <==> d in mapping.driverToUser)
    {
      hide Encode, ValidUser, DriverKey, CollisionFree, ToSet, Kept, Folds, ArgsFor, Consistent;
      ghost var before := mapping.userToDriver.Keys;
      if hasCursor {
        var kept := FilterCursorBinds(binds, cursorParams);
        var args := NamedArgs(kept, mapping);
        if args.Err? {
          SupersetFails(before, kept.Keys, ToSet(cursorParams), mapping.unsafe);
          return args.error;
        }
        bindArgs := args.value;
        cursorBindArgs := args.value;
        var drivers;
        drivers, rejected := AddEach(cursorParams, mapping);
        cursorDriverNames := drivers;
        UnionValid(before, kept.Keys, ToSet(cursorParams), mapping.unsafe);
        if rejected == [] {
          mapping.Finalize();
        }
        return;
      }
      NoOptions(mapping.Table(), mapping.unsafe);
      if binds == map[] {
        assert binds.Keys == {};
        mapping.Finalize();
        return [];
      }
      var args := NamedArgs(binds, mapping);
      if args.Err? {
        return args.error;
      }
      bindArgs := args.value;
      mapping.Finalize();
      return [];
    }

    /** Every placeholder has an option or is a cursor, and every option has a placeholder. */
    predicate Reconciled(binds: map<string, string>)
      reads this
    {
      && (forall p :: p in cursorParams ==> p in sqlRefs)
      && Balanced(sqlRefs, binds, cursorParams)
    }

    method ReconcileBindRefs(binds: map<string, string>) returns (r: Option<PlanError>)
      ensures r.None? <==> Reconciled(binds)
      ensures r.Some? && r.value.Unbalanced? ==>
                && (forall n :: n in r.value.missing <==>
                    n in sqlRefs && Fold(n) !in Folds(cursorParams) && n !in binds)
                && (forall n :: n in r.value.extra <==> n in binds && Fold(n) !in Folds(cursorParams) && n !in sqlRefs)
                && SortedBy(r.value.missing, LexLess) && SortedBy(r.value.extra, LexLess)
                && (r.value.missing != [] || r.value.extra != [])
      ensures r.Some? && !r.value.Unbalanced? ==>
                r.value.Unreferenced? && r.value.cursor in cursorParams && r.value.cursor !in sqlRefs
    {
      hide Fold;
      var cursors := {};
      for i := 0 to |cursorParams|
        invariant cursors == Folds(cursorParams[..i])
        invariant forall p :: p in cursorParams[..i] ==> p in sqlRefs
      {
        assert cursorParams[..i + 1] == cursorParams[..i] + [cursorParams[i]];
        cursors := cursors + {Fold(cursorParams[i])};
        if cursorParams[i] !in sqlRefs {
          return Some(Unreferenced(cursorParams[i]));
        }
      }
      assert cursorParams[..|cursorParams|] == cursorParams;
      var missing := set n | n in sqlRefs && Fold(n) !in cursors && n !in binds;
      var extra := set n | n in binds && Fold(n) !in cursors && n !in sqlRefs;
      if missing == {} && extra == {} {
        assert forall n :: n in sqlRefs && Fold(n) !in cursors ==> n !in missing;
        assert forall n :: n in binds && Fold(n) !in cursors ==> n !in extra;
        return None;
      }
      OrdersAreTotal();
      var m := SortKeys(missing, LexLess);
      var e := SortKeys(extra, LexLess);
      NotBalanced(sqlRefs, binds, cursorParams, missing, extra);
      return Some(Unbalanced(m, e));
    }
  }

  lemma NotBalanced(refs: set<string>, binds: map<string, string>, cursors: seq<string>,
                    missing: set<string>, extra: set<string>)
    requires missing == set n | n in refs && Fold(n) !in Folds(cursors) && n !in binds
    requires extra == set n | n in binds && Fold(n) !in Folds(cursors) && n !in refs
    requires missing != {} || extra != {}
    ensures !Balanced(refs, binds, cursors)
  {
    hide Fold;
    if missing != {} {
      var n :| n in missing;
    } else {
      var n :| n in extra;
    }
  }

  predicate Balanced(refs: set<string>, binds: map<string, string>, cursors: seq<string>) {
    && (forall n :: n in refs ==> Fold(n) in Folds(cursors) || n in binds)
    && (forall n :: n in binds ==> Fold(n) in Folds(cursors) || n in refs)
  }

  lemma SupersetFails(before: set<string>, a: set<string>, b: set<string>, unsafe: set<string>)
    ensures AllValid(a + b, unsafe) && CollisionFree(before + (a + b)) ==>
              AllValid(a, unsafe) && CollisionFree(before + a)
  {
    hide ValidUser, DriverKey;
  }

  lemma UnionValid(before: set<string>, a: set<string>, b: set<string>, unsafe: set<string>)
    requires AllValid(a, unsafe)
    ensures AllValid(a + b, unsafe) <==> AllValid(b, unsafe)
    ensures before + (a + b) == before + a + b
  {
    hide ValidUser;
  }

  function EncodeSet(names: set<string>): set<string> {
    set n | n in names :: Encode(n)
  }

  /** Argument names differ from each other in more than case. */
  predicate DistinctArgs(args: seq<Arg>) {
    forall i, j :: 0 <= i < j < |args| ==> Upper(args[i].name) != Upper(args[j].name)
  }

  lemma {:induction false} EncodeAllSet(names: seq<string>)
    ensures ToSet(EncodeAll(names)) == EncodeSet(ToSet(names))
  {
    hide Encode;
    if names != [] {
      EncodeAllSet(names[1..]);
      assert names == [names[0]] + names[1..];
      assert ToSet(names) == {names[0]} + ToSet(names[1..]);
      assert ToSet(EncodeAll(names)) == {Encode(names[0])} + ToSet(EncodeAll(names[1..]));
    }
  }

  lemma ArgNamesAre(args: seq<Arg>, binds: map<string, string>)
    requires ArgsFor(args, binds) && CollisionFree(binds.Keys)
    ensures ArgNames(args) == EncodeSet(binds.Keys)
    ensures DistinctArgs(args)
    ensures forall n :: n in binds ==> Arg(Encode(n), binds[n]) in args
  {
    hide Encode, LexLess;
    OrdersAreTotal();
    var keys :| Lists(keys, binds) && args == ArgsOf(keys, binds);
    forall i, j | 0 <= i < j < |args| ensures Upper(args[i].name) != Upper(args[j].name) {
      assert keys[i] in keys && keys[j] in keys && LexLess(keys[i], keys[j]);
      assert keys[i] in binds.Keys && keys[j] in binds.Keys;
      assert DriverKey(keys[i]) == Upper(args[i].name) && DriverKey(keys[j]) == Upper(args[j].name);
    }
    forall n | n in binds ensures Arg(Encode(n), binds[n]) in args {
      var i :| 0 <= i < |keys| && keys[i] == n;
      assert args[i] == Arg(Encode(n), binds[n]);
    }
    forall x | x in EncodeSet(binds.Keys) ensures x in ArgNames(args) {
      var n :| n in binds.Keys && Encode(n) == x;
      assert Arg(Encode(n), binds[n]) in args;
    }
    forall x | x in ArgNames(args) ensures x in EncodeSet(binds.Keys) {
      var i :| 0 <= i < |args| && args[i].name == x;
      assert keys[i] in keys;
    }
  }

  /**
    When options and placeholders balance, the arguments and the cursors
    together carry exactly the driver names of the placeholders. No argument
    repeats another one or a cursor; a cursor may stand in the text twice.
   */
  lemma ArgumentsCoverPlaceholders(refs: set<string>, binds: map<string, string>, cursors: seq<string>,
                                   args: seq<Arg>, unsafe: set<string>)
    requires AllValid(refs, unsafe) && CollisionFree(refs) && ToSet(cursors) <= refs
    requires Balanced(refs, binds, cursors) && ArgsFor(args, Kept(binds, cursors))
    ensures ArgNames(args) + ToSet(EncodeAll(cursors)) == EncodeSet(refs)
    ensures ArgNames(args) !! ToSet(EncodeAll(cursors))
    ensures DistinctArgs(args)
  {
    hide Encode, ArgsFor, DistinctArgs, Fold, ValidUser;
    var kept := Kept(binds, cursors).Keys;
    forall n | n in refs ensures n in kept || n in ToSet(cursors) {
      if Fold(n) in Folds(cursors) {
        var c :| c in cursors && Fold(c) == Fold(n);
        assert c in ToSet(cursors);
        FoldedNamesAreEqual(refs, unsafe, n, c);
      }
    }
    assert kept <= refs;
    assert refs == kept + ToSet(cursors);
    assert CollisionFree(kept);
    ArgNamesAre(args, Kept(binds, cursors));
    EncodeAllSet(cursors);
    assert EncodeSet(refs) == EncodeSet(kept) + EncodeSet(ToSet(cursors));
    forall x | x in EncodeSet(kept) ensures x !in EncodeSet(ToSet(cursors)) {
      var n :| n in kept && Encode(n) == x;
      forall c | c in ToSet(cursors) ensures Encode(c) != x {
        assert Fold(c) in Folds(cursors) && n != c;
        assert DriverKey(n) == Upper(Encode(n)) && DriverKey(c) == Upper(Encode(c));
      }
    }
  }

  /** The placeholders that are no cursors come with the values of their options, and nothing else does. */
  ghost predicate CarriesValues(args: seq<Arg>, refs: set<string>, binds: map<string, string>, cursors: seq<string>) {
    && (forall n :: n in refs && !NamesCursor(n, cursors) ==> n in binds && Arg(Encode(n), binds[n]) in args)
    && (forall a :: a in args ==>
          exists n :: n in refs && !NamesCursor(n, cursors) && n in binds && a == Arg(Encode(n), binds[n]))
  }

  lemma ValuesReachArguments(refs: set<string>, binds: map<string, string>, cursors: seq<string>, args: seq<Arg>)
    requires Balanced(refs, binds, cursors) && ArgsFor(args, Kept(binds, cursors))
    ensures CarriesValues(args, refs, binds, cursors)
  {
    hide Encode, LexLess, Fold, NamesCursor;
    var kept := Kept(binds, cursors);
    var keys :| Lists(keys, kept) && args == ArgsOf(keys, kept);
    forall n | n in refs && !NamesCursor(n, cursors) ensures n in binds && Arg(Encode(n), binds[n]) in args {
      CursorFolds(n, cursors);
      assert n in kept && n in keys;
      var i :| 0 <= i < |keys| && keys[i] == n;
      assert args[i] == Arg(Encode(n), binds[n]);
    }
    forall a | a in args
      ensures exists n :: n in refs && !NamesCursor(n, cursors) && n in binds && a == Arg(Encode(n), binds[n])
    {
      var i :| 0 <= i < |args| && args[i] == a;
      var n := keys[i];
      assert n in keys;
      CursorFolds(n, cursors);
    }
  }

  // ----- Preparing a statement -----

  /** The cursor parameters of a query that scans. */
  function CursorsOf(query: string): seq<string>
    requires Scans(query)
  {
    MarkerNames(TokenMarkers(query, RegionsFrom(query, 0).value))
  }

  predicate Scans(query: string) {
    RegionsFrom(query, 0).Ok? && InBounds(RegionsFrom(query, 0).value, |query|)
  }

  function RefsOf(query: string): set<string> {
    ToSet(BindsOf(Segments(query)))
  }

  /** The query can be planned with these options. */
  predicate Plannable(query: string, binds: map<string, string>, unsafe: set<string>) {
    (binds == map[] && Quiet(query)) ||
    (&& Scans(query)
     && AllMarkers(query, RegionsFrom(query, 0).value, unsafe).bad == []
     && AllGoodStarts(query, RegionsFrom(query, 0).value)
     && AllValid(RefsOf(query), unsafe) && CollisionFree(RefsOf(query))
     && Balanced(RefsOf(query), binds, CursorsOf(query)))
  }

  lemma {:induction false} MarkersHaveTokens(ts: seq<Token>, at: nat)
    ensures forall m :: m in MarkersOf(ts, at) ==> m.name in ToSet(BindTokens.Names(ts))
  {
    hide TokenText;
    if ts != [] {
      MarkersHaveTokens(ts[1..], at + |TokenText(ts[0])|);
    }
  }

  lemma {:induction false} MarkersHaveNames(q: string, regions: seq<Region>)
    requires InBounds(regions, |q|)
    ensures forall m :: m in TokenMarkers(q, regions) ==> m.name in ToSet(AllNames(q, regions))
  {
    hide Tokens, MarkersOf, BindTokens.Names;
    if regions != [] {
      MarkersHaveTokens(Tokens(RegionText(q, regions[0])), regions[0].start);
      MarkersHaveNames(q, regions[1..]);
    }
  }

  lemma CursorsAreRefs(query: string)
    requires Scans(query)
    ensures ToSet(CursorsOf(query)) <= RefsOf(query)
  {
    hide RegionsFrom, TokenMarkers, Segments, BindsOf;
    var regions := RegionsFrom(query, 0).value;
    TransformMeaning(query);
    MarkersHaveNames(query, regions);
    var markers := TokenMarkers(query, regions);
    forall c | c in CursorsOf(query) ensures c in RefsOf(query) {
      var i :| 0 <= i < |markers| && markers[i].name == c;
      assert markers[i] in markers;
    }
  }

  /** The names to register lie among the placeholders when the options balance. */
  lemma RegisteredAreRefs(refs: set<string>, binds: map<string, string>, cursors: seq<string>)
    requires Balanced(refs, binds, cursors) && ToSet(cursors) <= refs
    ensures Kept(binds, cursors).Keys <= refs
    ensures cursors == [] ==> Kept(binds, cursors) == binds && Folds(cursors) == {}
  {
    hide Fold;
  }

  lemma ScanRejects(query: string, unsafe: set<string>)
    ensures AddAll(NO_NAMES, [], unsafe).Ok? && Consistent(NO_NAMES, unsafe)
  {
  }

  /** Registering the placeholders of a scanned query. */
  lemma RefsRegister(query: string, unsafe: set<string>)
    requires Scans(query)
    ensures var added := AddAll(NO_NAMES, AllNames(query, RegionsFrom(query, 0).value), unsafe);
            && (added.Ok? <==> AllValid(RefsOf(query), unsafe) && CollisionFree(RefsOf(query)))
            && (added.Ok? ==> added.value.userToDriver.Keys == RefsOf(query))
  {
    hide RegionsFrom, Segments, BindsOf, ValidUser, DriverKey, AddAll, Consistent;
    TransformMeaning(query);
    ScanRejects(query, unsafe);
    AddAllMeaning(NO_NAMES, BindsOf(Segments(query)), unsafe);
    assert {} + RefsOf(query) == RefsOf(query);
    assert BindsOf(Segments(query)) == [] ==> RefsOf(query) == {};
  }

  /** What every plan that is handed out satisfies. */
  ghost predicate Complete(p: Plan)
    reads p, p.mapping
  {
    && p.mapping.Valid() && p.mapping.userToDriver.Keys == p.sqlRefs
    && (forall d :: d in p.mapping.sortedDriverNames <==> d in p.mapping.driverToUser)
    && ArgNames(p.bindArgs) + ToSet(p.cursorDriverNames) == EncodeSet(p.sqlRefs)
    && ArgNames(p.bindArgs) !! ToSet(p.cursorDriverNames)
    && DistinctArgs(p.bindArgs)
    && p.cursorDriverNames == EncodeAll(p.cursorParams)
    && p.cursorBindArgs == (if p.hasCursor then p.bindArgs else [])
    && (p.hasCursor <==> p.cursorParams != [])
  }

  /** The query scans, and its markers, starts and names are acceptable. */
  predicate Transforms(query: string, unsafe: set<string>) {
    && Scans(query)
    && AllMarkers(query, RegionsFrom(query, 0).value, unsafe).bad == []
    && AllGoodStarts(query, RegionsFrom(query, 0).value)
    && AllValid(RefsOf(query), unsafe) && CollisionFree(RefsOf(query))
  }

  /** Why a query is not transformed: its quotes, then its markers, then its starts and names. */
  predicate TransformError(e: PlanError, query: string, unsafe: set<string>) {
    match e
    case BadQuote(q) => RegionsFrom(query, 0) == Err(q)
    case BadMarkers(names) =>
      Scans(query) && names != [] && names == AllMarkers(query, RegionsFrom(query, 0).value, unsafe).bad
    case BadBind(name) =>
      && Scans(query) && NamedInCode(query, RegionsFrom(query, 0).value, name)
      && AllMarkers(query, RegionsFrom(query, 0).value, unsafe).bad == []
      && !(AllGoodStarts(query, RegionsFrom(query, 0).value) && AllValid(RefsOf(query), unsafe)
           && CollisionFree(RefsOf(query)))
    case _ => false
  }

  /** The names that options and cursors add to the placeholders. */
  function OptionNames(query: string, binds: map<string, string>): set<string>
    requires Scans(query)
  {
    if CursorsOf(query) != [] then Kept(binds, CursorsOf(query)).Keys + ToSet(CursorsOf(query)) else binds.Keys
  }

  /** What each error says about the query and its options. A cursor is never unreferenced. */
  ghost predicate ErrorFits(e: PlanError, query: string, binds: map<string, string>, unsafe: set<string>) {
    match e
    case BadOptions(names) =>
      && Transforms(query, unsafe) && names != []
      && !(AllValid(OptionNames(query, binds), unsafe) && CollisionFree(RefsOf(query) + OptionNames(query, binds)))
    case Unbalanced(missing, extra) =>
      && Transforms(query, unsafe) && (missing != [] || extra != [])
      && (forall n :: n in missing <==>
            n in RefsOf(query) && !NamesCursor(n, CursorsOf(query)) && n !in binds)
      && (forall n :: n in extra <==>
            n in binds && !NamesCursor(n, CursorsOf(query)) && n !in RefsOf(query))
      && SortedBy(missing, LexLess) && SortedBy(extra, LexLess)
    case Unreferenced(_) => false
    case _ => TransformError(e, query, unsafe)
  }

  lemma TransformErrorFits(e: PlanError, query: string, binds: map<string, string>, unsafe: set<string>)
    requires TransformError(e, query, unsafe)
    ensures ErrorFits(e, query, binds, unsafe)
  {
    hide RegionsFrom, Scans, AllMarkers, AllGoodStarts, RefsOf, CursorsOf, Transforms, AllValid, CollisionFree;
  }

  lemma OptionsErrorFits(names: seq<string>, query: string, binds: map<string, string>, unsafe: set<string>)
    requires Transforms(query, unsafe) && Scans(query) && names != []
    requires !(AllValid(OptionNames(query, binds), unsafe) && CollisionFree(RefsOf(query) + OptionNames(query, binds)))
    ensures ErrorFits(BadOptions(names), query, binds, unsafe)
  {
    hide Scans, RefsOf, CursorsOf, Transforms, AllValid, CollisionFree, OptionNames;
  }

  lemma BalanceErrorFits(e: PlanError, query: string, binds: map<string, string>, unsafe: set<string>)
    requires Transforms(query, unsafe) && Scans(query) && ToSet(CursorsOf(query)) <= RefsOf(query)
    requires e.Unbalanced? || (e.Unreferenced? && e.cursor in CursorsOf(query) && e.cursor !in RefsOf(query))
    requires e.Unbalanced? ==>
               && (e.missing != [] || e.extra != [])
               && (forall n :: n in e.missing <==>
                     n in RefsOf(query) && Fold(n) !in Folds(CursorsOf(query)) && n !in binds)
               && (forall n :: n in e.extra <==>
                     n in binds && Fold(n) !in Folds(CursorsOf(query)) && n !in RefsOf(query))
               && SortedBy(e.missing, LexLess) && SortedBy(e.extra, LexLess)
    ensures ErrorFits(e, query, binds, unsafe)
  {
    hide Scans, RefsOf, CursorsOf, Transforms, Fold, Folds, NamesCursor, LexLess;
    assert forall c :: c in CursorsOf(query) ==> c in ToSet(CursorsOf(query));
    forall n ensures Fold(n) in Folds(CursorsOf(query)) <==> NamesCursor(n, CursorsOf(query)) {
      CursorFolds(n, CursorsOf(query));
    }
  }

  /** Scans the query, finds its markers and rewrites it. */
  method Transform(query: string, plan: Plan) returns (r: Option<PlanError>)
    requires plan.mapping.Valid() && plan.mapping.Table() == NO_NAMES
    modifies plan`sqlRefs, plan`rewrittenSQL, plan`cursorParams, plan`hasCursor, plan.mapping
    ensures plan.mapping.Valid()
    ensures r.None? <==> Transforms(query, plan.mapping.unsafe)
    ensures r.Some? ==> TransformError(r.value, query, plan.mapping.unsafe)
    ensures r.None? ==>
              && plan.rewrittenSQL == Rewrite(query) && plan.sqlRefs == RefsOf(query)
              && plan.cursorParams == CursorsOf(query) && (plan.hasCursor <==> plan.cursorParams != [])
              && plan.mapping.userToDriver.Keys == plan.sqlRefs
  {
    hide RegionsFrom, Rewritten, AllMarkers, AllNames, AllGoodStarts, TokenMarkers, Segments, BindsOf, Rewrite;
    hide ValidUser, Encode, DriverKey, CollisionFree, Consistent, AddAll, ToSet;
    var scanned := ScanCodeRegions(query);
    if scanned.Err? {
      return Some(BadQuote(scanned.error));
    }
    var regions := scanned.value;
    TransformMeaning(query);
    var found := ScanCursorMarkers(query, regions, plan.mapping.unsafe);
    if found.Err? {
      return Some(BadMarkers(found.error));
    }
    var markers := found.value;
    RefsRegister(query, plan.mapping.unsafe);
    var rewritten, refs := TransformBinds(query, regions, markers, plan.mapping);
    plan.sqlRefs := refs;
    if rewritten.Err? {
      return Some(BadBind(rewritten.error));
    }
    plan.rewrittenSQL := rewritten.value;
    plan.cursorParams := MarkerNames(markers);
    plan.hasCursor := markers != [];
    return None;
  }

  lemma PlannableIs(query: string, binds: map<string, string>, unsafe: set<string>)
    requires !(binds == map[] && Quiet(query))
    ensures Plannable(query, binds, unsafe) <==>
            Transforms(query, unsafe) && Balanced(RefsOf(query), binds, CursorsOf(query))
  {
    hide Scans, AllMarkers, AllGoodStarts, CollisionFree, Balanced, RegionsFrom, Quiet, RefsOf, CursorsOf;
  }

  lemma TransformsHas(query: string, unsafe: set<string>)
    requires Transforms(query, unsafe)
    ensures Scans(query) && AllValid(RefsOf(query), unsafe) && CollisionFree(RefsOf(query))
  {
    hide AllMarkers, AllGoodStarts, CollisionFree, RegionsFrom, RefsOf;
  }

  /** Scans, transforms and reconciles; used whenever the fast path does not apply. */
  method PrepareFull(query: string, binds: map<string, string>, plan: Plan) returns (r: Option<PlanError>)
    requires plan.mapping.Valid() && plan.mapping.Table() == NO_NAMES && plan.originalSQL == query
    requires plan.bindArgs == [] && plan.cursorBindArgs == [] && plan.cursorParams == [] && plan.cursorDriverNames == []
    requires !plan.hasCursor && !(binds == map[] && Quiet(query))
    modifies plan, plan.mapping
    ensures r.None? <==> Plannable(query, binds, plan.mapping.unsafe)
    ensures r.None? ==>
              && Complete(plan)
              && Scans(query)
              && plan.rewrittenSQL == Rewrite(query)
              && plan.sqlRefs == RefsOf(query)
              && plan.cursorParams == CursorsOf(query)
              && ArgsFor(plan.bindArgs, Kept(binds, plan.cursorParams))
              && CarriesValues(plan.bindArgs, plan.sqlRefs, binds, plan.cursorParams)
    ensures r.Some? ==> ErrorFits(r.value, query, binds, plan.mapping.unsafe)
  {
    hide RegionsFrom, Quiet, AllMarkers, AllGoodStarts, Segments, BindsOf, Rewrite, Scans, RefsOf,
         CursorsOf, Transforms;
    hide ValidUser, Encode, DriverKey, CollisionFree, Consistent, AddAll, Plannable;
    hide Fold, Folds, EncodeSet, ArgsFor, Kept, Balanced, ToSet, CarriesValues, NamesCursor, ErrorFits;
    PlannableIs(query, binds, plan.mapping.unsafe);
    var stopped := Transform(query, plan);
    if stopped.Some? {
      TransformErrorFits(stopped.value, query, binds, plan.mapping.unsafe);
      return stopped;
    }
    TransformsHas(query, plan.mapping.unsafe);
    CursorsAreRefs(query);
    ghost var refs, unsafe := plan.sqlRefs, plan.mapping.unsafe;
    ghost var registered := plan.Registered(binds);
    BalancedRegisters(refs, binds, plan.cursorParams, registered, unsafe);
    var rejected := plan.BuildBindArgs(binds);
    if rejected != [] {
      OptionsErrorFits(rejected, query, binds, unsafe);
      return Some(BadOptions(rejected));
    }
    var unbalanced := plan.ReconcileBindRefs(binds);
    if unbalanced.Some? {
      BalanceErrorFits(unbalanced.value, query, binds, unsafe);
      return unbalanced;
    }
    RegisteredAreRefs(refs, binds, plan.cursorParams);
    ArgumentsCoverPlaceholders(refs, binds, plan.cursorParams, plan.bindArgs, unsafe);
    ValuesReachArguments(refs, binds, plan.cursorParams, plan.bindArgs);
    plan.mapping.Finalize();
    return None;
  }

  /** Balanced options register no name beyond the placeholders. */
  lemma BalancedRegisters(refs: set<string>, binds: map<string, string>, cursors: seq<string>,
                          registered: set<string>, unsafe: set<string>)
    requires ToSet(cursors) <= refs && AllValid(refs, unsafe) && CollisionFree(refs)
    requires registered == if cursors != [] then Kept(binds, cursors).Keys + ToSet(cursors) else binds.Keys
    ensures Balanced(refs, binds, cursors) ==>
              && AllValid(registered, unsafe) && CollisionFree(refs + registered) && refs + registered == refs
    ensures forall p :: p in cursors ==> p in refs
  {
    hide ValidUser, DriverKey, Fold;
    assert forall p :: p in cursors ==> p in ToSet(cursors);
    if Balanced(refs, binds, cursors) {
      RegisteredAreRefs(refs, binds, cursors);
      assert refs + registered == refs;
    }
  }

  /**
    Plans a statement. It succeeds exactly when the query scans, its markers and
    names are valid and apart, and options and placeholders balance. Without
    options the flag scan may let a query through as it is.
   */
  method Prepare(query: string, binds: map<string, string>, unsafe: set<string>) returns (r: Result<Plan, PlanError>)
    requires NoSentinelWord(unsafe)
    ensures r.Ok? <==> Plannable(query, binds, unsafe)
    ensures r.Ok? ==>
              var p := r.value;
              && Complete(p) && p.originalSQL == query
              && if binds == map[] && Quiet(query) then
                  p.rewrittenSQL == query && p.sqlRefs == {} && p.cursorParams == []
                else
                  && Scans(query) && p.rewrittenSQL == Rewrite(query) && p.sqlRefs == RefsOf(query)
                  && p.cursorParams == CursorsOf(query) && ArgsFor(p.bindArgs, Kept(binds, p.cursorParams))
                  && CarriesValues(p.bindArgs, p.sqlRefs, binds, p.cursorParams)
                  && (p.hasCursor ==> CarriesValues(p.cursorBindArgs, p.sqlRefs, binds, p.cursorParams))
    ensures r.Err? ==> ErrorFits(r.error, query, binds, unsafe)
  {
    hide CarriesValues, ErrorFits, Transforms;
    hide Plannable, Quiet, Scans, Rewrite, RefsOf, CursorsOf, ArgsFor, Kept;
    hide Consistent, CollisionFree, EncodeAll, EncodeSet, ToSet, ArgNames, ValidUser;
    var mapping := new RewriteMap(unsafe);
    var plan := new Plan(query, mapping);
    var needsScan := binds != map[];
    if !needsScan {
      var flags := ScanRewriteFlags(query);
      needsScan := flags.NeedsScan();
      QuietIs(query);
    }
    if !needsScan {
      QuietPlans(query, unsafe);
      assert binds.Keys == {};
      NoOptions(mapping.Table(), unsafe);
      var rejected := plan.BuildBindArgs(binds);
      if rejected != [] {
        return Err(BadOptions(rejected));
      }
      NothingToBind(plan.bindArgs);
      var unbalanced := plan.ReconcileBindRefs(binds);
      match unbalanced {
        case Some(error) => return Err(error);
        case None => return Ok(plan);
      }
    }
    var failed := PrepareFull(query, binds, plan);
    if failed.Some? {
      return Err(failed.value);
    }
    return Ok(plan);
  }

  lemma NothingToBind(args: seq<Arg>)
    requires ArgsFor(args, map[])
    ensures args == [] && ArgNames([]) == {} && ToSet([]) == {} && EncodeAll([]) == [] && EncodeSet({}) == {}
  {
    hide Encode, LexLess;
    var keys :| Lists(keys, map[]) && args == ArgsOf(keys, map[]);
    HasMember(keys);
  }

  lemma QuietIs(query: string)
    ensures Quiet(query) <==> !FlagsOf(query).NeedsScan()
  {
  }

  lemma QuietPlans(query: string, unsafe: set<string>)
    ensures Quiet(query) ==> Plannable(query, map[], unsafe)
  {
    hide Quiet, Scans;
  }

  /**
    The placeholders that the driver reads in the rewritten text are the driver
    names of the placeholders the user wrote: with Complete, exactly the names
    of the arguments and of the cursors.
   */
  lemma PlaceholdersReachDriver(query: string)
    requires Spaced(Segments(query))
    ensures ToSet(BindsOf(Segments(Rewrite(query)))) == EncodeSet(RefsOf(query))
  {
    hide Segments, BindsOf, Spaced, Rewrite;
    MeaningKeptExactly(query);
    EncodeAllSet(BindsOf(Segments(query)));
  }

  /** Read in order, the binds of the rewritten text are the query's binds looked up in the table. */
  lemma BindsGoThroughTable(query: string, m: NameTable, unsafe: set<string>)
    requires Spaced(Segments(query)) && Consistent(m, unsafe)
    requires forall n :: n in BindsOf(Segments(query)) ==> n in m.userToDriver
    ensures var binds, read := BindsOf(Segments(query)), BindsOf(Segments(Rewrite(query)));
            |read| == |binds| && forall i :: 0 <= i < |binds| ==> read[i] == m.userToDriver[binds[i]]
  {
    hide Segments, BindsOf, Spaced, Rewrite, Encode, DriversKnown, ChangesKnown;
    MeaningKeptExactly(query);
    var binds := BindsOf(Segments(query));
    EncodeAllSize(binds);
    forall i | 0 <= i < |binds| ensures EncodeAll(binds)[i] == m.userToDriver[binds[i]] {
      EncodeAllAt(binds, i);
      assert binds[i] in binds;
    }
  }

  /** A statement let through by the flag scan holds no placeholder exactly when none is hidden. */
  lemma FastPlanIsExact(query: string)
    requires Quiet(query)
    ensures RefsOf(query) == {} <==> !HidesBind(query)
  {
    hide Quiet, Segments, BindsOf, HidesBind;
    FastPathMissesExactly(query);
    var binds := BindsOf(Segments(query));
    assert binds != [] ==> binds[0] in RefsOf(query);
  }

  /** In particular when it is aligned. */
  lemma FastPlanHasNoPlaceholder(query: string)
    requires Quiet(query) && Aligned(Segments(query))
    ensures RefsOf(query) == {}
  {
    hide Quiet, Aligned, Segments, RegionsFrom, BindsOf;
    FastPathRefinesFullScan(query, {});
    TransformMeaning(query);
  }

  /** When it is not aligned, a plan can be handed out that leaves a placeholder unbound. */
  lemma FastPlanCanMissPlaceholder()
    ensures Plannable("'/*':x", map[], {}) && RefsOf("'/*':x") == {"x"}
  {
    hide Quiet, Segments, BindsOf, Scans, Aligned;
    FastPathMissesBind();
  }
}
