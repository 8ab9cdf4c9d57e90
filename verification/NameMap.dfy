/**
  The table that keeps user bind names and driver bind names in step while a
  query is rewritten.
 */
module NameMap {
  import opened Text
  import opened BindNames
  import opened Ordering

  datatype NameTable = NameTable(
    userToDriver: map<string, string>,
    driverToUser: map<string, string>,
    driverUpperToUser: map<string, string>)

  const NO_NAMES := NameTable(map[], map[], map[])

  function DriverKey(name: string): string {
    Upper(Encode(name))
  }

  /** No two names of the set reach the same driver name, whatever its case. */
  predicate CollisionFree(names: set<string>) {
    forall a, b :: a in names && b in names && DriverKey(a) == DriverKey(b) ==> a == b
  }

  predicate AllValid(names: set<string>, unsafe: set<string>) {
    forall n :: n in names ==> ValidUser(n, unsafe)
  }

  /** Every user name is valid and known under its driver name. */
  predicate UsersKnown(m: NameTable, unsafe: set<string>) {
    && (forall n :: n in m.userToDriver ==> ValidUser(n, unsafe) && m.userToDriver[n] == Encode(n))
    && (forall n :: n in m.userToDriver ==>
          DriverKey(n) in m.driverUpperToUser && m.driverUpperToUser[DriverKey(n)] == n)
  }

  predicate DriversKnown(m: NameTable) {
    forall u :: u in m.driverUpperToUser ==>
      m.driverUpperToUser[u] in m.userToDriver && DriverKey(m.driverUpperToUser[u]) == u
  }

  /** The reverse table holds exactly the names that the encoding changed. */
  predicate ChangesKnown(m: NameTable) {
    && (forall d :: d in m.driverToUser ==>
          m.driverToUser[d] in m.userToDriver && NeedsEncoding(m.driverToUser[d]) && Encode(m.driverToUser[d]) == d)
    && (forall n :: n in m.userToDriver && NeedsEncoding(n) ==>
          Encode(n) in m.driverToUser && m.driverToUser[Encode(n)] == n)
  }

  /** What every table built by AddName satisfies. */
  predicate Consistent(m: NameTable, unsafe: set<string>) {
    UsersKnown(m, unsafe) && DriversKnown(m) && ChangesKnown(m)
  }

  function Add(m: NameTable, name: string, unsafe: set<string>): Result<NameTable, string> {
    if !ValidUser(name, unsafe) then Err(name)
    else
      var driver := Encode(name);
      var key := DriverKey(name);
      if key in m.driverUpperToUser && m.driverUpperToUser[key] != name then Err(name)
      else Ok(NameTable(
                m.userToDriver[name := driver],
                if NeedsEncoding(name) then m.driverToUser[driver := name] else m.driverToUser,
                m.driverUpperToUser[key := name]))
  }

  function AddAll(m: NameTable, names: seq<string>, unsafe: set<string>): Result<NameTable, string>
    decreases |names|
  {
    if names == [] then Ok(m)
    else
      var r := Add(m, names[0], unsafe);
      if r.Err? then r else AddAll(r.value, names[1..], unsafe)
  }

  /** The names of the list that cannot be added to what the table holds by then. */
  function Refused(m: NameTable, names: seq<string>, unsafe: set<string>): seq<string>
    decreases |names|
  {
    if names == [] then []
    else
      var r := Add(m, names[0], unsafe);
      if r.Err? then [names[0]] + Refused(m, names[1..], unsafe) else Refused(r.value, names[1..], unsafe)
  }

  lemma RefusedStep(m: NameTable, names: seq<string>, unsafe: set<string>)
    ensures Refused(m, [], unsafe) == []
    ensures names != [] ==>
              var r := Add(m, names[0], unsafe);
              Refused(m, names, unsafe) ==
              if r.Err? then [names[0]] + Refused(m, names[1..], unsafe) else Refused(r.value, names[1..], unsafe)
  {
    hide Add;
  }

  function ToSet(names: seq<string>): set<string> {
    set n | n in names
  }

  lemma AddSucceeds(m: NameTable, name: string, unsafe: set<string>)
    requires UsersKnown(m, unsafe) && DriversKnown(m)
    ensures Add(m, name, unsafe).Ok? <==>
              ValidUser(name, unsafe) && CollisionFree(m.userToDriver.Keys + {name})
  {
    var key := DriverKey(name);
    if key in m.driverUpperToUser && m.driverUpperToUser[key] != name {
      assert m.driverUpperToUser[key] in m.userToDriver.Keys;
    }
  }

  lemma AddKeepsChanges(m: NameTable, name: string, unsafe: set<string>)
    requires Consistent(m, unsafe) && Add(m, name, unsafe).Ok?
    ensures ChangesKnown(Add(m, name, unsafe).value)
  {
    var r := Add(m, name, unsafe).value;
    forall n | n in r.userToDriver && NeedsEncoding(n)
      ensures Encode(n) in r.driverToUser && r.driverToUser[Encode(n)] == n
    {
      if n != name {
        assert n in m.userToDriver;
        assert Encode(n) == Encode(name) ==> DriverKey(n) == DriverKey(name);
      }
    }
  }

  lemma AddKeepsConsistent(m: NameTable, name: string, unsafe: set<string>)
    requires Consistent(m, unsafe) && Add(m, name, unsafe).Ok?
    ensures Consistent(Add(m, name, unsafe).value, unsafe)
    ensures Add(m, name, unsafe).value.userToDriver.Keys == m.userToDriver.Keys + {name}
  {
    hide ValidUser, DriverKey, ChangesKnown, Encode, NeedsEncoding;
    AddKeepsChanges(m, name, unsafe);
    AddKeepsUsers(m, name, unsafe);
  }

  lemma AddKeepsUsers(m: NameTable, name: string, unsafe: set<string>)
    requires UsersKnown(m, unsafe) && DriversKnown(m) && Add(m, name, unsafe).Ok?
    ensures UsersKnown(Add(m, name, unsafe).value, unsafe) && DriversKnown(Add(m, name, unsafe).value)
  {
    hide ValidUser, Encode, NeedsEncoding, DriverKey;
    KeyIsUpper(name);
  }

  lemma AddCases(m: NameTable, name: string, unsafe: set<string>)
    requires Consistent(m, unsafe)
    ensures Add(m, name, unsafe).Ok? <==> ValidUser(name, unsafe) && CollisionFree(m.userToDriver.Keys + {name})
    ensures Add(m, name, unsafe).Ok? ==> Consistent(Add(m, name, unsafe).value, unsafe)
    ensures DriverKey(name) == Upper(Encode(name))
  {
    hide Add, ValidUser, CollisionFree, UsersKnown, DriversKnown, ChangesKnown, Encode;
    AddSucceeds(m, name, unsafe);
    if Add(m, name, unsafe).Ok? {
      AddKeepsConsistent(m, name, unsafe);
    }
  }

  lemma KeyIsUpper(name: string)
    ensures DriverKey(name) == Upper(Encode(name))
  {
  }

  lemma {:induction false} AddAllAppend(m: NameTable, a: seq<string>, b: seq<string>, unsafe: set<string>)
    decreases |a|
    ensures AddAll(m, a + b, unsafe) ==
            var r := AddAll(m, a, unsafe); if r.Err? then r else AddAll(r.value, b, unsafe)
  {
    if a == [] {
      assert a + b == b;
    } else {
      assert (a + b)[0] == a[0] && (a + b)[1..] == a[1..] + b;
      var r := Add(m, a[0], unsafe);
      if r.Ok? {
        AddAllAppend(r.value, a[1..], b, unsafe);
      }
    }
  }

  /**
    Adding a list of names succeeds exactly when all of them are valid and no two
    collide, in whatever order they come.
   */
  lemma {:induction false} AddAllMeaning(m: NameTable, names: seq<string>, unsafe: set<string>)
    requires Consistent(m, unsafe)
    ensures AddAll(m, names, unsafe).Ok? <==>
              && AllValid(ToSet(names), unsafe)
              && (names == [] || CollisionFree(m.userToDriver.Keys + ToSet(names)))
    ensures AddAll(m, names, unsafe).Ok? ==>
              && Consistent(AddAll(m, names, unsafe).value, unsafe)
              && AddAll(m, names, unsafe).value.userToDriver.Keys == m.userToDriver.Keys + ToSet(names)
    decreases |names|
  {
    if names != [] {
      AddSucceeds(m, names[0], unsafe);
      assert names == [names[0]] + names[1..];
      assert ToSet(names) == {names[0]} + ToSet(names[1..]);
      assert m.userToDriver.Keys + ToSet(names) == m.userToDriver.Keys + {names[0]} + ToSet(names[1..]);
      if Add(m, names[0], unsafe).Ok? {
        AddKeepsConsistent(m, names[0], unsafe);
        AddAllMeaning(Add(m, names[0], unsafe).value, names[1..], unsafe);
        assert names[1..] == [] ==> ToSet(names[1..]) == {};
      }
    }
  }

  lemma ChangedNamesCarrySentinel(m: NameTable)
    requires ChangesKnown(m)
    ensures forall d :: d in m.driverToUser ==> HasSentinel(d)
  {
    forall d | d in m.driverToUser ensures HasSentinel(d) {
      EncodeChanged(m.driverToUser[d]);
    }
  }

  /** Distinct users keep distinct drivers, and the two tables are inverse. */
  lemma NamesAreInverse(m: NameTable, unsafe: set<string>)
    requires Consistent(m, unsafe)
    ensures CollisionFree(m.userToDriver.Keys)
    ensures forall n :: n in m.userToDriver ==>
                          var k := Upper(m.userToDriver[n]);
                          k in m.driverUpperToUser && m.driverUpperToUser[k] == n
    ensures forall k :: k in m.driverUpperToUser ==>
                          var n := m.driverUpperToUser[k];
                          n in m.userToDriver && Upper(m.userToDriver[n]) == k
    ensures forall n, d :: n in m.userToDriver && m.userToDriver[n] == d ==>
                             (d in m.driverToUser <==> d != n)
  {
    ChangedNamesCarrySentinel(m);
    forall n | n in m.userToDriver
      ensures Encode(n) in m.driverToUser <==> Encode(n) != n
    {
      if NeedsEncoding(n) {
        var k := EncodeDiverges(n);
      } else {
        EncodeUnchanged(n);
      }
    }
  }

  class RewriteMap {
    var userToDriver: map<string, string>
    var driverToUser: map<string, string>
    var driverUpperToUser: map<string, string>
    var sortedDriverNames: seq<string>
    const unsafe: set<string>

    function Table(): NameTable
      reads this
    {
      NameTable(userToDriver, driverToUser, driverUpperToUser)
    }

    ghost predicate Valid()
      reads this
    {
      NoSentinelWord(unsafe) && Consistent(Table(), unsafe)
    }

    constructor (unsafe: set<string>)
      requires NoSentinelWord(unsafe)
      ensures Valid() && Table() == NO_NAMES && this.unsafe == unsafe && sortedDriverNames == []
    {
      this.unsafe := unsafe;
      userToDriver, driverToUser, driverUpperToUser := map[], map[], map[];
      sortedDriverNames := [];
    }

    /** Registers a name. The result is its driver name and whether it changed. */
    method AddName(name: string) returns (r: Result<(string, bool), string>)
      requires Valid()
      modifies this
      ensures Valid() && sortedDriverNames == old(sortedDriverNames)
      ensures r.Ok? <==> ValidUser(name, unsafe) && CollisionFree(old(userToDriver.Keys) + {name})
      ensures r.Ok? ==> r.value == (Encode(name), NeedsEncoding(name))
      ensures r.Ok? ==> Add(old(Table()), name, unsafe) == Ok(Table())
      ensures r.Err? ==> Table() == old(Table()) && Add(Table(), name, unsafe).Err? && r.error == name
    {
      hide Encode, NeedsEncoding, ValidUser, Consistent, CollisionFree, NoSentinelWord;
      ghost var was := Table();
      AddCases(was, name, unsafe);
      r := RewriteName(name, unsafe);
      if r.Err? {
        return;
      }
      var (driver, changed) := r.value;
      var key := Upper(driver);
      if key in driverUpperToUser && driverUpperToUser[key] != name {
        return Err(name);
      }
      driverUpperToUser := driverUpperToUser[key := name];
      userToDriver := userToDriver[name := driver];
      if changed {
        driverToUser := driverToUser[driver := name];
      }
      assert Add(was, name, unsafe) == Ok(Table());
    }

    /** Lists the changed driver names, longest first. */
    method Finalize()
      requires Valid()
      modifies this`sortedDriverNames
      ensures SortedBy(sortedDriverNames, LongestFirst)
      ensures forall d :: d in sortedDriverNames <==> d in driverToUser
    {
      if driverToUser == map[] {
        sortedDriverNames := [];
        return;
      }
      OrdersAreTotal();
      sortedDriverNames := SortKeys(driverToUser.Keys, LongestFirst);
    }
  }
}
