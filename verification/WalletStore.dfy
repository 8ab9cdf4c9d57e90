/** The wallet directory as one process sees it when nobody else is at work. */
module WalletStore {
  import opened Text
  import opened WalletCache

  /** Where an extraction fails, if it does. */
  datatype Trouble = NoTrouble | NoTempDir | BadZip | NoMarker | CannotClear | CannotRename

  /** The directory of the wallet is there, under its own marker, and not outdated. */
  predicate IsHit(finals: map<nat, Dir>, h: Hash, outdated: bool) {
    !outdated && h.prefix in finals && finals[h.prefix] == Dir(Some(h), true)
  }

  /** The final directories after an extraction: a failed rename has already cleared the old one. */
  function Extracted(finals: map<nat, Dir>, h: Hash, trouble: Trouble): map<nat, Dir> {
    if trouble.NoTrouble? then finals[h.prefix := Dir(Some(h), true)]
    else if trouble.CannotRename? then finals - {h.prefix}
    else finals
  }

  /** The final directories behind a clear: those whose lock was held. */
  function Uncleared(finals: map<nat, Dir>, locks: set<nat>): map<nat, Dir> {
    map p | p in finals && p in locks :: finals[p]
  }

  /** The stages of a temporary directory, and what is left when it goes. */
  lemma TempComesAndGoes(temps: map<nat, Dir>, finals: map<nat, Dir>, t: nat, h: Hash)
    requires t !in temps
    ensures var a, b, c := Dir(None, false), Dir(None, true), Dir(Some(h), true);
            && temps[t := a][t := b] == temps[t := b] && temps[t := b][t := c] == temps[t := c]
            && temps[t := a] - {t} == temps == temps[t := b] - {t} && temps[t := c] - {t} == temps
            && (finals - {h.prefix})[h.prefix := c] == finals[h.prefix := c]
  {
  }

  class Store {
    var locks: set<nat>
    var finals: map<nat, Dir>
    var temps: map<nat, Dir>
    var nextTemp: nat

    /** Names of new temporary directories are not in use. */
    predicate Valid()
      reads this
    {
      forall t :: t in temps ==> t < nextTemp
    }

    constructor ()
      ensures Valid() && locks == {} && finals == map[] && temps == map[]
    {
      locks, finals, temps, nextTemp := {}, map[], map[], 0;
    }

    method TryAcquire(prefix: nat) returns (ok: bool)
      modifies this`locks
      ensures ok <==> prefix !in old(locks)
      ensures locks == old(locks) + {prefix}
    {
      ok := prefix !in locks;
      locks := locks + {prefix};
    }

    method Release(prefix: nat)
      requires prefix in locks
      modifies this`locks
      ensures locks == old(locks) - {prefix}
    {
      locks := locks - {prefix};
    }

    /**
      Extracts beside the final directory and renames into place. A failure
      leaves no temporary directory, and no final one that was not there before.
     */
    method Extract(h: Hash, trouble: Trouble) returns (ok: bool)
      requires Valid() && h.prefix in locks
      modifies this`finals, this`temps, this`nextTemp
      ensures Valid() && temps == old(temps)
      ensures ok <==> trouble.NoTrouble?
      ensures finals == Extracted(old(finals), h, trouble)
    {
      if trouble.NoTempDir? {
        return false;
      }
      var tmp := nextTemp;
      TempComesAndGoes(temps, finals, tmp, h);
      nextTemp := nextTemp + 1;
      temps := temps[tmp := Dir(None, false)];
      if !trouble.BadZip? {
        temps := temps[tmp := Dir(None, true)];
        if !trouble.NoMarker? {
          temps := temps[tmp := Dir(Some(h), true)];
          if !trouble.CannotClear? {
            finals := finals - {h.prefix};
            if !trouble.CannotRename? {
              finals := finals[h.prefix := temps[tmp]];
              temps := temps - {tmp};
              return true;
            }
          }
        }
      }
      temps := temps - {tmp};
      return false;
    }

    /** Finds or makes the directory of a wallet; the lock is given back on every exit. */
    method Resolve(h: Hash, outdated: bool, trouble: Trouble) returns (ok: bool, hit: bool)
      requires Valid() && h.prefix !in locks
      modifies this
      ensures Valid() && locks == old(locks) && temps == old(temps)
      ensures hit <==> IsHit(old(finals), h, outdated)
      ensures hit ==> ok && finals == old(finals)
      ensures ok <==> hit || trouble.NoTrouble?
      ensures ok ==> h.prefix in finals && finals[h.prefix] == Dir(Some(h), true)
      ensures !hit ==> finals == Extracted(old(finals), h, trouble)
    {
      var acquired := TryAcquire(h.prefix);
      hit := !outdated && h.prefix in finals && finals[h.prefix] == Dir(Some(h), true);
      if hit {
        ok := true;
      } else {
        ok := Extract(h, trouble);
      }
      Release(h.prefix);
    }

    /**
      Empties the cache: every final directory whose lock is free goes, and all
      temporary directories go when no lock is held at all. Locks stay as they are.
     */
    method Clear()
      requires Valid()
      modifies this
      ensures Valid() && locks == old(locks)
      ensures finals == Uncleared(old(finals), old(locks))
      ensures temps == if old(locks) == {} then map[] else old(temps)
    {
      var names, activeLocks := finals.Keys, locks != {};
      ghost var first := finals;
      while names != {}
        invariant Valid() && locks == old(locks) && temps == old(temps)
        invariant names <= finals.Keys
        invariant finals == map p | p in first && (p in names || p in locks) :: first[p]
        decreases names
      {
        var name :| name in names;
        names := names - {name};
        var acquired := TryAcquire(name);
        if acquired {
          finals := finals - {name};
          Release(name);
          assert locks == old(locks);
        }
      }
      ghost var kept := finals;
      var left := if activeLocks then {} else temps.Keys;
      while left != {}
        invariant finals == kept
        invariant Valid() && left <= temps.Keys && locks == old(locks)
        invariant if activeLocks then temps == old(temps) else temps.Keys == left
        decreases left
      {
        var tmp :| tmp in left;
        left := left - {tmp};
        temps := temps - {tmp};
      }
    }
  }
}
