/**
  A process alone with the directory: the steps of one resolver, or of one clear,
  add up to what the code of a single process does.
 */
module WalletSolo {
  import opened Text
  import opened WalletCache
  import opened WalletStore

  /** The steps of process i with these choices. */
  function Steps(i: nat, choices: seq<Choice>): seq<(nat, Choice)> {
    seq(|choices|, k requires 0 <= k < |choices| => (i, choices[k]))
  }

  // ----- A resolver -----

  function Advance(d: Disk, h: Hash, at: Resolving, i: nat, choices: seq<Choice>):
    Option<(Disk, Resolving)>
    decreases |choices|
  {
    if choices == [] then Some((d, at))
    else
      var next := ResolverMove(d, h, at, i, choices[0]);
      if next.Some? then Advance(next.value.0, h, next.value.1, i, choices[1..]) else None
  }

  lemma {:induction false} AdvanceIsPlay(w: World, i: nat, h: Hash, at: Resolving, choices: seq<Choice>)
    requires i < |w.processes| && w.processes[i] == Resolver(h, at)
    requires Advance(w.disk, h, at, i, choices).Some? && Crash !in choices
    ensures var (e, end) := Advance(w.disk, h, at, i, choices).value;
            Play(w, Steps(i, choices)) == Some(World(e, w.processes[i := Resolver(h, end)]))
    decreases |choices|
  {
    hide ResolverMove;
    if choices == [] {
      assert w.processes[i := w.processes[i]] == w.processes;
    } else {
      var (e, next) := ResolverMove(w.disk, h, at, i, choices[0]).value;
      var v := World(e, w.processes[i := Resolver(h, next)]);
      assert choices[0] in choices;
      assert Move(w, i, choices[0]) == Some(v);
      assert Steps(i, choices)[1..] == Steps(i, choices[1..]);
      AdvanceIsPlay(v, i, h, next, choices[1..]);
      assert v.processes[i := Resolver(h, Advance(e, h, next, i, choices[1..]).value.1)] ==
             w.processes[i := Resolver(h, Advance(e, h, next, i, choices[1..]).value.1)];
    }
  }

  /** The outcomes of an extraction that fails in the given place. */
  function ExtractChoices(trouble: Trouble): seq<Choice> {
    match trouble
    case NoTrouble => [Good, Good, Good, Good, Good, Good]
    case NoTempDir => [Bad]
    case BadZip => [Good, Bad, Good]
    case NoMarker => [Good, Good, Bad, Good]
    case CannotClear => [Good, Good, Good, Bad, Good]
    case CannotRename => [Good, Good, Good, Good, Bad, Good]
  }

  lemma AdvanceStep(d: Disk, h: Hash, at: Resolving, i: nat, c: Choice, rest: seq<Choice>)
    requires ResolverMove(d, h, at, i, c).Some?
    ensures var (e, next) := ResolverMove(d, h, at, i, c).value;
            Advance(d, h, at, i, [c] + rest) == Advance(e, h, next, i, rest)
  {
    hide ResolverMove;
    assert ([c] + rest)[1..] == rest;
  }

  /** The good steps up to and including the named place, from a new temporary directory on. */
  lemma GoodSteps(d: Disk, h: Hash, i: nat)
    requires d.nextTemp !in d.temps
    ensures var t := d.nextTemp;
            var d1 := d.(temps := d.temps[t := Dir(None, false)], nextTemp := t + 1, creator := d.creator[t := i]);
            var d2 := d1.(temps := d.temps[t := Dir(None, true)]);
            var d3 := d1.(temps := d.temps[t := Dir(Some(h), true)]);
            var d4 := d3.(finals := d.finals - {h.prefix});
            && ResolverMove(d, h, MakingTemp, i, Good) == Some((d1, Extracting(t)))
            && ResolverMove(d1, h, Extracting(t), i, Good) == Some((d2, Marking(t)))
            && ResolverMove(d2, h, Marking(t), i, Good) == Some((d3, Clearing(t)))
            && ResolverMove(d3, h, Clearing(t), i, Good) == Some((d4, Renaming(t)))
            && ResolverMove(d4, h, Renaming(t), i, Good) ==
               Some((d4.(finals := d.finals[h.prefix := Dir(Some(h), true)], temps := d.temps, ended := d.ended + {t}),
                     Verifying))
  {
    var t := d.nextTemp;
    assert d.temps[t := Dir(None, false)][t := Dir(None, true)] == d.temps[t := Dir(None, true)];
    assert d.temps[t := Dir(None, true)][t := Dir(Some(h), true)] == d.temps[t := Dir(Some(h), true)];
    assert d.temps[t := Dir(Some(h), true)] - {t} == d.temps;
    assert (d.finals - {h.prefix})[h.prefix := Dir(Some(h), true)] == d.finals[h.prefix := Dir(Some(h), true)];
  }

  /** A failure cleans up and gives up. */
  lemma GivesUp(d: Disk, h: Hash, at: Resolving, i: nat, t: nat, temps: map<nat, Dir>)
    requires at in {Extracting(t), Marking(t), Clearing(t), Renaming(t)} && d.temps - {t} == temps
    ensures Advance(d, h, at, i, [Bad, Good]) ==
            Some((d.(temps := temps, ended := d.ended + {t}), Unlocking(false)))
  {
    assert [Bad, Good][1..] == [Good] && [Good][1..] == [];
    assert ResolverMove(d, h, at, i, Bad) == Some((d, CleaningUp(t)));
  }

  lemma Verifies(d: Disk, h: Hash, i: nat)
    requires h.prefix in d.finals && d.finals[h.prefix].complete
    ensures Advance(d, h, Verifying, i, [Good]) == Some((d, Unlocking(true)))
  {
    assert [Good][1..] == [];
  }

  /** What an extraction leaves behind, however it ends. */
  lemma ExtractionEnds(d: Disk, h: Hash, i: nat, trouble: Trouble)
    requires d.nextTemp !in d.temps
    ensures var r := Advance(d, h, MakingTemp, i, ExtractChoices(trouble));
            && r.Some? && r.value.1 == Unlocking(trouble.NoTrouble?)
            && var e := r.value.0;
               e.finals == Extracted(d.finals, h, trouble) && e.temps == d.temps && e.locks == d.locks
  {
    hide ResolverMove, Advance;
    GoodSteps(d, h, i);
    var t := d.nextTemp;
    var d1 := d.(temps := d.temps[t := Dir(None, false)], nextTemp := t + 1, creator := d.creator[t := i]);
    var d2 := d1.(temps := d.temps[t := Dir(None, true)]);
    var d3 := d1.(temps := d.temps[t := Dir(Some(h), true)]);
    var d4 := d3.(finals := d.finals - {h.prefix});
    assert d1.temps - {t} == d.temps && d2.temps - {t} == d.temps && d3.temps - {t} == d.temps;
    if trouble.NoTempDir? {
      NoTempDirEnds(d, h, i);
    } else if trouble.BadZip? {
      AdvanceStep(d, h, MakingTemp, i, Good, [Bad, Good]);
      GivesUp(d1, h, Extracting(t), i, t, d.temps);
      assert [Good] + [Bad, Good] == ExtractChoices(trouble);
    } else if trouble.NoMarker? {
      AdvanceStep(d, h, MakingTemp, i, Good, [Good, Bad, Good]);
      AdvanceStep(d1, h, Extracting(t), i, Good, [Bad, Good]);
      GivesUp(d2, h, Marking(t), i, t, d.temps);
      assert [Good] + [Bad, Good] == [Good, Bad, Good] && [Good] + [Good, Bad, Good] == ExtractChoices(trouble);
    } else {
      LateEnds(d, d1, d2, d3, d4, h, i, trouble);
    }
  }

  lemma NoTempDirEnds(d: Disk, h: Hash, i: nat)
    ensures Advance(d, h, MakingTemp, i, [Bad]) == Some((d, Unlocking(false)))
  {
    assert [Bad][1..] == [];
  }

  lemma LateEnds(d: Disk, d1: Disk, d2: Disk, d3: Disk, d4: Disk, h: Hash, i: nat, trouble: Trouble)
    requires trouble.CannotClear? || trouble.CannotRename? || trouble.NoTrouble?
    requires var t := d.nextTemp;
             && ResolverMove(d, h, MakingTemp, i, Good) == Some((d1, Extracting(t)))
             && ResolverMove(d1, h, Extracting(t), i, Good) == Some((d2, Marking(t)))
             && ResolverMove(d2, h, Marking(t), i, Good) == Some((d3, Clearing(t)))
             && ResolverMove(d3, h, Clearing(t), i, Good) == Some((d4, Renaming(t)))
             && d4 == d3.(finals := d.finals - {h.prefix}) && d3.finals == d.finals && d3.locks == d.locks
             && d3.temps - {t} == d.temps
             && ResolverMove(d4, h, Renaming(t), i, Good) ==
                Some((d4.(finals := d.finals[h.prefix := Dir(Some(h), true)], temps := d.temps, ended := d.ended + {t}),
                      Verifying))
    ensures var r := Advance(d, h, MakingTemp, i, ExtractChoices(trouble));
            && r.Some? && r.value.1 == Unlocking(trouble.NoTrouble?)
            && var e := r.value.0;
               e.finals == Extracted(d.finals, h, trouble) && e.temps == d.temps && e.locks == d.locks
  {
    hide ResolverMove, Advance;
    var t := d.nextTemp;
    var rest := if trouble.CannotClear? then [Bad, Good]
                else if trouble.CannotRename? then [Good, Bad, Good] else [Good, Good, Good];
    assert ExtractChoices(trouble) == [Good] + ([Good] + ([Good] + rest));
    AdvanceStep(d, h, MakingTemp, i, Good, [Good] + ([Good] + rest));
    AdvanceStep(d1, h, Extracting(t), i, Good, [Good] + rest);
    AdvanceStep(d2, h, Marking(t), i, Good, rest);
    if trouble.CannotClear? {
      GivesUp(d3, h, Clearing(t), i, t, d.temps);
    } else if trouble.CannotRename? {
      assert rest == [Good] + [Bad, Good];
      AdvanceStep(d3, h, Clearing(t), i, Good, [Bad, Good]);
      GivesUp(d4, h, Renaming(t), i, t, d.temps);
    } else {
      var d5 := d4.(finals := d.finals[h.prefix := Dir(Some(h), true)], temps := d.temps, ended := d.ended + {t});
      assert rest == [Good] + [Good, Good] && [Good, Good] == [Good] + [Good];
      AdvanceStep(d3, h, Clearing(t), i, Good, [Good, Good]);
      AdvanceStep(d4, h, Renaming(t), i, Good, [Good]);
      Verifies(d5, h, i);
    }
  }

  lemma {:induction false} AdvanceAppend(d: Disk, h: Hash, at: Resolving, i: nat,
                                           a: seq<Choice>, b: seq<Choice>)
    requires Advance(d, h, at, i, a).Some?
    ensures var (e, next) := Advance(d, h, at, i, a).value;
            Advance(d, h, at, i, a + b) == Advance(e, h, next, i, b)
    decreases |a|
  {
    hide ResolverMove;
    if a == [] {
      assert a + b == b;
    } else {
      assert (a + b)[0] == a[0] && (a + b)[1..] == a[1..] + b;
      var (e, next) := ResolverMove(d, h, at, i, a[0]).value;
      AdvanceAppend(e, h, next, i, a[1..], b);
    }
  }

  function ResolveChoices(hit: bool, outdated: bool, trouble: Trouble): seq<Choice> {
    [Good, if outdated then Bad else Good] + ((if hit then [] else ExtractChoices(trouble)) + [Good])
  }

  lemma AdvanceEnds(d: Disk, h: Hash, i: nat, outdated: bool, trouble: Trouble)
    requires h.prefix !in d.locks && d.nextTemp !in d.temps
    ensures var hit := IsHit(d.finals, h, outdated);
            var r := Advance(d, h, Locking, i, ResolveChoices(hit, outdated, trouble));
            && r.Some? && r.value.1 == Resolved(hit || trouble.NoTrouble?)
            && var e := r.value.0;
               && e.locks == d.locks && e.temps == d.temps
               && e.finals == if hit then d.finals else Extracted(d.finals, h, trouble)
  {
    hide Advance, ExtractChoices;
    var hit := IsHit(d.finals, h, outdated);
    var middle := if hit then [] else ExtractChoices(trouble);
    var c := if outdated then Bad else Good;
    var locked := Lock(d, h.prefix, i);
    assert ResolveChoices(hit, outdated, trouble) == [Good] + ([c] + (middle + [Good]));
    AdvanceStep(d, h, Locking, i, Good, [c] + (middle + [Good]));
    AdvanceStep(locked, h, Checking, i, c, middle + [Good]);
    assert locked.locks - {h.prefix} == d.locks;
    if hit {
      assert middle + [Good] == [Good];
      Unlocks(locked, h, i, true);
    } else {
      ExtractionEnds(locked, h, i, trouble);
      AdvanceAppend(locked, h, MakingTemp, i, middle, [Good]);
      Unlocks(Advance(locked, h, MakingTemp, i, middle).value.0, h, i, trouble.NoTrouble?);
    }
  }

  lemma Unlocks(d: Disk, h: Hash, i: nat, ok: bool)
    ensures Advance(d, h, Unlocking(ok), i, [Good]) == Some((Unlock(d, h.prefix), Resolved(ok)))
  {
    assert [Good][1..] == [];
  }

  /**
    A resolver that is alone does what `Store.Resolve` does: it hits a valid
    directory that is not outdated, extracts otherwise, and on every path gives
    its lock back and leaves no temporary directory.
   */
  lemma SoloResolve(w: World, i: nat, h: Hash, outdated: bool, trouble: Trouble)
    requires i < |w.processes| && w.processes[i] == Resolver(h, Locking)
    requires h.prefix !in w.disk.locks && w.disk.nextTemp !in w.disk.temps
    ensures var d := w.disk; var hit := IsHit(d.finals, h, outdated);
            var end := Play(w, Steps(i, ResolveChoices(hit, outdated, trouble)));
            && end.Some? && |end.value.processes| == |w.processes|
            && end.value.processes[i] == Resolver(h, Resolved(hit || trouble.NoTrouble?))
            && var e := end.value.disk;
               && e.locks == d.locks && e.temps == d.temps
               && e.finals == if hit then d.finals else Extracted(d.finals, h, trouble)
  {
    hide Play, Advance, Steps, Extracted;
    var hit := IsHit(w.disk.finals, h, outdated);
    AdvanceEnds(w.disk, h, i, outdated, trouble);
    NoCrash(hit, outdated, trouble);
    AdvanceIsPlay(w, i, h, Locking, ResolveChoices(hit, outdated, trouble));
  }

  lemma NoCrash(hit: bool, outdated: bool, trouble: Trouble)
    ensures Crash !in ResolveChoices(hit, outdated, trouble)
  {
  }

  // ----- A clear -----

  /** The clear so far: what is gone are directories already visited whose lock was free. */
  ghost predicate Cleared(d: Disk, e: Disk, at: Sweeping, i: nat) {
    match at
    case Reading => e == d
    case Visiting(rest) =>
      && e.locks == d.locks && rest.finals <= d.finals.Keys && (rest.locked <==> d.locks != map[])
      && rest.temps <= d.temps.Keys
      && e.finals == (map p | p in d.finals && (p in rest.finals || p in d.locks) :: d.finals[p])
      && e.temps == (map t | t in d.temps && (rest.locked || t in rest.temps) :: d.temps[t])
    case Removing(p, rest) =>
      && p !in d.locks && e.locks == d.locks[p := i] && (rest.locked <==> d.locks != map[])
      && rest.finals <= d.finals.Keys && p !in rest.finals && rest.temps <= d.temps.Keys
      && e.finals == (map q | q in d.finals && (q == p || q in rest.finals || q in d.locks) :: d.finals[q])
      && e.temps == (map t | t in d.temps && (rest.locked || t in rest.temps) :: d.temps[t])
    case Freeing(p, rest) =>
      && p !in d.locks && e.locks == d.locks[p := i] && (rest.locked <==> d.locks != map[])
      && rest.finals <= d.finals.Keys && p !in rest.finals && rest.temps <= d.temps.Keys
      && e.finals == (map q | q in d.finals && (q in rest.finals || q in d.locks) :: d.finals[q])
      && e.temps == (map t | t in d.temps && (rest.locked || t in rest.temps) :: d.temps[t])
    case Swept =>
      && e.locks == d.locks && e.finals == Uncleared(d.finals, d.locks.Keys)
      && e.temps == if d.locks == map[] then map[] else d.temps
  }

  lemma ClearerReads(d: Disk, i: nat, c: Choice)
    ensures var (e, next) := ClearerMove(d, Reading, i, c).value; Cleared(d, e, next, i)
  {
    var rest := Listing(d.finals.Keys, d.temps.Keys, d.locks != map[]);
    assert (map p | p in d.finals && (p in rest.finals || p in d.locks) :: d.finals[p]) == d.finals;
    assert (map t | t in d.temps && (rest.locked || t in rest.temps) :: d.temps[t]) == d.temps;
  }

  lemma ClearerVisits(d: Disk, e: Disk, rest: Listing, i: nat, c: Choice)
    requires Cleared(d, e, Visiting(rest), i) && ClearerMove(e, Visiting(rest), i, c).Some?
    ensures var (f, next) := ClearerMove(e, Visiting(rest), i, c).value; Cleared(d, f, next, i)
  {
  }

  lemma ClearerWorks(d: Disk, e: Disk, at: Sweeping, i: nat)
    requires Cleared(d, e, at, i) && (at.Removing? || at.Freeing?)
    ensures var (f, next) := ClearerMove(e, at, i, Good).value; Cleared(d, f, next, i)
  {
    assert d.locks[at.p := i] - {at.p} == d.locks;
  }

  /** Every step is one of process i and succeeds. */
  predicate Succeeds(w: World, i: nat, run: seq<(nat, Choice)>)
    decreases |run|
  {
    run != [] ==>
      && run[0].0 == i && i < |w.processes|
      && (run[0].1.Good? ||
          (w.processes[i].Clearer? && w.processes[i].at'.Visiting? && (run[0].1.VisitTemp? || run[0].1.VisitFinal?)))
      && (Move(w, i, run[0].1).Some? ==> Succeeds(Move(w, i, run[0].1).value, i, run[1..]))
  }

  lemma ClearStep(d: Disk, w: World, i: nat, c: Choice)
    requires i < |w.processes| && w.processes[i].Clearer? && Cleared(d, w.disk, w.processes[i].at', i)
    requires Move(w, i, c).Some? && (c.Good? || (w.processes[i].at'.Visiting? && (c.VisitTemp? || c.VisitFinal?)))
    ensures var v := Move(w, i, c).value;
            && |v.processes| == |w.processes| && v.processes[i].Clearer?
            && Cleared(d, v.disk, v.processes[i].at', i)
  {
    hide Cleared, ClearerMove;
    var at := w.processes[i].at';
    if at.Reading? {
      StillThere(d, w.disk, i);
      ClearerReads(d, i, c);
    } else if at.Visiting? {
      ClearerVisits(d, w.disk, at.rest, i, c);
    } else {
      NotSwept(w.disk, at, i, c);
      ClearerWorks(d, w.disk, at, i);
    }
  }

  lemma StillThere(d: Disk, e: Disk, i: nat)
    requires Cleared(d, e, Reading, i)
    ensures e == d
  {
  }

  lemma NotSwept(d: Disk, at: Sweeping, i: nat, c: Choice)
    requires ClearerMove(d, at, i, c).Some?
    ensures !at.Swept?
  {
  }

  lemma {:induction false} ClearRuns(d: Disk, w: World, i: nat, run: seq<(nat, Choice)>)
    requires i < |w.processes| && w.processes[i].Clearer? && Cleared(d, w.disk, w.processes[i].at', i)
    requires Play(w, run).Some? && Succeeds(w, i, run)
    ensures var v := Play(w, run).value;
            && |v.processes| == |w.processes| && v.processes[i].Clearer?
            && Cleared(d, v.disk, v.processes[i].at', i)
    decreases |run|
  {
    hide Cleared, Move;
    if run != [] {
      ClearStep(d, w, i, run[0].1);
      ClearRuns(d, Move(w, i, run[0].1).value, i, run[1..]);
    }
  }

  /**
    A clear that is alone and whose operations succeed does what `Store.Clear`
    does, in whatever order it visits the entries.
   */
  lemma SoloClear(w: World, i: nat, run: seq<(nat, Choice)>)
    requires i < |w.processes| && w.processes[i] == Clearer(Reading)
    requires Play(w, run).Some? && Succeeds(w, i, run)
    ensures var v := Play(w, run).value;
            |v.processes| == |w.processes| &&
            (v.processes[i] == Clearer(Swept) ==>
               && v.disk.locks == w.disk.locks
               && v.disk.finals == Uncleared(w.disk.finals, w.disk.locks.Keys)
               && v.disk.temps == if w.disk.locks == map[] then map[] else w.disk.temps)
  {
    hide Play, Succeeds;
    ClearRuns(w.disk, w, i, run);
  }
}
