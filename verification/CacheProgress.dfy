/** Every run of the wallet cache ends, and without crashes nobody waits for ever. */
module CacheProgress {
  import opened Text
  import opened WalletCache
  import opened Sums

  /** How many directories the resolver may still add. */
  function Additions(p: Process): nat {
    match p
    case Resolver(_, at) =>
      if at.Locking? || at.Checking? || at.MakingTemp? then 2
      else if at.Extracting? || at.Marking? || at.Clearing? || at.Renaming? then 1
      else 0
    case _ => 0
  }

  function AllAdditions(processes: seq<Process>): seq<nat> {
    seq(|processes|, i requires 0 <= i < |processes| => Additions(processes[i]))
  }

  /** No listing taken from now on is longer than this. */
  function Directories(w: World): nat {
    |w.disk.finals.Keys| + |w.disk.temps.Keys| + Sum(AllAdditions(w.processes))
  }

  function ListingRank(rest: Listing): nat {
    3 * |rest.finals| + |rest.temps|
  }

  function ProcessRank(p: Process, directories: nat): nat {
    match p
    case Resolver(_, at) =>
      (match at
       case Locking => 11
       case Checking => 10
       case MakingTemp => 9
       case Extracting(_) => 8
       case Marking(_) => 7
       case Clearing(_) => 6
       case Renaming(_) => 5
       case Verifying => 3
       case CleaningUp(_) => 3
       case Unlocking(_) => 2
       case Resolved(_) => 1)
    case Clearer(at) =>
      (match at
       case Reading => 3 * directories + 3
       case Visiting(rest) => ListingRank(rest) + 2
       case Removing(_, rest) => ListingRank(rest) + 4
       case Freeing(_, rest) => ListingRank(rest) + 3
       case Swept => 1)
    case Crashed(_, _) => 0
  }

  function Ranks(processes: seq<Process>, directories: nat): seq<nat> {
    seq(|processes|, i requires 0 <= i < |processes| => ProcessRank(processes[i], directories))
  }

  function Rank(w: World): nat {
    Sum(Ranks(w.processes, Directories(w)))
  }

  lemma {:induction false} SubsetSize(a: set<nat>, b: set<nat>)
    requires a <= b
    ensures |a| <= |b|
  {
    if a != {} {
      var k :| k in a;
      SubsetSize(a - {k}, b - {k});
    }
  }

  lemma KeysShrink(m: map<nat, Dir>, k: nat)
    requires k in m
    ensures |(m - {k}).Keys| == |m.Keys| - 1
  {
    assert (m - {k}).Keys == m.Keys - {k};
  }

  lemma KeysGrow(m: map<nat, Dir>, k: nat, x: Dir)
    ensures |m[k := x].Keys| <= |m.Keys| + 1
  {
    assert m[k := x].Keys == m.Keys + {k};
  }

  lemma ResolverFinals(d: Disk, h: Hash, at: Resolving, i: nat, c: Choice)
    requires ResolverMove(d, h, at, i, c).Some?
    ensures var (e, next) := ResolverMove(d, h, at, i, c).value;
            if next.Verifying?
            then at.Renaming? && at.tmp in d.temps && e.finals == d.finals[h.prefix := d.temps[at.tmp]]
            else e.finals.Keys <= d.finals.Keys
  {
  }

  /** A resolver adds a final directory when it renames, and only then. */
  lemma FinalsOf(d: Disk, h: Hash, at: Resolving, i: nat, c: Choice)
    requires ResolverMove(d, h, at, i, c).Some?
    ensures var (e, next) := ResolverMove(d, h, at, i, c).value;
            |e.finals.Keys| <= |d.finals.Keys| + if next.Verifying? then 1 else 0
  {
    hide ResolverMove;
    var (e, next) := ResolverMove(d, h, at, i, c).value;
    ResolverFinals(d, h, at, i, c);
    if next.Verifying? {
      KeysGrow(d.finals, h.prefix, d.temps[at.tmp]);
    } else {
      SubsetSize(e.finals.Keys, d.finals.Keys);
    }
  }

  lemma ResolverTemps(d: Disk, h: Hash, at: Resolving, i: nat, c: Choice)
    requires ResolverMove(d, h, at, i, c).Some?
    ensures var (e, next) := ResolverMove(d, h, at, i, c).value;
            if next.Extracting? then e.temps == d.temps[d.nextTemp := Dir(None, false)]
            else if next.Verifying? then at.Renaming? && at.tmp in d.temps && e.temps == d.temps - {at.tmp}
            else e.temps.Keys <= d.temps.Keys
  {
  }

  /** It makes one temporary directory, and gives it up when it renames. */
  lemma TempsOf(d: Disk, h: Hash, at: Resolving, i: nat, c: Choice)
    requires ResolverMove(d, h, at, i, c).Some?
    ensures var (e, next) := ResolverMove(d, h, at, i, c).value;
            |e.temps.Keys| <= |d.temps.Keys| + (if next.Extracting? then 1 else if next.Verifying? then -1 else 0)
  {
    hide ResolverMove;
    var (e, next) := ResolverMove(d, h, at, i, c).value;
    ResolverTemps(d, h, at, i, c);
    if next.Extracting? {
      KeysGrow(d.temps, d.nextTemp, Dir(None, false));
    } else if next.Verifying? {
      KeysShrink(d.temps, at.tmp);
    } else {
      SubsetSize(e.temps.Keys, d.temps.Keys);
    }
  }

  lemma AdditionsDescend(d: Disk, h: Hash, at: Resolving, i: nat, c: Choice)
    requires ResolverMove(d, h, at, i, c).Some?
    ensures var next := ResolverMove(d, h, at, i, c).value.1;
            Additions(Resolver(h, next)) + (if next.Extracting? then 1 else 0) <= Additions(Resolver(h, at))
    ensures ResolverMove(d, h, at, i, c).value.1.Verifying? ==> Additions(Resolver(h, at)) == 1
  {
  }

  lemma ResolverDirectories(d: Disk, h: Hash, at: Resolving, i: nat, c: Choice)
    requires ResolverMove(d, h, at, i, c).Some?
    ensures var (e, next) := ResolverMove(d, h, at, i, c).value;
            |e.finals.Keys| + |e.temps.Keys| + Additions(Resolver(h, next)) <=
            |d.finals.Keys| + |d.temps.Keys| + Additions(Resolver(h, at))
  {
    hide ResolverMove, Additions;
    FinalsOf(d, h, at, i, c);
    TempsOf(d, h, at, i, c);
    AdditionsDescend(d, h, at, i, c);
  }

  lemma ClearerKeys(d: Disk, at: Sweeping, i: nat, c: Choice)
    requires ClearerMove(d, at, i, c).Some?
    ensures var e := ClearerMove(d, at, i, c).value.0;
            e.finals.Keys <= d.finals.Keys && e.temps.Keys <= d.temps.Keys
  {
  }

  lemma ClearerDirectories(d: Disk, at: Sweeping, i: nat, c: Choice)
    requires ClearerMove(d, at, i, c).Some?
    ensures var e := ClearerMove(d, at, i, c).value.0;
            |e.finals.Keys| + |e.temps.Keys| <= |d.finals.Keys| + |d.temps.Keys|
  {
    hide ClearerMove;
    ClearerKeys(d, at, i, c);
    var e := ClearerMove(d, at, i, c).value.0;
    SubsetSize(e.finals.Keys, d.finals.Keys);
    SubsetSize(e.temps.Keys, d.temps.Keys);
  }

  lemma StepDirectories(w: World, i: nat, c: Choice)
    requires Move(w, i, c).Some?
    ensures Directories(Move(w, i, c).value) <= Directories(w)
  {
    hide ResolverMove, ClearerMove, Sum, Additions;
    var v := Move(w, i, c).value;
    var p, q := w.processes[i], v.processes[i];
    assert AllAdditions(v.processes) == AllAdditions(w.processes)[i := Additions(q)];
    SumUpdate(AllAdditions(w.processes), i, Additions(q));
    AdditionsOf(p);
    if c.Crash? {
      AdditionsOf(q);
    } else if p.Resolver? {
      ResolverDirectories(w.disk, p.hash, p.at, i, c);
    } else {
      ClearerDirectories(w.disk, p.at', i, c);
      AdditionsOf(q);
    }
  }

  lemma AdditionsOf(p: Process)
    ensures !p.Resolver? ==> Additions(p) == 0
  {
  }

  lemma ResolverDescends(d: Disk, h: Hash, at: Resolving, i: nat, c: Choice, n: nat)
    requires ResolverMove(d, h, at, i, c).Some?
    ensures ProcessRank(Resolver(h, ResolverMove(d, h, at, i, c).value.1), n) < ProcessRank(Resolver(h, at), n)
  {
  }

  lemma ClearerDescends(d: Disk, at: Sweeping, i: nat, c: Choice, n: nat)
    requires ClearerMove(d, at, i, c).Some? && |d.finals.Keys| + |d.temps.Keys| <= n
    ensures ProcessRank(Clearer(ClearerMove(d, at, i, c).value.1), n) < ProcessRank(Clearer(at), n)
  {
    if at.Visiting? {
      VisitShrinks(at.rest, c);
    }
  }

  lemma VisitShrinks(rest: Listing, c: Choice)
    ensures c.VisitTemp? && c.t in rest.temps ==> |rest.temps - {c.t}| == |rest.temps| - 1
    ensures c.VisitFinal? && c.p in rest.finals ==> |rest.finals - {c.p}| == |rest.finals| - 1
  {
  }

  lemma ProcessDescends(w: World, i: nat, c: Choice)
    requires Move(w, i, c).Some?
    ensures i < |w.processes|
    ensures ProcessRank(Move(w, i, c).value.processes[i], Directories(w)) < ProcessRank(w.processes[i], Directories(w))
  {
    hide ResolverMove, ClearerMove, ProcessRank;
    var p, n := w.processes[i], Directories(w);
    if c.Crash? {
      CrashedRank(p, n);
    } else if p.Resolver? {
      ResolverDescends(w.disk, p.hash, p.at, i, c, n);
    } else {
      ClearerDescends(w.disk, p.at', i, c, n);
    }
  }

  lemma CrashedRank(p: Process, n: nat)
    ensures forall lock, tmp :: ProcessRank(Crashed(lock, tmp), n) == 0
    ensures !p.Crashed? ==> ProcessRank(p, n) > 0
  {
  }

  lemma RankGrows(p: Process, n: nat, k: nat)
    requires n <= k
    ensures ProcessRank(p, n) <= ProcessRank(p, k)
  {
  }

  lemma StepDescends(w: World, i: nat, c: Choice)
    requires Move(w, i, c).Some?
    ensures Rank(Move(w, i, c).value) < Rank(w)
  {
    hide ProcessMove, ProcessRank, Sum, Directories;
    var v := Move(w, i, c).value;
    var n, k := Directories(v), Directories(w);
    StepDirectories(w, i, c);
    ProcessDescends(w, i, c);
    var mine := ProcessRank(v.processes[i], k);
    assert Ranks(v.processes, k) == Ranks(w.processes, k)[i := mine];
    SumUpdate(Ranks(w.processes, k), i, mine);
    forall j | 0 <= j < |v.processes| ensures Ranks(v.processes, n)[j] <= Ranks(v.processes, k)[j] {
      RankGrows(v.processes[j], n, k);
    }
    SumGrows(Ranks(v.processes, n), Ranks(v.processes, k));
  }

  lemma {:induction false} RunsEnd(w: World, run: seq<(nat, Choice)>)
    requires Play(w, run).Some?
    ensures |run| + Rank(Play(w, run).value) <= Rank(w)
    decreases |run|
  {
    hide Move, Rank;
    if run != [] {
      StepDescends(w, run[0].0, run[0].1);
      RunsEnd(Move(w, run[0].0, run[0].1).value, run[1..]);
    }
  }

  // ----- Nobody waits for ever -----

  predicate Through(p: Process) {
    (p.Resolver? && p.at.Resolved?) || (p.Clearer? && p.at'.Swept?)
  }

  /** Nobody can take a step, crashes aside. */
  ghost predicate Stopped(w: World) {
    forall i, c :: Move(w, i, c).Some? ==> c.Crash?
  }

  /** A process that is at work, and not waiting for a lock, can take a step. */
  lemma WorkerMoves(w: World, i: nat)
    requires i < |w.processes| && !Through(w.processes[i]) && !w.processes[i].Crashed?
    requires w.processes[i].Resolver? && w.processes[i].at.Locking? ==> w.processes[i].hash.prefix !in w.disk.locks
    ensures exists c: Choice :: !c.Crash? && Move(w, i, c).Some?
  {
    var p := w.processes[i];
    if p.Clearer? && p.at'.Visiting? && p.at'.rest.finals != {} {
      var x :| x in p.at'.rest.finals;
      assert Move(w, i, VisitFinal(x)).Some?;
    } else if p.Clearer? && p.at'.Visiting? && p.at'.rest.temps != {} {
      var t :| t in p.at'.rest.temps;
      assert Move(w, i, VisitTemp(t)).Some?;
    } else {
      assert Move(w, i, Good).Some?;
    }
  }

  lemma HolderIsWorking(p: Process)
    requires Holding(p).Some? && !p.Crashed?
    ensures !Through(p) && !(p.Resolver? && p.at.Locking?)
  {
  }

  lemma SomebodyMoves(w: World, i: nat)
    requires Inv(w) && i < |w.processes| && !Through(w.processes[i])
    requires forall j :: 0 <= j < |w.processes| ==> !w.processes[j].Crashed?
    ensures exists j, c: Choice :: !c.Crash? && Move(w, j, c).Some?
  {
    hide Move, Through, Holding, LiveTemp, ResolverOk, ListingOk;
    var p := w.processes[i];
    if p.Resolver? && p.at.Locking? && p.hash.prefix in w.disk.locks {
      var j := w.disk.locks[p.hash.prefix];
      assert Owns(w.disk, w.processes[j], j);
      HolderIsWorking(w.processes[j]);
      WorkerMoves(w, j);
    } else {
      WorkerMoves(w, i);
    }
  }

  /**
    Every run is shorter than the rank of its start. When nobody has crashed and
    nobody can take a step, every resolve has an answer and every clear is done.
   */
  lemma EveryCacheRunEnds(start: World, run: seq<(nat, Choice)>)
    requires FreshWorld(start) && Play(start, run).Some?
    ensures |run| <= Rank(start)
    ensures var w := Play(start, run).value;
            Stopped(w) && (forall j :: 0 <= j < |w.processes| ==> !w.processes[j].Crashed?) ==>
              forall i :: 0 <= i < |w.processes| ==> Through(w.processes[i])
  {
    hide Play, Move, Rank, Through, Inv, FreshWorld;
    FreshIsOk(start);
    PlayKeeps(start, run);
    RunsEnd(start, run);
    var w := Play(start, run).value;
    if Stopped(w) && forall j :: 0 <= j < |w.processes| ==> !w.processes[j].Crashed? {
      forall i | 0 <= i < |w.processes| ensures Through(w.processes[i]) {
        if !Through(w.processes[i]) {
          SomebodyMoves(w, i);
        }
      }
    }
  }
}
