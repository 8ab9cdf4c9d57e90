/**
  The cache of extracted wallets, shared by processes through one directory:
  lock directories, temporary directories that are renamed into place, and a
  clear that runs beside everything else. A step is one operation on the
  directory; each is atomic, and locks are never taken over.
 */
module WalletCache {
  import opened Text

  /** A wallet's content hash; its directory and its lock are named after the prefix alone. */
  datatype Hash = Hash(prefix: nat, rest: nat)

  datatype Dir = Dir(marker: Option<Hash>, complete: bool)

  /** `creator` and `ended` are histories: who made a temporary directory, and which extractions are over. */
  datatype Disk = Disk(
    locks: map<nat, nat>,
    finals: map<nat, Dir>,
    temps: map<nat, Dir>,
    nextTemp: nat,
    creator: map<nat, nat>,
    ended: set<nat>)

  datatype Resolving =
    | Locking | Checking | MakingTemp | Extracting(tmp: nat) | Marking(tmp: nat) | Clearing(tmp: nat)
    | Renaming(tmp: nat) | Verifying | CleaningUp(tmp: nat) | Unlocking(ok: bool) | Resolved(ok: bool)

  /** What a clear still has to visit of the listing it took, and whether that held a lock. */
  datatype Listing = Listing(finals: set<nat>, temps: set<nat>, locked: bool)

  datatype Sweeping =
    | Reading | Visiting(rest: Listing) | Removing(p: nat, rest: Listing) | Freeing(p: nat, rest: Listing) | Swept

  datatype Process =
    | Resolver(hash: Hash, at: Resolving) | Clearer(at': Sweeping) | Crashed(lock: Option<nat>, tmp: Option<nat>)

  /** Good and Bad are the outcomes of an operation; Visit picks the next entry of a listing. */
  datatype Choice = Good | Bad | VisitFinal(p: nat) | VisitTemp(t: nat) | Crash

  datatype World = World(disk: Disk, processes: seq<Process>)

  function Holding(p: Process): Option<nat> {
    match p
    case Resolver(h, at) => if at.Locking? || at.Resolved? then None else Some(h.prefix)
    case Clearer(at) => if at.Removing? || at.Freeing? then Some(at.p) else None
    case Crashed(lock, _) => lock
  }

  /** The temporary directory of an extraction that is still going on. */
  function LiveTemp(p: Process): Option<nat> {
    match p
    case Resolver(_, at) =>
      if at.Extracting? || at.Marking? || at.Clearing? || at.Renaming? || at.CleaningUp? then Some(at.tmp) else None
    case Clearer(_) => None
    case Crashed(_, tmp) => tmp
  }

  function Lock(d: Disk, prefix: nat, i: nat): Disk {
    d.(locks := d.locks[prefix := i])
  }

  function Unlock(d: Disk, prefix: nat): Disk {
    d.(locks := d.locks - {prefix})
  }

  /** One step of a resolver. Operations on a temporary directory that is gone fail. */
  function ResolverMove(d: Disk, h: Hash, at: Resolving, i: nat, c: Choice): Option<(Disk, Resolving)> {
    var good := c.Good?;
    match at
    case Locking =>
      if h.prefix in d.locks then None else Some((Lock(d, h.prefix, i), Checking))
    case Checking =>
      var hit := good && h.prefix in d.finals && d.finals[h.prefix] == Dir(Some(h), true);
      Some((d, if hit then Unlocking(true) else MakingTemp))
    case MakingTemp =>
      var t := d.nextTemp;
      if good then
        Some((d.(temps := d.temps[t := Dir(None, false)], nextTemp := t + 1, creator := d.creator[t := i]),
              Extracting(t)))
      else Some((d, Unlocking(false)))
    case Extracting(t) =>
      if good && t in d.temps then Some((d.(temps := d.temps[t := Dir(None, true)]), Marking(t)))
      else Some((d, CleaningUp(t)))
    case Marking(t) =>
      if good && t in d.temps then Some((d.(temps := d.temps[t := d.temps[t].(marker := Some(h))]), Clearing(t)))
      else Some((d, CleaningUp(t)))
    case Clearing(t) =>
      if good then Some((d.(finals := d.finals - {h.prefix}), Renaming(t))) else Some((d, CleaningUp(t)))
    case Renaming(t) =>
      if good && t in d.temps then
        Some((d.(finals := d.finals[h.prefix := d.temps[t]], temps := d.temps - {t}, ended := d.ended + {t}),
              Verifying))
      else Some((d, CleaningUp(t)))
    case Verifying =>
      Some((d, Unlocking(h.prefix in d.finals && d.finals[h.prefix].complete)))
    case CleaningUp(t) =>
      Some((d.(temps := if good then d.temps - {t} else d.temps, ended := d.ended + {t}), Unlocking(false)))
    case Unlocking(ok) => Some((Unlock(d, h.prefix), Resolved(ok)))
    case Resolved(_) => None
  }

  /** One step of a clear. */
  function ClearerMove(d: Disk, at: Sweeping, i: nat, c: Choice): Option<(Disk, Sweeping)> {
    match at
    case Reading => Some((d, Visiting(Listing(d.finals.Keys, d.temps.Keys, d.locks != map[]))))
    case Visiting(rest) =>
      (match c
       case VisitTemp(t) =>
         if t !in rest.temps then None
         else
           var next := Visiting(rest.(temps := rest.temps - {t}));
           Some((if rest.locked then d else d.(temps := d.temps - {t}), next))
       case VisitFinal(p) =>
         if p !in rest.finals then None
         else
           var left := rest.(finals := rest.finals - {p});
           if p in d.locks then Some((d, Visiting(left))) else Some((Lock(d, p, i), Removing(p, left)))
       case _ => if rest.finals == {} && rest.temps == {} then Some((d, Swept)) else None)
    case Removing(p, rest) => Some((if c.Good? then d.(finals := d.finals - {p}) else d, Freeing(p, rest)))
    case Freeing(p, rest) => Some((Unlock(d, p), if c.Good? then Visiting(rest) else Swept))
    case Swept => None
  }

  function ProcessMove(d: Disk, p: Process, i: nat, c: Choice): Option<(Disk, Process)> {
    if c.Crash? then (if p.Crashed? then None else Some((d, Crashed(Holding(p), LiveTemp(p)))))
    else match p {
      case Resolver(h, at) =>
        (match ResolverMove(d, h, at, i, c)
         case None => None
         case Some((e, next)) => Some((e, Resolver(h, next))))
      case Clearer(at) =>
        (match ClearerMove(d, at, i, c)
         case None => None
         case Some((e, next)) => Some((e, Clearer(next))))
      case Crashed(_, _) => None
    }
  }

  function Move(w: World, i: nat, c: Choice): Option<World> {
    if i >= |w.processes| then None
    else match ProcessMove(w.disk, w.processes[i], i, c) {
      case None => None
      case Some((d, p)) => Some(World(d, w.processes[i := p]))
    }
  }

  function Play(w: World, run: seq<(nat, Choice)>): Option<World>
    decreases |run|
  {
    if run == [] then Some(w)
    else
      var next := Move(w, run[0].0, run[0].1);
      if next.Some? then Play(next.value, run[1..]) else None
  }

  // ----- What every process may rely on -----

  predicate TempOk(d: Disk, i: nat, t: nat) {
    t < d.nextTemp && t !in d.ended && t in d.creator && d.creator[t] == i
  }

  predicate ResolverOk(d: Disk, h: Hash, at: Resolving) {
    match at
    case Extracting(t) => t in d.temps
    case Marking(t) => t in d.temps && d.temps[t].complete
    case Clearing(t) => t in d.temps && d.temps[t] == Dir(Some(h), true)
    case Renaming(t) => t in d.temps && d.temps[t] == Dir(Some(h), true)
    case Verifying => h.prefix in d.finals && d.finals[h.prefix] == Dir(Some(h), true)
    case Unlocking(true) => h.prefix in d.finals && d.finals[h.prefix] == Dir(Some(h), true)
    case _ => true
  }

  /** Without a lock in its listing a clear saw only directories of extractions that were over. */
  predicate ListingOk(d: Disk, rest: Listing) {
    !rest.locked ==> rest.temps <= d.ended
  }

  predicate ProcessOk(d: Disk, p: Process, i: nat) {
    && (Holding(p).Some? ==> Holding(p).value in d.locks && d.locks[Holding(p).value] == i)
    && (LiveTemp(p).Some? ==> Holding(p).Some? && TempOk(d, i, LiveTemp(p).value))
    && (p.Resolver? ==> ResolverOk(d, p.hash, p.at))
    && (p.Clearer? && (p.at'.Visiting? || p.at'.Removing? || p.at'.Freeing?) ==> ListingOk(d, p.at'.rest))
  }

  /** The locks of process i, and its unfinished directories, are the ones it knows of. */
  ghost predicate Owns(d: Disk, p: Process, i: nat) {
    && (forall q :: q in d.locks && d.locks[q] == i ==> Holding(p) == Some(q))
    && (forall t :: t in d.temps && t !in d.ended && t in d.creator && d.creator[t] == i ==> LiveTemp(p) == Some(t))
  }

  ghost predicate DiskOk(d: Disk, processes: nat) {
    && (forall p :: p in d.locks ==> d.locks[p] < processes)
    && (forall t :: t in d.temps ==> t in d.creator)
    && (forall t :: t in d.creator ==> t < d.nextTemp && d.creator[t] < processes)
    && (forall t :: t in d.ended ==> t < d.nextTemp)
  }

  ghost predicate Inv(w: World) {
    && DiskOk(w.disk, |w.processes|)
    && forall i :: 0 <= i < |w.processes| ==> ProcessOk(w.disk, w.processes[i], i) && Owns(w.disk, w.processes[i], i)
  }

  // ----- What a step of process i leaves alone -----

  ghost predicate LocksLeft(d: Disk, e: Disk, i: nat) {
    && (forall p :: p in d.locks && d.locks[p] != i ==> p in e.locks && e.locks[p] == d.locks[p])
    && (forall q :: q in e.locks && e.locks[q] != i ==> q in d.locks && d.locks[q] == e.locks[q])
  }

  ghost predicate FinalsLeft(d: Disk, e: Disk, i: nat) {
    forall p :: !(p in d.locks && d.locks[p] == i) ==>
      (p in e.finals <==> p in d.finals) && (p in d.finals ==> e.finals[p] == d.finals[p])
  }

  ghost predicate TempsLeft(d: Disk, e: Disk, i: nat) {
    && (forall t :: t in d.creator && d.creator[t] != i && t !in d.ended ==>
          && t in e.creator && e.creator[t] == d.creator[t] && t !in e.ended
          && (t in d.temps ==> t in e.temps && e.temps[t] == d.temps[t]))
    && (forall t :: t in e.temps && t !in e.ended && t in e.creator && e.creator[t] != i ==>
          t in d.temps && t !in d.ended && t in d.creator && d.creator[t] == e.creator[t])
    && d.ended <= e.ended && d.nextTemp <= e.nextTemp
  }

  ghost predicate Undisturbed(d: Disk, e: Disk, i: nat) {
    LocksLeft(d, e, i) && FinalsLeft(d, e, i) && TempsLeft(d, e, i)
  }

  lemma ResolverLeavesNames(d: Disk, h: Hash, at: Resolving, i: nat, c: Choice)
    requires ProcessOk(d, Resolver(h, at), i) && ResolverMove(d, h, at, i, c).Some?
    ensures var e := ResolverMove(d, h, at, i, c).value.0; LocksLeft(d, e, i) && FinalsLeft(d, e, i)
  {
  }

  lemma ResolverLeavesTemps(d: Disk, h: Hash, at: Resolving, i: nat, c: Choice, processes: nat)
    requires ProcessOk(d, Resolver(h, at), i) && DiskOk(d, processes) && ResolverMove(d, h, at, i, c).Some?
    ensures TempsLeft(d, ResolverMove(d, h, at, i, c).value.0, i)
  {
  }

  lemma ResolverLeaves(d: Disk, h: Hash, at: Resolving, i: nat, c: Choice, processes: nat)
    requires ProcessOk(d, Resolver(h, at), i) && DiskOk(d, processes) && ResolverMove(d, h, at, i, c).Some?
    ensures Undisturbed(d, ResolverMove(d, h, at, i, c).value.0, i)
  {
    hide LocksLeft, FinalsLeft, TempsLeft, ProcessOk, DiskOk, ResolverMove;
    ResolverLeavesNames(d, h, at, i, c);
    ResolverLeavesTemps(d, h, at, i, c, processes);
  }

  lemma ResolverDisk(d: Disk, h: Hash, at: Resolving, i: nat, c: Choice, processes: nat)
    requires (LiveTemp(Resolver(h, at)).Some? ==> TempOk(d, i, LiveTemp(Resolver(h, at)).value))
    requires DiskOk(d, processes) && i < processes && ResolverMove(d, h, at, i, c).Some?
    ensures DiskOk(ResolverMove(d, h, at, i, c).value.0, processes)
  {
  }

  lemma ResolverStays(d: Disk, h: Hash, at: Resolving, i: nat, c: Choice)
    requires ProcessOk(d, Resolver(h, at), i) && ResolverMove(d, h, at, i, c).Some?
    requires forall t :: t in d.ended ==> t < d.nextTemp
    ensures var (e, next) := ResolverMove(d, h, at, i, c).value; ProcessOk(e, Resolver(h, next), i)
  {
  }

  lemma ResolverOwns(d: Disk, h: Hash, at: Resolving, i: nat, c: Choice)
    requires ProcessOk(d, Resolver(h, at), i) && Owns(d, Resolver(h, at), i) && ResolverMove(d, h, at, i, c).Some?
    ensures var (e, next) := ResolverMove(d, h, at, i, c).value; Owns(e, Resolver(h, next), i)
  {
  }

  lemma ClearerLeavesNames(d: Disk, at: Sweeping, i: nat, c: Choice)
    requires ProcessOk(d, Clearer(at), i) && ClearerMove(d, at, i, c).Some?
    ensures var e := ClearerMove(d, at, i, c).value.0; LocksLeft(d, e, i) && FinalsLeft(d, e, i)
  {
  }

  lemma ClearerLeavesTemps(d: Disk, at: Sweeping, i: nat, c: Choice)
    requires ProcessOk(d, Clearer(at), i) && ClearerMove(d, at, i, c).Some?
    ensures TempsLeft(d, ClearerMove(d, at, i, c).value.0, i)
  {
  }

  lemma ClearerLeaves(d: Disk, at: Sweeping, i: nat, c: Choice)
    requires ProcessOk(d, Clearer(at), i) && ClearerMove(d, at, i, c).Some?
    ensures Undisturbed(d, ClearerMove(d, at, i, c).value.0, i)
  {
    hide LocksLeft, FinalsLeft, TempsLeft, ProcessOk, ClearerMove;
    ClearerLeavesNames(d, at, i, c);
    ClearerLeavesTemps(d, at, i, c);
  }

  lemma ClearerDisk(d: Disk, at: Sweeping, i: nat, c: Choice, processes: nat)
    requires DiskOk(d, processes) && i < processes && ClearerMove(d, at, i, c).Some?
    ensures DiskOk(ClearerMove(d, at, i, c).value.0, processes)
  {
  }

  lemma ClearerStays(d: Disk, at: Sweeping, i: nat, c: Choice)
    requires ProcessOk(d, Clearer(at), i) && Owns(d, Clearer(at), i) && ClearerMove(d, at, i, c).Some?
    requires d.locks == map[] ==> d.temps.Keys <= d.ended
    ensures var (e, next) := ClearerMove(d, at, i, c).value; ProcessOk(e, Clearer(next), i) && Owns(e, Clearer(next), i)
  {
  }

  lemma OthersStay(d: Disk, e: Disk, i: nat, j: nat, q: Process)
    requires Undisturbed(d, e, i) && ProcessOk(d, q, j) && Owns(d, q, j) && i != j
    ensures ProcessOk(e, q, j) && Owns(e, q, j)
  {
  }

  /** A directory of a live extraction means that a lock is held. */
  lemma NoLocksAllOver(w: World)
    requires Inv(w) && w.disk.locks == map[]
    ensures w.disk.temps.Keys <= w.disk.ended
  {
    hide Holding, LiveTemp, ResolverOk, ListingOk;
    var d := w.disk;
    forall t | t in d.temps ensures t in d.ended {
      var i := d.creator[t];
      assert ProcessOk(d, w.processes[i], i) && Owns(d, w.processes[i], i);
    }
  }

  lemma StepKeeps(d: Disk, p: Process, i: nat, c: Choice, processes: nat)
    requires ProcessOk(d, p, i) && Owns(d, p, i) && DiskOk(d, processes) && i < processes
    requires d.locks == map[] ==> d.temps.Keys <= d.ended
    requires ProcessMove(d, p, i, c).Some?
    ensures var (e, q) := ProcessMove(d, p, i, c).value;
            Undisturbed(d, e, i) && DiskOk(e, processes) && ProcessOk(e, q, i) && Owns(e, q, i)
  {
    hide Undisturbed, DiskOk, ProcessOk, Owns, ResolverMove, ClearerMove;
    if c.Crash? {
      CrashKeeps(d, p, i);
    } else if p.Resolver? {
      DiskBounds(d, processes);
      ResolverLeaves(d, p.hash, p.at, i, c, processes);
      ProcessTemp(d, p, i);
      ResolverDisk(d, p.hash, p.at, i, c, processes);
      ResolverStays(d, p.hash, p.at, i, c);
      ResolverOwns(d, p.hash, p.at, i, c);
    } else {
      ClearerLeaves(d, p.at', i, c);
      ClearerDisk(d, p.at', i, c, processes);
      ClearerStays(d, p.at', i, c);
    }
  }

  lemma ProcessTemp(d: Disk, p: Process, i: nat)
    requires ProcessOk(d, p, i)
    ensures LiveTemp(p).Some? ==> TempOk(d, i, LiveTemp(p).value)
  {
  }

  lemma DiskBounds(d: Disk, processes: nat)
    requires DiskOk(d, processes)
    ensures forall t :: t in d.ended ==> t < d.nextTemp
  {
  }

  lemma CrashKeeps(d: Disk, p: Process, i: nat)
    requires ProcessOk(d, p, i) && Owns(d, p, i)
    ensures var q := Crashed(Holding(p), LiveTemp(p));
            Undisturbed(d, d, i) && ProcessOk(d, q, i) && Owns(d, q, i)
  {
  }

  lemma MoveKeeps(w: World, i: nat, c: Choice)
    requires Inv(w) && Move(w, i, c).Some?
    ensures Inv(Move(w, i, c).value) && Undisturbed(w.disk, Move(w, i, c).value.disk, i)
  {
    hide Undisturbed, DiskOk, ProcessOk, Owns, ProcessMove;
    var d := w.disk;
    if d.locks == map[] {
      NoLocksAllOver(w);
    }
    StepKeeps(d, w.processes[i], i, c, |w.processes|);
    var v := Move(w, i, c).value;
    forall j | 0 <= j < |v.processes| ensures ProcessOk(v.disk, v.processes[j], j) && Owns(v.disk, v.processes[j], j) {
      if j != i {
        OthersStay(d, v.disk, i, j, w.processes[j]);
      }
    }
  }

  lemma {:induction false} PlayKeeps(w: World, run: seq<(nat, Choice)>)
    requires Inv(w) && Play(w, run).Some?
    ensures Inv(Play(w, run).value)
    decreases |run|
  {
    hide Inv, Move;
    if run != [] {
      MoveKeeps(w, run[0].0, run[0].1);
      PlayKeeps(Move(w, run[0].0, run[0].1).value, run[1..]);
    }
  }

  // ----- The results -----

  /** Neither a resolver nor a clear has begun. */
  predicate Begins(p: Process) {
    (p.Resolver? && p.at.Locking?) || (p.Clearer? && p.at'.Reading?)
  }

  /** No locks and no temporary directories; any final directories may be there. */
  predicate FreshWorld(w: World) {
    && w.disk.locks == map[] && w.disk.creator == map[] && w.disk.temps == map[] && w.disk.ended == {}
    && forall i :: 0 <= i < |w.processes| ==> Begins(w.processes[i])
  }

  lemma FreshIsOk(w: World)
    requires FreshWorld(w)
    ensures Inv(w)
  {
  }

  /** At most one process holds a prefix. */
  lemma OneHolderPerPrefix(w: World, run: seq<(nat, Choice)>, i: nat, j: nat)
    requires FreshWorld(w) && Play(w, run).Some?
    requires i < |Play(w, run).value.processes| && j < |Play(w, run).value.processes|
    requires Holding(Play(w, run).value.processes[i]).Some?
    ensures Holding(Play(w, run).value.processes[i]) == Holding(Play(w, run).value.processes[j]) ==> i == j
  {
    hide Move, Holding, LiveTemp, ResolverOk, ListingOk, Owns, DiskOk, Play, FreshWorld;
    FreshIsOk(w);
    PlayKeeps(w, run);
    var v := Play(w, run).value;
    assert ProcessOk(v.disk, v.processes[i], i) && ProcessOk(v.disk, v.processes[j], j);
  }

  lemma MoverExists(w: World, i: nat, c: Choice)
    requires Move(w, i, c).Some?
    ensures i < |w.processes|
  {
  }

  predicate SameFinal(d: Disk, e: Disk, p: nat) {
    (p in e.finals <==> p in d.finals) && (p in d.finals ==> e.finals[p] == d.finals[p])
  }

  /** In every run a final directory changes only in a step of the process that holds its lock. */
  lemma FinalChangesUnderLock(start: World, run: seq<(nat, Choice)>, i: nat, c: Choice, p: nat)
    requires FreshWorld(start) && Play(start, run).Some? && Move(Play(start, run).value, i, c).Some?
    ensures var w := Play(start, run).value;
            i < |w.processes| &&
            (SameFinal(w.disk, Move(w, i, c).value.disk, p) || Holding(w.processes[i]) == Some(p))
  {
    hide Move, Holding, LiveTemp, ResolverOk, ListingOk, Play, FreshWorld;
    FreshIsOk(start);
    PlayKeeps(start, run);
    var w := Play(start, run).value;
    MoveKeeps(w, i, c);
    MoverExists(w, i, c);
    assert Owns(w.disk, w.processes[i], i);
  }

  /**
    In every run the temporary directory of a live extraction is left alone by
    everybody else, clears included.
   */
  lemma LiveTempStays(start: World, run: seq<(nat, Choice)>, i: nat, c: Choice, j: nat)
    requires FreshWorld(start) && Play(start, run).Some? && Move(Play(start, run).value, i, c).Some?
    requires var w := Play(start, run).value; j < |w.processes| && i != j && LiveTemp(w.processes[j]).Some?
    ensures var w := Play(start, run).value;
            var t, e := LiveTemp(w.processes[j]).value, Move(w, i, c).value.disk;
            t in w.disk.temps ==> t in e.temps && e.temps[t] == w.disk.temps[t]
  {
    hide Move, Holding, LiveTemp, ResolverOk, ListingOk, Play, FreshWorld;
    FreshIsOk(start);
    PlayKeeps(start, run);
    var w := Play(start, run).value;
    MoveKeeps(w, i, c);
    assert ProcessOk(w.disk, w.processes[j], j);
  }

  /**
    In every run, when a successful resolve is about to give its lock back, its
    directory has its own marker and all required files, and giving the lock back
    leaves it so.
   */
  lemma ResolvedDirectoryIsComplete(start: World, run: seq<(nat, Choice)>, i: nat, c: Choice)
    requires FreshWorld(start) && Play(start, run).Some?
    requires var w := Play(start, run).value;
             i < |w.processes| && w.processes[i].Resolver? && w.processes[i].at == Unlocking(true) &&
             Move(w, i, c).Some?
    ensures var w := Play(start, run).value; var h := w.processes[i].hash;
            && h.prefix in w.disk.locks && w.disk.locks[h.prefix] == i
            && h.prefix in w.disk.finals && w.disk.finals[h.prefix] == Dir(Some(h), true)
            && Move(w, i, c).value.disk.finals == w.disk.finals
  {
    hide DiskOk, Owns, LiveTemp, ListingOk, Play, FreshWorld;
    FreshIsOk(start);
    PlayKeeps(start, run);
    var w := Play(start, run).value;
    assert ProcessOk(w.disk, w.processes[i], i);
  }

  /** An extraction that goes on finds its temporary directory where it made it. */
  lemma LiveTempIsThere(start: World, run: seq<(nat, Choice)>, i: nat)
    requires FreshWorld(start) && Play(start, run).Some? && i < |Play(start, run).value.processes|
    requires var p := Play(start, run).value.processes[i];
             p.Resolver? && (p.at.Extracting? || p.at.Marking? || p.at.Clearing? || p.at.Renaming?)
    ensures var w := Play(start, run).value; w.processes[i].at.tmp in w.disk.temps
  {
    hide DiskOk, Owns, LiveTemp, ListingOk, Play, FreshWorld, Holding;
    FreshIsOk(start);
    PlayKeeps(start, run);
    var w := Play(start, run).value;
    assert ProcessOk(w.disk, w.processes[i], i);
  }
}
