/**
  The archive of a call: its rows cut into files of 500, written by concurrent
  workers, and read back file by file through the row pipe.
 */
module Archive {
  import Text
  import opened CallMachine
  import opened ResultCache
  import P = RowPipe

  const CHUNK := 500

  /** A row file as a reader finds it. */
  datatype File<T> = Readable(rows: seq<T>) | Damaged

  function ChunkEnd(length: nat, i: nat): nat {
    if CHUNK * (i + 1) > length then length else CHUNK * (i + 1)
  }

  /** What worker i does: it writes its chunk, unless the chunk is empty. */
  function WriteChunk<T>(files: map<nat, File<T>>, rows: seq<T>, i: nat): map<nat, File<T>>
    requires CHUNK * i <= |rows|
  {
    var chunk := rows[CHUNK * i..ChunkEnd(|rows|, i)];
    if |chunk| == 0 then files else files[i := Readable(chunk)]
  }

  /** The files once the workers have finished in the given order. */
  function WriteAll<T>(files: map<nat, File<T>>, rows: seq<T>, order: seq<nat>): map<nat, File<T>>
    requires forall i :: i in order ==> CHUNK * i <= |rows|
    decreases |order|
  {
    assert order != [] ==> order[0] in order && forall i :: i in order[1..] ==> i in order;
    if order == [] then files else WriteAll(WriteChunk(files, rows, order[0]), rows, order[1..])
  }

  /** One file for each 500 rows, from number 0 on. */
  function ChunkFiles<T>(rows: seq<T>): map<nat, File<T>> {
    map i: nat | i < |rows| && CHUNK * i < |rows| :: Readable(rows[CHUNK * i..ChunkEnd(|rows|, i)])
  }

  /** The workers are numbered 0 to length / 500, and each runs. */
  ghost predicate Workers(order: seq<nat>, length: nat) {
    forall i :: i in order <==> i <= length / CHUNK
  }

  lemma {:induction false} WritesAre<T>(files: map<nat, File<T>>, rows: seq<T>, order: seq<nat>)
    requires forall i :: i in order ==> CHUNK * i <= |rows|
    ensures forall i :: i in WriteAll(files, rows, order) <==> i in files || (i in order && CHUNK * i < |rows|)
    ensures forall i :: i in WriteAll(files, rows, order) ==>
                          WriteAll(files, rows, order)[i] ==
                          if i in order && CHUNK * i < |rows| then Readable(rows[CHUNK * i..ChunkEnd(|rows|, i)])
                          else files[i]
    decreases |order|
  {
    if order != [] {
      assert order[0] in order;
      assert forall i :: i in order <==> i == order[0] || i in order[1..];
      WritesAre(WriteChunk(files, rows, order[0]), rows, order[1..]);
    }
  }

  /** The order in which the workers finish does not matter. */
  lemma AnyOrderWritesSame<T>(rows: seq<T>, order: seq<nat>)
    requires Workers(order, |rows|)
    ensures forall i :: i in order ==> CHUNK * i <= |rows|
    ensures WriteAll(map[], rows, order) == ChunkFiles(rows)
  {
    WritesAre(map[], rows, order);
  }

  /** The files hold 500 rows each, all but the last, which holds what is left. */
  lemma FilesHold500<T>(rows: seq<T>, i: nat)
    ensures i in ChunkFiles(rows) <==> 500 * i < |rows|
    ensures i in ChunkFiles(rows) ==>
              ChunkFiles(rows)[i] == Readable(rows[500 * i..if 500 * i + 500 <= |rows| then 500 * i + 500 else |rows|])
  {
  }

  function FilesFrom<T>(files: map<nat, File<T>>, i: nat): set<nat> {
    set k | k in files && k >= i
  }

  lemma FilesShrink<T>(files: map<nat, File<T>>, i: nat)
    requires i in files
    ensures FilesFrom(files, i + 1) < FilesFrom(files, i)
  {
    assert i in FilesFrom(files, i) && i !in FilesFrom(files, i + 1);
  }

  /** The stream of the reader goroutine: file after file until one is missing. */
  function Stored<T>(files: map<nat, File<T>>, i: nat): seq<Item<T>>
    decreases FilesFrom(files, i)
  {
    if i !in files then []
    else if files[i].Damaged? then [Bad]
    else
      FilesShrink(files, i);
      Items(files[i].rows) + Stored(files, i + 1)
  }

  function Items<T>(rows: seq<T>): (r: seq<Item<T>>)
    ensures |r| == |rows| && forall i :: 0 <= i < |rows| ==> r[i] == Good(rows[i])
  {
    seq(|rows|, i requires 0 <= i < |rows| => Good(rows[i]))
  }

  lemma StoredStep<T>(rows: seq<T>, i: nat)
    ensures CHUNK * i < |rows| ==>
              Stored(ChunkFiles(rows), i) ==
              Items(rows[CHUNK * i..ChunkEnd(|rows|, i)]) + Stored(ChunkFiles(rows), i + 1)
    ensures CHUNK * i >= |rows| ==> Stored(ChunkFiles(rows), i) == []
  {
    assert i in ChunkFiles(rows) <==> CHUNK * i < |rows|;
  }

  lemma ItemsAppend<T>(a: seq<T>, b: seq<T>)
    ensures Items(a + b) == Items(a) + Items(b)
  {
  }

  lemma {:induction false} StoredFrom<T>(rows: seq<T>, i: nat)
    requires CHUNK * i <= |rows|
    ensures Stored(ChunkFiles(rows), i) == Items(rows[CHUNK * i..])
    decreases |rows| - CHUNK * i
  {
    hide Stored, ChunkFiles, Items;
    StoredStep(rows, i);
    if CHUNK * i < |rows| {
      var end := ChunkEnd(|rows|, i);
      if end == |rows| {
        StoredStep(rows, i + 1);
        assert rows[CHUNK * i..end] == rows[CHUNK * i..];
      } else {
        StoredFrom(rows, i + 1);
        assert rows[CHUNK * i..] == rows[CHUNK * i..end] + rows[end..];
        ItemsAppend(rows[CHUNK * i..end], rows[end..]);
      }
    } else {
      NoItems(rows, i);
    }
  }

  lemma NoItems<T>(rows: seq<T>, i: nat)
    requires CHUNK * i == |rows|
    ensures Items(rows[CHUNK * i..]) == []
  {
  }

  lemma GoodItems<T>(rows: seq<T>)
    ensures GoodRows(Items(rows)) == rows
  {
    GoodRowsAre(Items(rows), rows);
  }

  // ----- The objects -----

  class Archive<T> {
    var isFilled: bool
    var files: map<nat, File<T>>

    constructor (files: map<nat, File<T>>, isFilled: bool)
      ensures this.files == files && this.isFilled == isFilled
    {
      this.files, this.isFilled := files, isFilled;
    }

    /** Writes the rows of a result; `order` is the order in which the workers finish. */
    method SetResult(result: Result<T>, order: seq<nat>) returns (ok: bool)
      requires Workers(order, |result.rows|)
      modifies this
      ensures old(isFilled) ==> ok && isFilled && files == old(files)
      ensures !old(isFilled) ==> (ok <==> !result.fillErr) && isFilled == ok
      ensures !old(isFilled) && ok ==>
                (forall i :: i in order ==> CHUNK * i <= |result.rows|) &&
                files == WriteAll(old(files), result.rows, order)
    {
      if isFilled {
        return true;
      }
      var length := |result.rows|;
      assert 0 in order;
      assert forall i :: i in order ==> CHUNK * i <= length;
      ghost var goal := if result.fillErr then files else WriteAll(files, result.rows, order);
      for k := 0 to |order|
        invariant !isFilled && (result.fillErr ==> k == 0)
        invariant forall i :: i in order[k..] ==> i in order
        invariant !result.fillErr ==> WriteAll(files, result.rows, order[k..]) == goal
      {
        var i := order[k];
        assert i in order && order[k..][1..] == order[k + 1..];
        assert forall j :: j in order[k..][1..] ==> j in order[k..];
        var page := result.GetRows(CHUNK * i, ChunkEnd(length, i));
        if page.FillFailed? {
          return false;
        }
        assert page == Rows(result.rows[CHUNK * i..ChunkEnd(length, i)], CHUNK * i, ChunkEnd(length, i));
        if |page.rows| > 0 {
          files := files[i := Readable(page.rows)];
        }
      }
      isFilled := true;
      return true;
    }

    /** The stream of stored rows. */
    method GetResult() returns (r: Text.Option<seq<Item<T>>>)
      ensures r == if isFilled then Text.Some(Stored(files, 0)) else Text.None
    {
      if !isFilled {
        return Text.None;
      }
      var items: seq<Item<T>> := [];
      var file: nat := 0;
      while file in files && files[file].Readable?
        invariant items + Stored(files, file) == Stored(files, 0)
        decreases FilesFrom(files, file)
      {
        FilesShrink(files, file);
        ghost var rest := Stored(files, file + 1);
        assert items + (Items(files[file].rows) + rest) == items + Items(files[file].rows) + rest;
        items := items + Items(files[file].rows);
        file := file + 1;
      }
      assert items + [] == items;
      return Text.Some(if file in files then items + [Bad] else items);
    }
  }

  class StoredCall<T> {
    var state: CallState
    var result: Result<T>
    var archive: Archive<T>

    /** A call read back from the history file. */
    constructor (saved: CallState, archive: Archive<T>)
      ensures this.archive == archive && fresh(result) && result.Snapshot() == Cache([], false, false, false)
      ensures state == if saved.Archived? && !archive.isFilled then Unknown else saved
    {
      state := if saved.Archived? && !archive.isFilled then Unknown else saved;
      result := new Result<T>();
      this.archive := archive;
    }

    /** An archived call whose result is still to be read. */
    predicate Reads()
      reads this, result, archive
    {
      !result.isFilled && state.Archived? && archive.isFilled
    }

    /**
      The result, read from the archive when it is not there yet. `run` is how the
      reading pipe interleaves, up to the point where the consumer is told that
      there are no more rows. A damaged file shortens the rows and nothing else:
      the fill ends without an error.
     */
    method GetResult(run: seq<P.Step>) returns (r: Text.Option<Result<T>>)
      requires Reads() ==> ReadOut(archive.files, run)
      modifies result
      ensures result == old(result) && archive.files == old(archive.files)
      ensures r.Some? ==> r.value == result && result.isFilled
      ensures old(result.isFilled) ==> r == Text.Some(result) && result.Snapshot() == old(result.Snapshot())
      ensures !old(result.isFilled) && !old(Reads()) ==>
                r.None? && result.Snapshot() == old(result.Snapshot())
      ensures old(Reads()) ==>
                && r == Text.Some(result)
                && result.Snapshot() == Cache(Delivered(archive.files, run), true, true, false)
                && result.rows <= GoodRows(Stored(archive.files, 0))
    {
      hide GoodRows, Stored, Delivered, P.Play;
      var empty := result.IsEmpty();
      if !empty {
        return Text.Some(result);
      }
      if !state.Archived? {
        return Text.None;
      }
      var stream := archive.GetResult();
      if stream.None? {
        return Text.None;
      }
      DeliveredIs(archive.files, run);
      var rows := P.Drain(stream.value, run);
      GoodItems(rows);
      var ok := result.SetIter(Items(rows));
      if !ok {
        return Text.None;
      }
      return Text.Some(result);
    }
  }

  /** The run of the reading pipe ends with the consumer told that there are no more rows. */
  predicate ReadOut<T>(files: map<nat, File<T>>, run: seq<P.Step>) {
    var p := P.Play(P.NewPipe(Stored(files, 0)), run);
    p.Some? && p.value.sink.at.Over?
  }

  /** The rows that a finished run hands to the result. */
  function Delivered<T>(files: map<nat, File<T>>, run: seq<P.Step>): seq<T>
    requires ReadOut(files, run)
  {
    P.Play(P.NewPipe(Stored(files, 0)), run).value.sink.consumed
  }

  lemma DeliveredIs<T>(files: map<nat, File<T>>, run: seq<P.Step>)
    requires ReadOut(files, run)
    ensures P.Play(P.NewPipe(Stored(files, 0)), run).Some?
    ensures Delivered(files, run) == P.Play(P.NewPipe(Stored(files, 0)), run).value.sink.consumed
  {
  }

  // ----- Damaged archives -----

  /** Reading comes to a damaged file: all files in front of it are there and readable. */
  predicate DamagedAt<T>(files: map<nat, File<T>>, d: nat) {
    d in files && files[d].Damaged? && forall j: nat :: j < d ==> Present(files, j)
  }

  predicate Present<T>(files: map<nat, File<T>>, j: nat) {
    j in files && files[j].Readable?
  }

  lemma {:induction false} GoodRowsAppend<T>(rows: seq<T>, rest: seq<Item<T>>)
    ensures GoodRows(Items(rows) + rest) == rows + GoodRows(rest)
    decreases |rows|
  {
    hide *;
    var good := GoodRows(rest);
    ItemsStep(rows);
    if |rows| == 0 {
      assert [] + rest == rest && rows + good == good;
    } else {
      var more := Items(rows[1..]) + rest;
      GoodRowsAppend(rows[1..], rest);
      assert Items(rows) + rest == [Good(rows[0])] + more && ([Good(rows[0])] + more)[1..] == more;
      P.NextItem([Good(rows[0])] + more);
      assert [rows[0]] + (rows[1..] + good) == rows + good;
    }
  }

  lemma ItemsStep<T>(rows: seq<T>)
    ensures |rows| == 0 ==> Items(rows) == []
    ensures |rows| > 0 ==> Items(rows) == [Good(rows[0])] + Items(rows[1..])
  {
  }

  /** Where reading ends: at the first file that is missing or damaged. */
  lemma {:induction false} ReadingEnds<T>(files: map<nat, File<T>>, i: nat) returns (end: nat)
    ensures i <= end && !Present(files, end) && forall j: nat :: i <= j < end ==> Present(files, j)
    ensures |GoodRows(Stored(files, i))| < |Stored(files, i)| <==> end in files
    ensures |GoodRows(Stored(files, i))| == 0 <==>
              forall j: nat :: i <= j < end ==> Present(files, j) && |files[j].rows| == 0
    decreases FilesFrom(files, i)
  {
    hide GoodRows, Stored, FilesFrom;
    NoGoodRows<T>();
    FileStep(files, i);
    if Present(files, i) {
      end := ReadingEnds(files, i + 1);
      GoodRowsAppend(files[i].rows, Stored(files, i + 1));
    } else {
      end := i;
    }
  }

  lemma FileStep<T>(files: map<nat, File<T>>, i: nat)
    ensures if Present(files, i) then Stored(files, i) == Items(files[i].rows) + Stored(files, i + 1)
            else Stored(files, i) == if i in files then [Bad] else []
    ensures Present(files, i) ==> FilesFrom(files, i + 1) < FilesFrom(files, i)
  {
    if Present(files, i) {
      FilesShrink(files, i);
    }
  }

  lemma NoGoodRows<T>()
    ensures GoodRows<T>([]) == [] && GoodRows<T>([Bad]) == []
  {
  }

  /**
    Every run restores all good rows exactly when reading comes to no damaged
    file, or to no row in front of the damaged one.
   */
  lemma RestoredWholeExactly<T>(files: map<nat, File<T>>)
    ensures (forall run :: ReadOut(files, run) ==> Delivered(files, run) == GoodRows(Stored(files, 0))) <==>
            forall d: nat :: DamagedAt(files, d) ==>
              forall j: nat :: j < d ==> Present(files, j) && |files[j].rows| == 0
  {
    hide GoodRows, Stored, Delivered, ReadOut;
    RestoredWhole(files);
    var end := ReadingEnds(files, 0);
    DamageEnds(files, end, end);
    forall d: nat | DamagedAt(files, d) ensures d == end {
      DamageEnds(files, end, d);
    }
  }

  lemma DamageEnds<T>(files: map<nat, File<T>>, end: nat, d: nat)
    requires !Present(files, end) && forall j: nat :: j < end ==> Present(files, j)
    ensures DamagedAt(files, d) <==> d == end && end in files
  {
    assert d in files && files[d].Damaged? ==> !Present(files, d);
  }

  lemma RestoredWhole<T>(files: map<nat, File<T>>)
    ensures (forall run :: ReadOut(files, run) ==> Delivered(files, run) == GoodRows(Stored(files, 0))) <==>
            (var items := Stored(files, 0); |GoodRows(items)| == |items| || GoodRows(items) == [])
  {
    hide GoodRows, Stored, P.Play, P.NewPipe, ReadOut, Delivered;
    var items := Stored(files, 0);
    P.DeliveredWholeExactly(items);
    var all := GoodRows(items);
    if forall run :: ReadOut(files, run) ==> Delivered(files, run) == all {
      forall run | P.Play(P.NewPipe(items), run).Some? && P.Play(P.NewPipe(items), run).value.sink.at.Over?
        ensures P.Play(P.NewPipe(items), run).value.sink.consumed == all
      {
        ReadOutIs(files, run);
      }
    }
    if |all| == |items| || all == [] {
      forall run | ReadOut(files, run) ensures Delivered(files, run) == all {
        ReadOutIs(files, run);
      }
    }
  }

  lemma ReadOutIs<T>(files: map<nat, File<T>>, run: seq<P.Step>)
    ensures var p := P.Play(P.NewPipe(Stored(files, 0)), run);
            && (ReadOut(files, run) <==> p.Some? && p.value.sink.at.Over?)
            && (ReadOut(files, run) ==> Delivered(files, run) == p.value.sink.consumed)
  {
    hide Stored, P.Play, P.NewPipe;
  }

  /** A second file that is damaged: in some run the restored call silently lacks a row of the first. */
  lemma DamageLosesRow<T>(rows: seq<T>) returns (run: seq<P.Step>)
    requires |rows| > 0
    ensures var files := map[0 := Readable(rows), 1 := Damaged];
            ReadOut(files, run) && Delivered(files, run) == rows[..|rows| - 1]
  {
    hide GoodRows, P.Play, P.NewPipe;
    var files: map<nat, File<T>> := map[0 := Readable(rows), 1 := Damaged];
    assert Stored(files, 1) == [Bad];
    assert Stored(files, 0) == Items(rows) + [Bad];
    NoGoodRows<T>();
    GoodRowsAppend(rows, [Bad]);
    assert rows + [] == rows;
    run := P.FailureDropsRows(Stored(files, 0));
    P.ConsumerGetsPrefix(Stored(files, 0), run);
    assert Delivered(files, run) == rows[..|rows| - 1];
  }

  // ----- The round trip -----

  /**
    For every list of rows, every order of the chunk writers and every
    interleaving of the reading pipe: the rows given to the restored result are
    the live rows, and every page of them is the page of the live rows.
   */
  lemma RoundTrip<T>(rows: seq<T>, order: seq<nat>, run: seq<P.Step>, seen: nat, read: nat, from: int, to: int)
    requires Workers(order, |rows|) && seen <= read
    requires forall i :: i in order ==> CHUNK * i <= |rows|
    requires var p := P.Play(P.NewPipe(Stored(WriteAll(map[], rows, order), 0)), run);
             p.Some? && p.value.sink.at.Over?
    ensures var got := P.Play(P.NewPipe(Stored(WriteAll(map[], rows, order), 0)), run).value.sink.consumed;
            var page := ReadPage(FillSteps(Items(got), seen).cache, FillSteps(Items(got), read).cache, from, to);
            && got == rows
            && (page.Rows? ==> page == Cut(rows, from, to))
            && (page.Rows? && from == 0 && to == -1 ==> page.rows == rows)
  {
    hide FillSteps, ReadPage, P.Play, WriteAll, Stored;
    AnyOrderWritesSame(rows, order);
    StoredFrom(rows, 0);
    GoodItems(rows);
    assert rows[0..] == rows;
    P.AllRowsArrive(Items(rows), run);
    PageIsFinal(Items(rows), seen, read, from, to);
    WholePage(rows);
  }

  lemma WholePage<T>(rows: seq<T>)
    ensures Cut(rows, 0, -1) == Rows(rows, 0, |rows|)
  {
    assert rows[0..|rows|] == rows;
  }

  /** The same through the objects: archive a result, restore the call, ask for its rows. */
  method ArchiveAndRestore<T>(live: Result<T>, order: seq<nat>, run: seq<P.Step>) returns (page: Page<T>)
    requires live.isDrained && !live.fillErr && Workers(order, |live.rows|)
    requires ReadOut(ChunkFiles(live.rows), run)
    ensures page == Rows(live.rows, 0, |live.rows|)
  {
    var archive := new Archive<T>(map[], false);
    var ok := archive.SetResult(live, order);
    AnyOrderWritesSame(live.rows, order);
    StoredFrom(live.rows, 0);
    GoodItems(live.rows);
    assert live.rows[0..] == live.rows;
    P.AllRowsArrive(Items(live.rows), run);
    DeliveredIs(archive.files, run);
    var call := new StoredCall(Archived, archive);
    var result := call.GetResult(run);
    WholePage(live.rows);
    page := result.value.GetRows(0, -1);
  }
}
