/**
  The cached rows of a call: one writer appends what its stream yields, while any
  number of readers ask for pages.
 */
module ResultCache {

  /** What one HasNext/Next pair of a stream yields. */
  datatype Item<T> = Good(row: T) | Bad

  datatype Cache<T> = Cache(rows: seq<T>, isFilled: bool, isDrained: bool, fillErr: bool)

  datatype Page<T> =
    | Rows(rows: seq<T>, from: nat, to: nat)
    | InvalidRange
    | FillFailed
    | Waits      // the rows are not there yet: the reader sleeps and looks again
    | Panics     // the rows would be sliced with their bounds crossed

  /** The rows in front of the first failing item. */
  function GoodRows<T>(items: seq<Item<T>>): (r: seq<T>)
    ensures |r| <= |items|
    ensures forall i :: 0 <= i < |r| ==> items[i] == Good(r[i])
    ensures |r| < |items| ==> items[|r|].Bad?
  {
    if items == [] || items[0].Bad? then [] else [items[0].row] + GoodRows(items[1..])
  }

  // ----- Page bounds -----

  predicate RefusedRange(from: int, to: int) {
    (from < 0 <= to) || (((from < 0) == (to < 0)) && from > to)
  }

  function AdjustFrom(from: int, length: nat): nat {
    var f := if from < 0 then from + length + 1 else from;
    if f < 0 then 0 else if f > length then length else f
  }

  /** The page that a reader cuts out of the rows once it no longer waits. */
  function Cut<T>(rows: seq<T>, from: int, to: int): Page<T> {
    var f, t := AdjustFrom(from, |rows|), AdjustFrom(to, |rows|);
    if f <= t then Rows(rows[f..t], f, t) else Panics
  }

  predicate Ready<T>(c: Cache<T>, to: int) {
    c.isDrained || 0 <= to <= |c.rows|
  }

  /**
    A reader that looked at `seen` when it stopped waiting, and at `read` when it
    copied the rows.
   */
  function ReadPage<T>(seen: Cache<T>, read: Cache<T>, from: int, to: int): Page<T> {
    if RefusedRange(from, to) then InvalidRange
    else if seen.fillErr then FillFailed
    else if !Ready(seen, to) then Waits
    else if read.fillErr then FillFailed
    else Cut(read.rows, from, to)
  }

  /** Bounds of one sign in order always give an ordered range inside the rows. */
  lemma OrderedBounds<T>(rows: seq<T>, from: int, to: int)
    requires !RefusedRange(from, to)
    ensures var p := Cut(rows, from, to);
            if from >= 0 && to < 0 && AdjustFrom(to, |rows|) < AdjustFrom(from, |rows|) then p.Panics?
            else p.Rows? && 0 <= p.from <= p.to <= |rows| && p.rows == rows[p.from..p.to]
    ensures to >= 0 ==> Cut(rows, from, to).Rows?
  {
  }

  /** A page from the start to the end of the rows panics exactly when its bounds cross. */
  lemma MixedBounds<T>(rows: seq<T>, from: int, to: int)
    requires from >= 0 > to
    ensures Cut(rows, from, to).Panics? <==>
              && rows != [] && from > 0 && |rows| + 1 + to < from && |rows| + 1 + to < |rows|
    ensures to == -1 ==> Cut(rows, from, to).Rows?
  {
  }

  /**
    A range is refused exactly when its bounds would cross for some number of
    rows; only a non-negative start with a negative end is let through untested.
   */
  lemma RefusedExactly<T>(row: T, from: int, to: int)
    ensures from >= 0 > to ==> !RefusedRange(from, to)
    ensures !(from >= 0 > to) ==>
              (RefusedRange(from, to) <==> exists rows: seq<T> :: Cut(rows, from, to).Panics?)
  {
    if RefusedRange(from, to) && !(from >= 0 > to) {
      var n: nat := if from >= 0 then from else if to >= 0 then to - from else -from - to;
      assert |seq(n, _ => row)| == n;
      assert Cut(seq(n, _ => row), from, to).Panics?;
    }
  }

  /** Negative bounds count from the end: -1 stands behind the last row. */
  lemma BoundsFromEnd<T>(rows: seq<T>, a: nat, b: nat)
    requires b <= a <= |rows|
    ensures Cut(rows, -1 - a, -1 - b) == Rows(rows[|rows| - a..|rows| - b], |rows| - a, |rows| - b)
  {
  }

  // ----- One fill, seen from outside -----

  datatype Position<T> = Before | Drawing(rest: seq<Item<T>>) | Closing | After

  datatype Filling<T> = Filling(cache: Cache<T>, position: Position<T>)

  function Fresh<T>(): Filling<T> {
    Filling(Cache([], false, false, false), Before)
  }

  /** One locked section of SetIter. */
  function FillStep<T>(s: Filling<T>, items: seq<Item<T>>): Filling<T> {
    match s.position
    case Before => Filling(Cache([], true, false, false), Drawing(items))
    case Drawing(rest) =>
      if rest == [] then Filling(s.cache, Closing)
      else if rest[0].Bad? then Filling(s.cache.(fillErr := true), Closing)
      else Filling(s.cache.(rows := s.cache.rows + [rest[0].row]), Drawing(rest[1..]))
    case Closing => Filling(s.cache.(isDrained := true), After)
    case After => s
  }

  function FillSteps<T>(items: seq<Item<T>>, n: nat): Filling<T> {
    if n == 0 then Fresh() else FillStep(FillSteps(items, n - 1), items)
  }

  ghost predicate FillOk<T>(s: Filling<T>, items: seq<Item<T>>) {
    var rows := s.cache.rows;
    && |rows| <= |items| && (forall i :: 0 <= i < |rows| ==> items[i] == Good(rows[i]))
    && match s.position {
      case Before => s == Fresh<T>()
      case Drawing(rest) => rest == items[|rows|..] && s.cache.isFilled && !s.cache.fillErr && !s.cache.isDrained
      case Closing => rows == GoodRows(items) && s.cache.isFilled &&
                      s.cache.fillErr == (|rows| < |items|) && !s.cache.isDrained
      case After => rows == GoodRows(items) && s.cache.isFilled &&
                    s.cache.fillErr == (|rows| < |items|) && s.cache.isDrained
    }
  }

  lemma GoodRowsAre<T>(items: seq<Item<T>>, rows: seq<T>)
    requires |rows| <= |items| && forall i :: 0 <= i < |rows| ==> items[i] == Good(rows[i])
    ensures rows <= GoodRows(items)
    ensures |rows| == |items| || items[|rows|].Bad? ==> rows == GoodRows(items)
  {
    var good := GoodRows(items);
    assert |good| < |items| ==> items[|good|].Bad?;
    assert forall i :: 0 <= i < |rows| ==> rows[i] == good[i];
  }

  lemma FillStepOk<T>(s: Filling<T>, items: seq<Item<T>>)
    requires FillOk(s, items)
    ensures FillOk(FillStep(s, items), items)
  {
    hide GoodRows;
    GoodRowsAre(items, s.cache.rows);
  }

  lemma {:induction false} FillStepsOk<T>(items: seq<Item<T>>, n: nat)
    ensures FillOk(FillSteps(items, n), items)
  {
    hide FillOk, FillStep;
    if n > 0 {
      FillStepsOk(items, n - 1);
      FillStepOk(FillSteps(items, n - 1), items);
    } else {
      FreshOk(items);
    }
  }

  lemma FreshOk<T>(items: seq<Item<T>>)
    ensures FillOk(FillSteps(items, 0), items)
  {
  }

  /** Rows are only ever added; once drained nothing changes. */
  lemma {:induction false} FillGrows<T>(items: seq<Item<T>>, a: nat, b: nat)
    requires a <= b
    ensures FillSteps(items, a).cache.rows <= FillSteps(items, b).cache.rows
    ensures FillSteps(items, a).cache.isDrained ==> FillSteps(items, b).cache == FillSteps(items, a).cache
    decreases b - a
  {
    if a < b {
      FillStepsOk(items, b - 1);
      FillGrows(items, a, b - 1);
    }
  }

  lemma {:induction false} FillCounts<T>(items: seq<Item<T>>, n: nat)
    ensures var s := FillSteps(items, n);
            && (s.position.Before? ==> n == 0) && (s.position.Drawing? ==> |s.cache.rows| == n - 1)
            && (s.position.Closing? ==> n <= |items| + 2)
  {
    if n > 0 {
      FillStepsOk(items, n - 1);
      FillCounts(items, n - 1);
    }
  }

  /** The fill ends, and from then on no reader waits. */
  lemma FillEnds<T>(items: seq<Item<T>>)
    ensures FillSteps(items, |items| + 3).cache == Cache(GoodRows(items), true, true, |GoodRows(items)| < |items|)
  {
    hide GoodRows, FillSteps;
    FillStepsOk(items, |items| + 3);
    FillCounts(items, |items| + 3);
  }

  /**
    Pages are stable: whatever a reader is given while the result is being filled
    is what the same request gives from the final rows.
   */
  lemma PageIsFinal<T>(items: seq<Item<T>>, seen: nat, read: nat, from: int, to: int)
    requires seen <= read
    ensures var p := ReadPage(FillSteps(items, seen).cache, FillSteps(items, read).cache, from, to);
            p.Rows? ==> p == Cut(GoodRows(items), from, to)
  {
    hide GoodRows, FillSteps;
    FillStepsOk(items, seen);
    FillStepsOk(items, read);
    FillGrows(items, seen, read);
    var a, b := FillSteps(items, seen).cache, FillSteps(items, read).cache;
    GoodRowsAre(items, b.rows);
    var p := ReadPage(a, b, from, to);
    if p.Rows? && !a.isDrained {
      var final := GoodRows(items);
      assert 0 <= from <= to <= |b.rows| <= |final|;
      assert b.rows[from..to] == final[from..to];
    }
  }

  /** Rows(from, to) with 0 <= from <= to while filling: the same slice of the final rows. */
  lemma PageIsSlice<T>(items: seq<Item<T>>, seen: nat, read: nat, from: nat, to: nat)
    requires seen <= read && from <= to
    ensures var p := ReadPage(FillSteps(items, seen).cache, FillSteps(items, read).cache, from, to);
            var final := GoodRows(items);
            p.Rows? ==>
              var f := if from < |final| then from else |final|;
              var t := if to < |final| then to else |final|;
              p == Rows(final[f..t], f, t)
  {
    hide GoodRows, FillSteps;
    PageIsFinal(items, seen, read, from, to);
  }

  /**
    When a reader of rows 0 <= from <= to is served, sent away or kept waiting,
    by how many rows have arrived.
   */
  lemma ServedExactly<T>(items: seq<Item<T>>, seen: nat, read: nat, from: nat, to: nat)
    requires seen <= read && from <= to
    ensures var a, b := FillSteps(items, seen).cache, FillSteps(items, read).cache;
            var p := ReadPage(a, b, from, to);
            && (p.Waits? <==> !a.fillErr && !a.isDrained && |a.rows| < to)
            && (p.FillFailed? <==> a.fillErr || (b.fillErr && !p.Waits?))
            && (p.Rows? <==> !p.Waits? && !p.FillFailed?)
  {
    hide FillSteps;
    FillGrows(items, seen, read);
  }

  // ----- The object -----

  class Result<T> {
    var rows: seq<T>
    var isFilled: bool
    var isDrained: bool
    var fillErr: bool

    function Snapshot(): Cache<T>
      reads this
    {
      Cache(rows, isFilled, isDrained, fillErr)
    }

    constructor ()
      ensures Snapshot() == Cache([], false, false, false)
    {
      rows, isFilled, isDrained, fillErr := [], false, false, false;
    }

    /** Fills the cache from a stream; fails when the stream fails. */
    method SetIter(items: seq<Item<T>>) returns (ok: bool)
      modifies this
      ensures Snapshot() == Cache(GoodRows(items), true, true, |GoodRows(items)| < |items|)
      ensures ok <==> !fillErr
    {
      rows, isDrained, isFilled, fillErr := [], false, true, false;
      var rest := items;
      while |rest| > 0
        invariant |rows| <= |items| && rest == items[|rows|..] && isFilled && !fillErr
        invariant forall i :: 0 <= i < |rows| ==> items[i] == Good(rows[i])
        decreases |rest|
      {
        if rest[0].Bad? {
          GoodRowsAre(items, rows);
          fillErr, isDrained := true, true;
          return false;
        }
        rows := rows + [rest[0].row];
        rest := rest[1..];
      }
      GoodRowsAre(items, rows);
      isDrained := true;
      return true;
    }

    method Wipe()
      modifies this
      ensures Snapshot() == Cache([], false, false, false)
    {
      rows, isFilled, isDrained, fillErr := [], false, false, false;
    }

    method IsEmpty() returns (r: bool)
      ensures r <==> !isFilled
    {
      return !isFilled;
    }

    /** One look at the cache: the page, or the reason there is none (yet). */
    method GetRows(from: int, to: int) returns (p: Page<T>)
      ensures p == ReadPage(Snapshot(), Snapshot(), from, to)
    {
      if (from < 0 && to < 0) || (from >= 0 && to >= 0) {
        if from > to {
          return InvalidRange;
        }
      }
      if from < 0 && to >= 0 {
        return InvalidRange;
      }
      if fillErr {
        return FillFailed;
      }
      if !(isDrained || (to >= 0 && to <= |rows|)) {
        return Waits;
      }
      var length := |rows|;
      var f, t := from, to;
      if f < 0 {
        f := f + length + 1;
        if f < 0 {
          f := 0;
        }
      }
      if t < 0 {
        t := t + length + 1;
        if t < 0 {
          t := 0;
        }
      }
      if f > length {
        f := length;
      }
      if t > length {
        t := length;
      }
      if t < f {
        return Panics;
      }
      return Rows(rows[f..t], f, t);
    }
  }
}
