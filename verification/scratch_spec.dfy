/** The first phase of the data helper's addBatchLookupTable8: rows go, four
    at a time, into 4 x 256 scratch states, one table of 256 per lane of the
    unrolled block, with a flag per scratch state that says whether it has
    received a row. */
module ScratchSpec {
  import opened Contract

  /** The lanes of one unrolled block of the fast path (UNROLL_COUNT there). */
  const LaneCount: nat := 4

  /** The number of scratch states: one per lane and key. */
  const SlotCount: nat := 1024

  /** The scratch state of lane `j` for key `k`: `j * 256 + k`. */
  function Slot(j: nat, k: nat): (idx: nat)
    requires j < LaneCount && k < 256
    ensures idx < SlotCount
  {
    j * 256 + k
  }

  /** The scratch states and their flags (`places` and `has_data`). */
  datatype Scratch<S> = Scratch(slots: seq<S>, has: seq<bool>)

  predicate WellSized<S>(sc: Scratch<S>)
  {
    |sc.slots| == SlotCount && |sc.has| == SlotCount
  }

  /** The scratch on entry: no flag set. The states themselves are
      default-constructed, which the model takes as empty states. */
  function FreshScratch<S, V, R>(fn: AggregateFunction<S, V, R>): (sc: Scratch<S>)
    ensures WellSized(sc) && forall idx :: 0 <= idx < SlotCount ==> !sc.has[idx]
  {
    Scratch(seq(SlotCount, _ => fn.empty), seq(SlotCount, _ => false))
  }

  /** One row into scratch state `idx`: constructed first when its flag is
      clear, then the row's values added. */
  function Fill<S, V, R>(fn: AggregateFunction<S, V, R>, sc: Scratch<S>, idx: nat, v: V): (sc': Scratch<S>)
    requires WellSized(sc) && idx < SlotCount
    ensures WellSized(sc')
  {
    var s := if sc.has[idx] then sc.slots[idx] else fn.empty;
    Scratch(sc.slots[idx := fn.add(s, v)], sc.has[idx := true])
  }

  /** Lanes `[0, j)` of the block starting at row `i`: row `i + lane` goes to
      the scratch state of its lane and key. */
  function FillLanes<S, V, R>(fn: AggregateFunction<S, V, R>, sc: Scratch<S>, key: seq<UInt8>, col: seq<V>, i: nat, j: nat): (sc': Scratch<S>)
    requires WellSized(sc) && j <= LaneCount && i + j <= |key| && i + j <= |col|
    ensures WellSized(sc')
    decreases j
  {
    if j == 0 then sc
    else Fill(fn, FillLanes(fn, sc, key, col, i, j - 1), Slot(j - 1, key[i + j - 1]), col[i + j - 1])
  }

  /** The first row of block `b` of the rows from `lo`. */
  function BlockStart(lo: nat, b: nat): nat
  {
    lo + 4 * b
  }

  /** The scratch after the first `n` blocks of rows from `lo`. */
  function FillBlocks<S, V, R>(fn: AggregateFunction<S, V, R>, key: seq<UInt8>, col: seq<V>, lo: nat, n: nat): (sc: Scratch<S>)
    requires lo + 4 * n <= |key| && lo + 4 * n <= |col|
    ensures WellSized(sc)
    decreases n
  {
    if n == 0 then FreshScratch(fn)
    else FillLanes(fn, FillBlocks(fn, key, col, lo, n - 1), key, col, BlockStart(lo, n - 1), LaneCount)
  }

  /** The values of the rows in lane `j` of the first `n` blocks from `lo`
      whose key is `k`, in row order. */
  function LaneValues<V>(key: seq<UInt8>, col: seq<V>, lo: nat, n: nat, j: nat, k: nat): seq<V>
    requires j < LaneCount && lo + 4 * n <= |key| && lo + 4 * n <= |col|
    decreases n
  {
    if n == 0 then []
    else
      var r := lo + 4 * (n - 1) + j;
      LaneValues(key, col, lo, n - 1, j, k) + (if key[r] == k then [col[r]] else [])
  }

  /** A scratch state holds the values `vs`: its flag is set exactly when
      `vs` is not empty, and then it is an empty state with `vs` added in order. */
  ghost predicate SlotHolds<S, V, R>(fn: AggregateFunction<S, V, R>, sc: Scratch<S>, j: nat, k: nat, vs: seq<V>)
    requires WellSized(sc) && j < LaneCount && k < 256
  {
    (sc.has[Slot(j, k)] <==> vs != []) && (sc.has[Slot(j, k)] ==> sc.slots[Slot(j, k)] == Fold(fn.add, fn.empty, vs))
  }

  /** The scratch state of lane `j` and key `k` holds that lane's values for that key. */
  ghost predicate LaneHolds<S, V, R>(fn: AggregateFunction<S, V, R>, sc: Scratch<S>, key: seq<UInt8>, col: seq<V>, lo: nat, n: nat,
                                     j: nat, k: nat)
    requires WellSized(sc) && lo + 4 * n <= |key| && lo + 4 * n <= |col| && j < LaneCount && k < 256
  {
    SlotHolds(fn, sc, j, k, LaneValues(key, col, lo, n, j, k))
  }

  /** Every scratch state holds its lane's values for its key. */
  ghost predicate ScratchHolds<S, V, R>(fn: AggregateFunction<S, V, R>, sc: Scratch<S>, key: seq<UInt8>, col: seq<V>, lo: nat, n: nat)
    requires WellSized(sc) && lo + 4 * n <= |key| && lo + 4 * n <= |col|
  {
    match sc
    case Scratch(_, _) => forall j, k :: 0 <= j < LaneCount && 0 <= k < 256 ==> LaneHolds(fn, sc, key, col, lo, n, j, k)
  }

  /** Filling lanes `[0, jj)` of a block adds row `i + j` to the scratch
      state of lane `j` and its key... */
  lemma {:induction false} FillLanesHit<S, V, R>(fn: AggregateFunction<S, V, R>, sc: Scratch<S>, key: seq<UInt8>, col: seq<V>,
                                                i: nat, jj: nat, j: nat)
    requires WellSized(sc) && jj <= LaneCount && i + jj <= |key| && i + jj <= |col| && j < jj
    ensures var sc', idx := FillLanes(fn, sc, key, col, i, jj), Slot(j, key[i + j]);
            sc'.has[idx] && sc'.slots[idx] == fn.add(if sc.has[idx] then sc.slots[idx] else fn.empty, col[i + j])
    decreases jj
  {
    if j < jj - 1 {
      FillLanesHit(fn, sc, key, col, i, jj - 1, j);
      var sc1 := FillLanes(fn, sc, key, col, i, jj - 1);
      FillElsewhere(fn, sc1, Slot(jj - 1, key[i + jj - 1]), col[i + jj - 1], Slot(j, key[i + j]));
    } else {
      FillLanesMiss(fn, sc, key, col, i, 0, j, j, key[i + j]);
    }
  }

  /** ... and leaves every other scratch state of lanes `[from, jj)` alone. */
  lemma {:induction false} FillLanesMiss<S, V, R>(fn: AggregateFunction<S, V, R>, sc: Scratch<S>, key: seq<UInt8>, col: seq<V>,
                                                 i: nat, from: nat, jj: nat, j: nat, k: nat)
    requires WellSized(sc) && from <= jj <= LaneCount && i + jj <= |key| && i + jj <= |col| && j < LaneCount && k < 256
    requires !(from <= j < jj && key[i + j] == k)
    ensures var sc0, sc' := FillLanes(fn, sc, key, col, i, from), FillLanes(fn, sc, key, col, i, jj);
            sc'.has[Slot(j, k)] == sc0.has[Slot(j, k)] && sc'.slots[Slot(j, k)] == sc0.slots[Slot(j, k)]
    decreases jj
  {
    if jj > from {
      FillLanesMiss(fn, sc, key, col, i, from, jj - 1, j, k);
      var sc1 := FillLanes(fn, sc, key, col, i, jj - 1);
      FillElsewhere(fn, sc1, Slot(jj - 1, key[i + jj - 1]), col[i + jj - 1], Slot(j, k));
    }
  }

  /** A row into one scratch state leaves the others alone. */
  lemma FillElsewhere<S, V, R>(fn: AggregateFunction<S, V, R>, sc: Scratch<S>, idx: nat, v: V, other: nat)
    requires WellSized(sc) && idx < SlotCount && other < SlotCount && other != idx
    ensures Fill(fn, sc, idx, v).has[other] == sc.has[other] && Fill(fn, sc, idx, v).slots[other] == sc.slots[other]
  {
  }

  /** One more block, from row `i`, keeps every scratch state holding its lane's values. */
  lemma FillBlockHolds<S, V, R>(fn: AggregateFunction<S, V, R>, sc: Scratch<S>, sc': Scratch<S>, key: seq<UInt8>, col: seq<V>,
                                lo: nat, n: nat, i: nat, n': nat)
    requires WellSized(sc) && i == lo + 4 * n && n' == n + 1 && lo + 4 * n' <= |key| && lo + 4 * n' <= |col|
    requires ScratchHolds(fn, sc, key, col, lo, n) && sc' == FillLanes(fn, sc, key, col, i, LaneCount)
    ensures ScratchHolds(fn, sc', key, col, lo, n')
  {
    forall j, k | 0 <= j < LaneCount && 0 <= k < 256
      ensures LaneHolds(fn, sc', key, col, lo, n', j, k)
    {
      var vs := LaneValues(key, col, lo, n, j, k);
      assert LaneHolds(fn, sc, key, col, lo, n, j, k);
      if key[i + j] == k {
        FillLanesHit(fn, sc, key, col, i, LaneCount, j);
        assert LaneValues(key, col, lo, n', j, k) == vs + [col[i + j]];
        assert Fold(fn.add, fn.empty, vs + [col[i + j]]) == fn.add(Fold(fn.add, fn.empty, vs), col[i + j]) by {
          assert (vs + [col[i + j]])[..|vs|] == vs;
        }
      } else {
        FillLanesMiss(fn, sc, key, col, i, 0, LaneCount, j, k);
        assert LaneValues(key, col, lo, n', j, k) == vs + [];
        assert vs + [] == vs;
      }
    }
  }

  /** Before any block, no scratch state is flagged and no lane has values. */
  lemma FreshScratchHolds<S, V, R>(fn: AggregateFunction<S, V, R>, key: seq<UInt8>, col: seq<V>, lo: nat)
    requires lo <= |key| && lo <= |col|
    ensures ScratchHolds(fn, FreshScratch(fn), key, col, lo, 0)
  {
    forall j, k | 0 <= j < LaneCount && 0 <= k < 256
      ensures LaneHolds(fn, FreshScratch(fn), key, col, lo, 0, j, k)
    {
      assert !FreshScratch(fn).has[Slot(j, k)];
    }
  }

  /** The blocks up to `n` are those up to `prev` and then block `prev`,
      which starts at row `i`. */
  lemma FillBlocksNext<S, V, R>(fn: AggregateFunction<S, V, R>, key: seq<UInt8>, col: seq<V>, lo: nat, prev: nat, n: nat, i: nat)
    requires n == prev + 1 && i == BlockStart(lo, prev) && lo + 4 * n <= |key| && lo + 4 * n <= |col|
    ensures i + LaneCount <= |key| && i + LaneCount <= |col|
    ensures FillBlocks(fn, key, col, lo, n) == FillLanes(fn, FillBlocks(fn, key, col, lo, prev), key, col, i, LaneCount)
  {
  }

  /** After `n` blocks every scratch state holds the values of its lane's
      rows with its key, and is flagged exactly when there is one. */
  lemma {:induction false} FillBlocksHold<S, V, R>(fn: AggregateFunction<S, V, R>, key: seq<UInt8>, col: seq<V>, lo: nat, n: nat)
    requires lo + 4 * n <= |key| && lo + 4 * n <= |col|
    ensures ScratchHolds(fn, FillBlocks(fn, key, col, lo, n), key, col, lo, n)
    decreases n
  {
    if n == 0 {
      FreshScratchHolds(fn, key, col, lo);
    } else {
      var prev := n - 1;
      var i := BlockStart(lo, prev);
      FillBlocksHold(fn, key, col, lo, prev);
      FillBlocksNext(fn, key, col, lo, prev, n, i);
      FillBlockHolds(fn, FillBlocks(fn, key, col, lo, prev), FillBlocks(fn, key, col, lo, n), key, col, lo, prev, i, n);
    }
  }
}
