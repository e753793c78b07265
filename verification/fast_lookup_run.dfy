/** The data helper's addBatchLookupTable8 on its fast path, as a function of
    its inputs and of the blocks the arena hands out: the rows of the
    unrolled blocks go into scratch states (module ScratchSpec), every
    flagged scratch state is merged into the caller's table, key by key and
    lane by lane, and the remaining rows are added directly, as on the
    generic path. */
module FastLookupRun {
  import opened Contract
  import opened StateMemory
  import opened BatchSpec
  import opened LookupSpec
  import opened LookupRun
  import opened ScratchSpec
  import opened FastLookupState

  /** merge(map[k] + place_offset, scratch state (j, k)) when that scratch
      state is flagged, `map[k]` being initialized first when it is null. */
  function MergeSlot<S, V, R>(fn: AggregateFunction<S, V, R>, c: Cursor<S, V>, sc: Scratch<S>, k: nat, j: nat,
                              bases: seq<nat>, offset: nat): (c': Cursor<S, V>)
    requires |c.t| == KeyCount && WellSized(sc) && k < KeyCount && j < LaneCount
    ensures |c'.t| == KeyCount && c.used <= c'.used && (c'.aboveLive ==> c.aboveLive)
  {
    if !sc.has[Slot(j, k)] then c
    else
      var c1 := FindRow(fn, c, k, bases, offset);
      var e := Merged(c1.t[k].addr + offset, sc.slots[Slot(j, k)]);
      c1.(st := Step(fn, c1.st, e), es := c1.es + [e])
  }

  /** Lanes `[0, j)` of key `k`. */
  function MergeLanes<S, V, R>(fn: AggregateFunction<S, V, R>, c: Cursor<S, V>, sc: Scratch<S>, k: nat, j: nat,
                               bases: seq<nat>, offset: nat): (c': Cursor<S, V>)
    requires |c.t| == KeyCount && WellSized(sc) && k < KeyCount && j <= LaneCount
    ensures |c'.t| == KeyCount && c.used <= c'.used && (c'.aboveLive ==> c.aboveLive)
    decreases j
  {
    if j == 0 then c else MergeSlot(fn, MergeLanes(fn, c, sc, k, j - 1, bases, offset), sc, k, j - 1, bases, offset)
  }

  /** Keys `[0, k)`, all lanes of each. */
  function MergeKeys<S, V, R>(fn: AggregateFunction<S, V, R>, c: Cursor<S, V>, sc: Scratch<S>, k: nat,
                              bases: seq<nat>, offset: nat): (c': Cursor<S, V>)
    requires |c.t| == KeyCount && WellSized(sc) && k <= KeyCount
    ensures |c'.t| == KeyCount && c.used <= c'.used && (c'.aboveLive ==> c.aboveLive)
    decreases k
  {
    if k == 0 then c else MergeKey(fn, MergeKeys(fn, c, sc, k - 1, bases, offset), sc, k - 1, bases, offset)
  }

  /** All lanes of key `k`: as many as the scratch has flags per key. */
  function MergeKey<S, V, R>(fn: AggregateFunction<S, V, R>, c: Cursor<S, V>, sc: Scratch<S>, k: nat,
                             bases: seq<nat>, offset: nat): (c': Cursor<S, V>)
    requires |c.t| == KeyCount && WellSized(sc) && k < KeyCount
    ensures |c'.t| == KeyCount && c.used <= c'.used && (c'.aboveLive ==> c.aboveLive)
  {
    MergeLanes(fn, c, sc, k, |sc.has| / KeyCount, bases, offset)
  }

  /** Where the fast path's unrolled loop stops. */
  function FastEnd(lo: nat, hi: nat): (e: nat)
    requires lo <= hi
    ensures lo <= e <= hi && (e - lo) % 4 == 0
  {
    UnrolledEndInRange(lo, hi, 4, lo);
    UnrolledEnd(lo, (hi - lo) / 4 * 4, 4)
  }

  /** How many blocks of four rows the fast path's unrolled loop takes. */
  function FastBlocks(lo: nat, hi: nat): (n: nat)
    requires lo <= hi
    ensures lo + 4 * n == FastEnd(lo, hi)
  {
    (FastEnd(lo, hi) - lo) / 4
  }

  /** The whole fast path on rows `[lo, hi)`: the unrolled blocks into the
      scratch, the scratch merged into the table, then the remaining rows. */
  function FastRun<S, V, R>(fn: AggregateFunction<S, V, R>, c: Cursor<S, V>, key: seq<UInt8>, col: seq<V>, lo: nat, hi: nat,
                            bases: seq<nat>, offset: nat): (c': Cursor<S, V>)
    requires |c.t| == KeyCount && lo <= hi <= |key| && hi <= |col|
  {
    var n := FastBlocks(lo, hi);
    var sc := FillBlocks(fn, key, col, lo, n);
    Tail(fn, MergeKeys(fn, c, sc, |c.t|, bases, offset), key, col, FastEnd(lo, hi), hi, bases, offset)
  }

  /** The values each key receives on the fast path over rows `[lo, hi)`:
      those of the unrolled blocks, lane after lane, then those of the
      remaining rows in row order. */
  function FastVals<V>(key: seq<UInt8>, col: seq<V>, lo: nat, hi: nat): (vals: seq<seq<V>>)
    requires lo <= hi <= |key| && hi <= |col|
    ensures |vals| == KeyCount
  {
    var n := FastBlocks(lo, hi);
    TailVals(MergedVals(key, col, lo, n, KeyCount, 0), key, col, FastEnd(lo, hi), hi)
  }

  // ---------------------------------------------------------------------
  // A run only reads the blocks it has used.

  lemma MergeSlotStable<S, V, R>(fn: AggregateFunction<S, V, R>, c: Cursor<S, V>, sc: Scratch<S>, k: nat, j: nat,
                                 bases: seq<nat>, bases': seq<nat>, offset: nat)
    requires |c.t| == KeyCount && WellSized(sc) && k < KeyCount && j < LaneCount
    requires MergeSlot(fn, c, sc, k, j, bases, offset).used <= |bases| && bases <= bases'
    ensures MergeSlot(fn, c, sc, k, j, bases', offset) == MergeSlot(fn, c, sc, k, j, bases, offset)
  {
    if sc.has[Slot(j, k)] {
      FindRowStable(fn, c, k, bases, bases', offset);
    }
  }

  lemma {:induction false} MergeLanesStable<S, V, R>(fn: AggregateFunction<S, V, R>, c: Cursor<S, V>, sc: Scratch<S>, k: nat, j: nat,
                                                    bases: seq<nat>, bases': seq<nat>, offset: nat)
    requires |c.t| == KeyCount && WellSized(sc) && k < KeyCount && j <= LaneCount
    requires MergeLanes(fn, c, sc, k, j, bases, offset).used <= |bases| && bases <= bases'
    ensures MergeLanes(fn, c, sc, k, j, bases', offset) == MergeLanes(fn, c, sc, k, j, bases, offset)
    decreases j
  {
    if j > 0 {
      MergeLanesStable(fn, c, sc, k, j - 1, bases, bases', offset);
      MergeSlotStable(fn, MergeLanes(fn, c, sc, k, j - 1, bases, offset), sc, k, j - 1, bases, bases', offset);
    }
  }

  lemma {:induction false} MergeKeysStable<S, V, R>(fn: AggregateFunction<S, V, R>, c: Cursor<S, V>, sc: Scratch<S>, k: nat,
                                                   bases: seq<nat>, bases': seq<nat>, offset: nat)
    requires |c.t| == KeyCount && WellSized(sc) && k <= KeyCount
    requires MergeKeys(fn, c, sc, k, bases, offset).used <= |bases| && bases <= bases'
    ensures MergeKeys(fn, c, sc, k, bases', offset) == MergeKeys(fn, c, sc, k, bases, offset)
    decreases k
  {
    if k > 0 {
      MergeKeysStable(fn, c, sc, k - 1, bases, bases', offset);
      MergeKeyStable(fn, MergeKeys(fn, c, sc, k - 1, bases, offset), sc, k - 1, bases, bases', offset);
    }
  }

  lemma MergeKeyStable<S, V, R>(fn: AggregateFunction<S, V, R>, c: Cursor<S, V>, sc: Scratch<S>, k: nat,
                                bases: seq<nat>, bases': seq<nat>, offset: nat)
    requires |c.t| == KeyCount && WellSized(sc) && k < KeyCount
    requires MergeKey(fn, c, sc, k, bases, offset).used <= |bases| && bases <= bases'
    ensures MergeKey(fn, c, sc, k, bases', offset) == MergeKey(fn, c, sc, k, bases, offset)
  {
    MergeLanesStable(fn, c, sc, k, |sc.has| / KeyCount, bases, bases', offset);
  }

  // ---------------------------------------------------------------------
  // What a fast run means.

  /** Merging scratch state (`j`, `k`), which holds lane `j`'s values of key
      `k`, gives key `k` those values. */
  lemma MergeSlotMeaning<S(!new), V(!new), R>(fn: AggregateFunction<S, V, R>, c: Cursor<S, V>, c': Cursor<S, V>, sc: Scratch<S>,
                                              t0: seq<Ptr>, m0: map<nat, S>, offset: nat, key: seq<UInt8>, col: seq<V>,
                                              lo: nat, n: nat, k: nat, j: nat, bases: seq<nat>, vals: seq<seq<V>>, vals': seq<seq<V>>)
    requires MergeIsFold(fn) && WellSized(sc) && k < KeyCount && j < LaneCount && lo + 4 * n <= |key| && lo + 4 * n <= |col|
    requires vals == MergedVals(key, col, lo, n, k, j) && vals' == MergedVals(key, col, lo, n, k, j + 1)
    requires LaneHolds(fn, sc, key, col, lo, n, j, k)
    requires FastState(fn, c, t0, m0, offset, vals)
    requires c' == MergeSlot(fn, c, sc, k, j, bases, offset) && c'.aboveLive
    ensures FastState(fn, c', t0, m0, offset, vals')
  {
    var lane := LaneValues(key, col, lo, n, j, k);
    MergedValsStep(key, col, lo, n, k, j);
    if !sc.has[Slot(j, k)] {
      assert lane == [] && vals[k] + lane == vals[k];
      assert vals[k := vals[k]] == vals;
    } else {
      MergeSlotHit(fn, c, c', sc, t0, m0, offset, vals, lane, k, j, bases);
    }
  }

  /** The flagged case of the above. */
  lemma MergeSlotHit<S(!new), V(!new), R>(fn: AggregateFunction<S, V, R>, c: Cursor<S, V>, c': Cursor<S, V>, sc: Scratch<S>,
                                          t0: seq<Ptr>, m0: map<nat, S>, offset: nat, vals: seq<seq<V>>, lane: seq<V>,
                                          k: nat, j: nat, bases: seq<nat>)
    requires MergeIsFold(fn) && WellSized(sc) && k < KeyCount && j < LaneCount
    requires SlotHolds(fn, sc, j, k, lane) && sc.has[Slot(j, k)]
    requires FastState(fn, c, t0, m0, offset, vals)
    requires c' == MergeSlot(fn, c, sc, k, j, bases, offset) && c'.aboveLive
    ensures FastState(fn, c', t0, m0, offset, vals[k := vals[k] + lane])
  {
    var c1 := FindRow(fn, c, k, bases, offset);
    var p := c1.t[k].addr + offset;
    var rhs := sc.slots[Slot(j, k)];
    assert c' == c1.(st := Step(fn, c1.st, Merged(p, rhs)), es := c1.es + [Merged(p, rhs)]);
    FindFast(fn, c, c1, t0, m0, offset, vals, k, bases);
    var s0 := Start(fn, t0, m0, offset, k);
    MergeFold(fn, s0, vals[k], lane);
    StepMerged(fn, c1.st, p, rhs);
    EventsSnoc(c1.es, Merged(p, rhs));
    ApplyFast(fn, c1, c', t0, m0, offset, vals, k, p, lane, fn.merge(c1.st[p], rhs));
  }

  lemma {:induction false} MergeLanesMeaning<S(!new), V(!new), R>(fn: AggregateFunction<S, V, R>, c: Cursor<S, V>, c': Cursor<S, V>,
                                                                 sc: Scratch<S>, t0: seq<Ptr>, m0: map<nat, S>, offset: nat,
                                                                 key: seq<UInt8>, col: seq<V>, lo: nat, n: nat, k: nat, j: nat,
                                                                 bases: seq<nat>, vals0: seq<seq<V>>, vals: seq<seq<V>>)
    requires MergeIsFold(fn) && WellSized(sc) && k < KeyCount && j <= LaneCount && lo + 4 * n <= |key| && lo + 4 * n <= |col|
    requires vals0 == MergedVals(key, col, lo, n, k, 0) && vals == MergedVals(key, col, lo, n, k, j)
    requires ScratchHolds(fn, sc, key, col, lo, n)
    requires FastState(fn, c, t0, m0, offset, vals0)
    requires c' == MergeLanes(fn, c, sc, k, j, bases, offset) && c'.aboveLive
    ensures FastState(fn, c', t0, m0, offset, vals)
    decreases j
  {
    if j > 0 {
      var p := j - 1;
      var c1 := MergeLanes(fn, c, sc, k, p, bases, offset);
      MergeLanesLast(fn, c, c1, c', sc, k, p, j, bases, offset);
      var vals1 := MergedVals(key, col, lo, n, k, p);
      MergeLanesMeaning(fn, c, c1, sc, t0, m0, offset, key, col, lo, n, k, p, bases, vals0, vals1);
      assert LaneHolds(fn, sc, key, col, lo, n, p, k);
      MergeSlotMeaning(fn, c1, c', sc, t0, m0, offset, key, col, lo, n, k, p, bases, vals1, vals);
    } else {
      assert c' == c;
    }
  }

  /** The last lane merged: lane `p` of key `k`, after the lanes before it. */
  lemma MergeLanesLast<S, V, R>(fn: AggregateFunction<S, V, R>, c: Cursor<S, V>, c1: Cursor<S, V>, c': Cursor<S, V>, sc: Scratch<S>,
                                k: nat, p: nat, j: nat, bases: seq<nat>, offset: nat)
    requires |c.t| == KeyCount && WellSized(sc) && k < KeyCount && j == p + 1 && j <= LaneCount
    requires c1 == MergeLanes(fn, c, sc, k, p, bases, offset) && c' == MergeLanes(fn, c, sc, k, j, bases, offset)
    ensures c' == MergeSlot(fn, c1, sc, k, p, bases, offset) && (c'.aboveLive ==> c1.aboveLive)
  {
  }

  /** The last key merged: key `p`, after the keys before it. */
  lemma MergeKeysLast<S, V, R>(fn: AggregateFunction<S, V, R>, c: Cursor<S, V>, c1: Cursor<S, V>, c': Cursor<S, V>, sc: Scratch<S>,
                               p: nat, k: nat, bases: seq<nat>, offset: nat)
    requires |c.t| == KeyCount && WellSized(sc) && k == p + 1 && k <= KeyCount
    requires c1 == MergeKeys(fn, c, sc, p, bases, offset) && c' == MergeKeys(fn, c, sc, k, bases, offset)
    ensures c' == MergeKey(fn, c1, sc, p, bases, offset) && (c'.aboveLive ==> c1.aboveLive)
  {
  }

  /** Merging every lane of key `k`. */
  lemma MergeKeyMeaning<S(!new), V(!new), R>(fn: AggregateFunction<S, V, R>, c: Cursor<S, V>, c': Cursor<S, V>,
                                             sc: Scratch<S>, t0: seq<Ptr>, m0: map<nat, S>, offset: nat,
                                             key: seq<UInt8>, col: seq<V>, lo: nat, n: nat, k: nat, bases: seq<nat>,
                                             vals: seq<seq<V>>, vals': seq<seq<V>>)
    requires MergeIsFold(fn) && WellSized(sc) && k < KeyCount && lo + 4 * n <= |key| && lo + 4 * n <= |col|
    requires vals == MergedVals(key, col, lo, n, k, 0) && vals' == MergedVals(key, col, lo, n, k + 1, 0)
    requires ScratchHolds(fn, sc, key, col, lo, n)
    requires FastState(fn, c, t0, m0, offset, vals)
    requires c' == MergeKey(fn, c, sc, k, bases, offset) && c'.aboveLive
    ensures FastState(fn, c', t0, m0, offset, vals')
  {
    assert |sc.has| / KeyCount == LaneCount;
    MergedValsNext(key, col, lo, n, k);
    MergeLanesMeaning(fn, c, c', sc, t0, m0, offset, key, col, lo, n, k, LaneCount, bases, vals, vals');
  }

  lemma {:induction false} MergeKeysMeaning<S(!new), V(!new), R>(fn: AggregateFunction<S, V, R>, c: Cursor<S, V>, c': Cursor<S, V>,
                                                                sc: Scratch<S>, t0: seq<Ptr>, m0: map<nat, S>, offset: nat,
                                                                key: seq<UInt8>, col: seq<V>, lo: nat, n: nat, k: nat,
                                                                bases: seq<nat>, vals0: seq<seq<V>>, vals: seq<seq<V>>)
    requires MergeIsFold(fn) && WellSized(sc) && k <= KeyCount && lo + 4 * n <= |key| && lo + 4 * n <= |col|
    requires vals0 == MergedVals(key, col, lo, n, 0, 0) && vals == MergedVals(key, col, lo, n, k, 0)
    requires ScratchHolds(fn, sc, key, col, lo, n)
    requires FastState(fn, c, t0, m0, offset, vals0)
    requires c' == MergeKeys(fn, c, sc, k, bases, offset) && c'.aboveLive
    ensures FastState(fn, c', t0, m0, offset, vals)
    decreases k
  {
    if k > 0 {
      var p := k - 1;
      var c1 := MergeKeys(fn, c, sc, p, bases, offset);
      MergeKeysLast(fn, c, c1, c', sc, p, k, bases, offset);
      var vals1 := MergedVals(key, col, lo, n, p, 0);
      MergeKeysMeaning(fn, c, c1, sc, t0, m0, offset, key, col, lo, n, p, bases, vals0, vals1);
      MergeKeyMeaning(fn, c1, c', sc, t0, m0, offset, key, col, lo, n, p, bases, vals1, vals);
    } else {
      assert c' == c;
    }
  }

  /** Tail row `r`: find the entry of its key, then add the row to it. */
  lemma FastTailStep<S, V, R>(fn: AggregateFunction<S, V, R>, c: Cursor<S, V>, c1: Cursor<S, V>, c': Cursor<S, V>, t0: seq<Ptr>,
                              m0: map<nat, S>, offset: nat, base: seq<seq<V>>, key: seq<UInt8>, col: seq<V>, e: nat, r: nat,
                              bases: seq<nat>, vals: seq<seq<V>>, vals': seq<seq<V>>)
    requires |base| == KeyCount && e <= r < |key| && r < |col|
    requires vals == TailVals(base, key, col, e, r) && vals' == TailVals(base, key, col, e, r + 1)
    requires FastState(fn, c, t0, m0, offset, vals)
    requires c1 == FindRow(fn, c, key[r] as nat, bases, offset) && c1.aboveLive
    requires c' == AddRow(fn, c1, key, col, r, offset)
    ensures FastState(fn, c', t0, m0, offset, vals')
  {
    var k := key[r] as nat;
    FindFast(fn, c, c1, t0, m0, offset, vals, k, bases);
    AddFast(fn, c1, c', t0, m0, offset, vals, key, col, r, k);
    TailValsStep(base, key, col, e, r);
  }

  /** Adding row `r` to the entry of its key `k`, which holds the values
      `vals[k]`, gives that key the row's value. */
  lemma AddFast<S, V, R>(fn: AggregateFunction<S, V, R>, c1: Cursor<S, V>, c': Cursor<S, V>, t0: seq<Ptr>, m0: map<nat, S>,
                         offset: nat, vals: seq<seq<V>>, key: seq<UInt8>, col: seq<V>, r: nat, k: nat)
    requires FastTable(c1, t0, m0, offset) && |vals| == KeyCount && KeysReached(fn, c1.t, c1.st, t0, m0, offset, vals, k)
    requires r < |key| && r < |col| && k == key[r] as nat && c1.t[k].At? && c1.t[k].addr + offset in c1.st
    requires c1.st[c1.t[k].addr + offset] == Fold(fn.add, Start(fn, t0, m0, offset, k), vals[k])
    requires c' == AddRow(fn, c1, key, col, r, offset)
    ensures FastState(fn, c', t0, m0, offset, vals[k := vals[k] + [col[r]]])
  {
    var p := c1.t[k].addr + offset;
    AddRowAt(fn, c1, c', key, col, r, k, p, offset);
    AddFold(fn, Start(fn, t0, m0, offset, k), vals[k], col[r]);
    ApplyFast(fn, c1, c', t0, m0, offset, vals, k, p, [col[r]], fn.add(c1.st[p], col[r]));
  }

  /** The rows of the tail, `[e, r)`, each added to its key's state. */
  lemma {:induction false} FastTailMeaning<S, V, R>(fn: AggregateFunction<S, V, R>, c: Cursor<S, V>, c': Cursor<S, V>, t0: seq<Ptr>,
                                                   m0: map<nat, S>, offset: nat, base: seq<seq<V>>, key: seq<UInt8>, col: seq<V>,
                                                   e: nat, r: nat, bases: seq<nat>, vals: seq<seq<V>>)
    requires |base| == KeyCount && e <= r <= |key| && r <= |col| && vals == TailVals(base, key, col, e, r)
    requires FastState(fn, c, t0, m0, offset, base)
    requires c' == Tail(fn, c, key, col, e, r, bases, offset) && c'.aboveLive
    ensures FastState(fn, c', t0, m0, offset, vals)
    decreases r
  {
    if r > e {
      var p := r - 1;
      var c1 := Tail(fn, c, key, col, e, p, bases, offset);
      var c2 := FindRow(fn, c1, key[p] as nat, bases, offset);
      TailLast(fn, c, c1, c2, c', key, col, e, p, r, bases, offset);
      var vals1 := TailVals(base, key, col, e, p);
      FastTailMeaning(fn, c, c1, t0, m0, offset, base, key, col, e, p, bases, vals1);
      FastTailStep(fn, c1, c2, c', t0, m0, offset, base, key, col, e, p, bases, vals1, vals);
    } else {
      assert c' == c;
      TailValsStart(base, key, col, e);
    }
  }

  /** Adding a row whose entry, that of key `k`, is set to the live place `p`. */
  lemma AddRowAt<S, V, R>(fn: AggregateFunction<S, V, R>, c1: Cursor<S, V>, c': Cursor<S, V>, key: seq<UInt8>, col: seq<V>,
                          r: nat, k: nat, p: nat, offset: nat)
    requires |c1.t| == KeyCount && r < |key| && r < |col| && k == key[r] as nat && c1.t[k].At?
    requires p == c1.t[k].addr + offset && p in c1.st
    requires c' == AddRow(fn, c1, key, col, r, offset)
    ensures c'.t == c1.t && c'.st == c1.st[p := fn.add(c1.st[p], col[r])]
    ensures CreatesOf(c'.es) == CreatesOf(c1.es)
  {
    StepAdded(fn, c1.st, p, r, col[r]);
    EventsSnoc(c1.es, Added(p, r, col[r]));
  }

  /** The first two phases of a fast run whose blocks were fresh: once the
      scratch is merged, every key has received the values of its rows in
      the unrolled blocks, lane after lane. */
  lemma FastMergeMeaning<S(!new), V(!new), R>(fn: AggregateFunction<S, V, R>, t0: seq<Ptr>, m0: map<nat, S>, offset: nat,
                                              key: seq<UInt8>, col: seq<V>, lo: nat, n: nat, bases: seq<nat>, vals: seq<seq<V>>)
    requires MergeIsFold(fn) && |t0| == KeyCount && lo + 4 * n <= |key| && lo + 4 * n <= |col|
    requires TableLive(t0, m0, offset) && Injective(t0) && vals == MergedVals(key, col, lo, n, KeyCount, 0)
    ensures var c1 := MergeKeys(fn, Cursor(t0, m0, [], 0, true), FillBlocks(fn, key, col, lo, n), |t0|, bases, offset);
            c1.aboveLive ==> FastState(fn, c1, t0, m0, offset, vals)
  {
    var c0 := Cursor(t0, m0, [], 0, true);
    var sc := FillBlocks(fn, key, col, lo, n);
    var c1 := MergeKeys(fn, c0, sc, |t0|, bases, offset);
    if c1.aboveLive {
      var vals0 := MergedVals(key, col, lo, n, 0, 0);
      FillBlocksHold(fn, key, col, lo, n);
      MergedValsStart(key, col, lo, n);
      FastStart(fn, t0, m0, offset, vals0);
      MergeKeysMeaning(fn, c0, c1, sc, t0, m0, offset, key, col, lo, n, |t0|, bases, vals0, vals);
    }
  }

  /** A whole fast run whose blocks were fresh: every key has received its
      values `FastVals`; the table and the live states are as `FastState`
      says. */
  lemma FastRunMeaning<S(!new), V(!new), R>(fn: AggregateFunction<S, V, R>, t0: seq<Ptr>, m0: map<nat, S>, offset: nat,
                                            key: seq<UInt8>, col: seq<V>, lo: nat, hi: nat, bases: seq<nat>, c': Cursor<S, V>)
    requires MergeIsFold(fn) && |t0| == KeyCount && lo <= hi <= |key| && hi <= |col|
    requires TableLive(t0, m0, offset) && Injective(t0)
    requires c' == FastRun(fn, Cursor(t0, m0, [], 0, true), key, col, lo, hi, bases, offset) && c'.aboveLive
    ensures FastState(fn, c', t0, m0, offset, FastVals(key, col, lo, hi))
  {
    var c0 := Cursor(t0, m0, [], 0, true);
    var n := FastBlocks(lo, hi);
    var e := FastEnd(lo, hi);
    var merged := MergedVals(key, col, lo, n, KeyCount, 0);
    var c1 := MergeKeys(fn, c0, FillBlocks(fn, key, col, lo, n), |t0|, bases, offset);
    var vals := FastVals(key, col, lo, hi);
    FastValsIs(key, col, lo, hi, n, e, merged, vals);
    FastRunIs(fn, c0, c1, c', key, col, lo, hi, n, e, bases, offset);
    FastMergeMeaning(fn, t0, m0, offset, key, col, lo, n, bases, merged);
    FastTailMeaning(fn, c1, c', t0, m0, offset, merged, key, col, e, hi, bases, vals);
  }

  /** The fast path's values: those of the merged blocks, then the tail's. */
  lemma FastValsIs<V>(key: seq<UInt8>, col: seq<V>, lo: nat, hi: nat, n: nat, e: nat, merged: seq<seq<V>>, vals: seq<seq<V>>)
    requires lo <= hi <= |key| && hi <= |col| && n == FastBlocks(lo, hi) && e == FastEnd(lo, hi)
    requires merged == MergedVals(key, col, lo, n, KeyCount, 0) && vals == FastVals(key, col, lo, hi)
    ensures e <= hi && vals == TailVals(merged, key, col, e, hi)
  {
  }

  /** The fast path's run: the blocks merged into the table, then the tail. */
  lemma FastRunIs<S, V, R>(fn: AggregateFunction<S, V, R>, c: Cursor<S, V>, c1: Cursor<S, V>, c': Cursor<S, V>, key: seq<UInt8>,
                           col: seq<V>, lo: nat, hi: nat, n: nat, e: nat, bases: seq<nat>, offset: nat)
    requires |c.t| == KeyCount && lo <= hi <= |key| && hi <= |col| && n == FastBlocks(lo, hi) && e == FastEnd(lo, hi)
    requires c1 == MergeKeys(fn, c, FillBlocks(fn, key, col, lo, n), |c.t|, bases, offset)
    requires c' == FastRun(fn, c, key, col, lo, hi, bases, offset)
    ensures c' == Tail(fn, c1, key, col, e, hi, bases, offset)
  {
  }
}
