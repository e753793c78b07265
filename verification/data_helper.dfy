/** The data helper, for an aggregate function whose state is one fixed
    type: its addBatchLookupTable8, which takes a faster path when that
    type is small, needs no arena and is the whole state. The rows of the
    unrolled blocks go into 4 x 256 scratch states with a flag each, the
    flagged ones are merged into the caller's table, and the remaining rows
    are added directly. */
module DataHelper {
  import opened Contract
  import opened StateMemory
  import opened LookupSpec
  import opened LookupRun
  import opened ScratchSpec
  import opened FastLookupState
  import opened FastLookupRun
  import opened LookupEquivalence
  import opened AggregateFunctionHelper

  /** addBatchLookupTable8 of the data helper: the generic path of the
      helper when the fast path does not apply, the fast path otherwise.
      Either way the call is a run of its inputs and of the blocks `bases`
      the arena handed out; and with an accumulator whose adds commute and
      whose merge is a fold, both paths leave every key with the state its
      rows, added one by one in row order, give it. */
  method AddBatchLookupTable8<S(!new), V(!new), R>(fn: AggregateFunction<S, V, R>, mem: Memory<S, V>, lo: nat, hi: nat,
                                                  table: array<Ptr>, offset: nat, key: seq<UInt8>, col: seq<V>)
    returns (ghost bases: seq<nat>)
    requires table.Length == KeyCount && lo <= hi <= |key| && hi <= |col|
    requires TableLive(table[..], mem.states, offset) && Injective(table[..])
    modifies mem, table
    ensures !FastLookupPathApplies(fn) ==>
              var run := Run(fn, Cursor(old(table[..]), old(mem.states), [], 0, true), key, col, lo, hi, bases, offset);
              table[..] == run.t && mem.states == run.st && mem.log == old(mem.log) + run.es
    ensures FastLookupPathApplies(fn) ==>
              var run := FastRun(fn, Cursor(old(table[..]), old(mem.states), [], 0, true), key, col, lo, hi, bases, offset);
              table[..] == run.t && mem.states == run.st && mem.log == old(mem.log) + run.es
    ensures AddCommutes(fn) && MergeIsFold(fn) ==>
              KeysReached(fn, table[..], mem.states, old(table[..]), old(mem.states), offset, RowVals(key, col, lo, hi), -1)
  {
    ghost var t0, m0 := table[..], mem.states;
    if !FastLookupPathApplies(fn) {
      bases := AggregateFunctionHelper.AddBatchLookupTable8(fn, mem, lo, hi, table, offset, key, col);
      ghost var run := Run(fn, Cursor(t0, m0, [], 0, true), key, col, lo, hi, bases, offset);
      GenericReachesRowVals(fn, run, t0, m0, offset, key, col, lo, hi);
    } else {
      bases := AddBatchLookupTable8Fast(fn, mem, lo, hi, table, offset, key, col);
      ghost var run := FastRun(fn, Cursor(t0, m0, [], 0, true), key, col, lo, hi, bases, offset);
      if AddCommutes(fn) && MergeIsFold(fn) {
        FastMatchesGeneric(fn, run, t0, m0, offset, key, col, lo, hi);
      }
    }
  }

  /** The fast path. The scratch states are default-constructed, which the
      model takes as empty states, and every flag is clear. The call is the
      fast run of its inputs and of the blocks the arena handed out; with a
      merge that is a fold, what that means is `FastState`: each key has
      received the values of its rows, lane by lane, then the tail's. */
  method AddBatchLookupTable8Fast<S(!new), V(!new), R>(fn: AggregateFunction<S, V, R>, mem: Memory<S, V>, lo: nat, hi: nat,
                                                      table: array<Ptr>, offset: nat, key: seq<UInt8>, col: seq<V>)
    returns (ghost bases: seq<nat>)
    requires table.Length == KeyCount && lo <= hi <= |key| && hi <= |col|
    requires TableLive(table[..], mem.states, offset) && Injective(table[..])
    modifies mem, table
    ensures var run := FastRun(fn, Cursor(old(table[..]), old(mem.states), [], 0, true), key, col, lo, hi, bases, offset);
            table[..] == run.t && mem.states == run.st && mem.log == old(mem.log) + run.es && run.aboveLive
    ensures MergeIsFold(fn) ==>
              FastState(fn, FastRun(fn, Cursor(old(table[..]), old(mem.states), [], 0, true), key, col, lo, hi, bases, offset),
                        old(table[..]), old(mem.states), offset, FastVals(key, col, lo, hi))
  {
    ghost var log0 := mem.log;
    ghost var c0: Cursor<S, V> := Cursor(table[..], mem.states, [], 0, true);
    var e, c1, b1 := ScratchPhase(fn, mem, lo, hi, table, offset, key, col, c0, log0);
    var c, b2 := LookupTail(fn, mem, e, hi, table, offset, key, col, c1, b1, log0);
    MergeKeysStable(fn, c0, FillBlocks(fn, key, col, lo, FastBlocks(lo, hi)), KeyCount, b1, b2, offset);
    bases := b2;
    FastRunIs(fn, c0, c1, c, key, col, lo, hi, FastBlocks(lo, hi), e, bases, offset);
    if MergeIsFold(fn) {
      FastRunMeaning(fn, c0.t, c0.st, offset, key, col, lo, hi, bases, c);
    }
  }

  /** The scratch part of the fast path: 4 x 256 default-constructed
      scratch states with their flags clear, filled by the unrolled loop,
      then merged into the table. */
  method ScratchPhase<S, V, R>(fn: AggregateFunction<S, V, R>, mem: Memory<S, V>, lo: nat, hi: nat,
                               table: array<Ptr>, offset: nat, key: seq<UInt8>, col: seq<V>, ghost c0: Cursor<S, V>,
                               ghost log0: seq<Event<S, V>>)
    returns (e: nat, ghost c: Cursor<S, V>, ghost bases: seq<nat>)
    requires table.Length == KeyCount && lo <= hi <= |key| && hi <= |col|
    requires c0 == Cursor(table[..], mem.states, [], 0, true) && log0 == mem.log && TableLive(c0.t, c0.st, offset)
    modifies mem, table
    ensures e == FastEnd(lo, hi) && c.used == |bases| && c.aboveLive
    ensures c == MergeKeys(fn, c0, FillBlocks(fn, key, col, lo, FastBlocks(lo, hi)), KeyCount, bases, offset)
    ensures AtCursor(mem, table, c, log0) && TableLive(c.t, c.st, offset)
  {
    var slots := new S[SlotCount](_ => fn.empty);
    var has := new bool[SlotCount](_ => false);
    assert Scratch(slots[..], has[..]) == FreshScratch(fn);
    e := FillScratch(fn, slots, has, lo, hi, key, col);
    c, bases := MergeScratch(fn, mem, table, slots, has, offset, Scratch(slots[..], has[..]), c0, [], log0);
  }

  /** The unrolled loop of the fast path: blocks of four rows from `lo`
      while the row number is below the block count times four, each row
      into the scratch state of its lane and key. */
  method FillScratch<S, V, R>(fn: AggregateFunction<S, V, R>, slots: array<S>, has: array<bool>, lo: nat, hi: nat,
                              key: seq<UInt8>, col: seq<V>)
    returns (e: nat)
    requires slots.Length == SlotCount && has.Length == SlotCount && slots as object != has && lo <= hi <= |key| && hi <= |col|
    requires Scratch(slots[..], has[..]) == FreshScratch(fn)
    modifies slots, has
    ensures e == FastEnd(lo, hi) && Scratch(slots[..], has[..]) == FillBlocks(fn, key, col, lo, FastBlocks(lo, hi))
  {
    e := lo;
    ghost var n: nat := 0;
    var sizeUnrolled := UnrolledRows(lo, hi);
    while e < sizeUnrolled
      invariant lo <= e <= hi && e == BlockStart(lo, n)
      invariant e == lo || e - LaneCount < sizeUnrolled
      invariant Scratch(slots[..], has[..]) == FillBlocks(fn, key, col, lo, n)
    {
      FastBlockInRange(lo, hi, n, e, sizeUnrolled);
      n, e := FillNext(fn, slots, has, key, col, lo, n, e);
    }
    FastEndAt(lo, hi, n, e, sizeUnrolled);
  }

  /** The blocks up to `n`, from `lo`, followed by one more, from row `e`. */
  method FillNext<S, V, R>(fn: AggregateFunction<S, V, R>, slots: array<S>, has: array<bool>, key: seq<UInt8>, col: seq<V>,
                           lo: nat, ghost n: nat, e: nat)
    returns (ghost n': nat, e': nat)
    requires slots.Length == SlotCount && has.Length == SlotCount && slots as object != has
    requires e == BlockStart(lo, n) && e + LaneCount <= |key| && e + LaneCount <= |col|
    requires Scratch(slots[..], has[..]) == FillBlocks(fn, key, col, lo, n)
    modifies slots, has
    ensures n' == n + 1 && e' == e + LaneCount && e' == BlockStart(lo, n')
    ensures Scratch(slots[..], has[..]) == FillBlocks(fn, key, col, lo, n')
  {
    FillBlock(fn, slots, has, key, col, e);
    n', e' := n + 1, e + LaneCount;
    FillBlocksNext(fn, key, col, lo, n, n', e);
  }

  /** The bound of the unrolled loop: the row count rounded down to whole
      blocks (`size_unrolled`), which the loop compares with row numbers. */
  function UnrolledRows(lo: nat, hi: nat): nat
    requires lo <= hi
  {
    (hi - lo) / LaneCount * LaneCount
  }

  /** A block the unrolled loop enters lies within the rows. */
  lemma FastBlockInRange(lo: nat, hi: nat, n: nat, e: nat, limit: nat)
    requires lo <= hi && limit == UnrolledRows(lo, hi) && e == BlockStart(lo, n) && e < limit
    ensures e + LaneCount <= hi
  {
    assert (e - lo) % 4 == 0 by {
      assert e - lo == 4 * n;
    }
    UnrolledInRange(lo, hi, 4, e);
  }

  /** Where the unrolled loop leaves off is where the fast run's blocks end. */
  lemma FastEndAt(lo: nat, hi: nat, n: nat, e: nat, limit: nat)
    requires lo <= e <= hi && limit == UnrolledRows(lo, hi) && e == BlockStart(lo, n)
    requires limit <= e && (e == lo || e - LaneCount < limit)
    ensures e == FastEnd(lo, hi) && n == FastBlocks(lo, hi)
  {
    assert (e - lo) % 4 == 0 by {
      assert e - lo == 4 * n;
    }
    UnrolledEndAt(lo, limit, 4, e);
  }

  /** One unrolled block from row `i`: row `i + j` into scratch state
      `j * 256 + key[i + j]`. */
  method FillBlock<S, V, R>(fn: AggregateFunction<S, V, R>, slots: array<S>, has: array<bool>, key: seq<UInt8>, col: seq<V>, i: nat)
    requires slots.Length == SlotCount && has.Length == SlotCount && slots as object != has
    requires i + LaneCount <= |key| && i + LaneCount <= |col|
    modifies slots, has
    ensures Scratch(slots[..], has[..]) == FillLanes(fn, Scratch(old(slots[..]), old(has[..])), key, col, i, LaneCount)
  {
    ghost var sc0 := Scratch(slots[..], has[..]);
    var j := 0;
    while j < LaneCount
      invariant j <= LaneCount
      invariant Scratch(slots[..], has[..]) == FillLanes(fn, sc0, key, col, i, j)
    {
      FillSlot(fn, slots, has, j * 256 + key[i + j] as nat, col[i + j]);
      j := j + 1;
    }
  }

  /** One row into scratch state `idx`: constructed first when its flag is
      clear, the flag set, then the row added. */
  method FillSlot<S, V, R>(fn: AggregateFunction<S, V, R>, slots: array<S>, has: array<bool>, idx: nat, v: V)
    requires slots.Length == SlotCount && has.Length == SlotCount && slots as object != has && idx < SlotCount
    modifies slots, has
    ensures Scratch(slots[..], has[..]) == Fill(fn, Scratch(old(slots[..]), old(has[..])), idx, v)
  {
    if !has[idx] {
      slots[idx] := fn.empty;
      has[idx] := true;
    }
    slots[idx] := fn.add(slots[idx], v);
  }

  /** The merge loop of the fast path: for every key and lane whose
      scratch state is flagged, the key's entry (initialized first when it
      is null) receives a merge of that scratch state. */
  method MergeScratch<S, V, R>(fn: AggregateFunction<S, V, R>, mem: Memory<S, V>, table: array<Ptr>,
                               slots: array<S>, has: array<bool>, offset: nat, ghost sc: Scratch<S>,
                               ghost c0: Cursor<S, V>, ghost bases: seq<nat>, ghost log0: seq<Event<S, V>>)
    returns (ghost c: Cursor<S, V>, ghost bases': seq<nat>)
    requires table.Length == KeyCount && slots.Length == SlotCount && has.Length == SlotCount
    requires sc == Scratch(slots[..], has[..]) && c0.used == |bases|
    requires AtCursor(mem, table, c0, log0) && TableLive(c0.t, c0.st, offset)
    modifies mem, table
    ensures c == MergeKeys(fn, c0, sc, KeyCount, bases', offset) && c.used == |bases'| && c.aboveLive == c0.aboveLive
    ensures bases <= bases' && AtCursor(mem, table, c, log0) && TableLive(c.t, c.st, offset)
  {
    c, bases' := c0, bases;
    var k := 0;
    while k < KeyCount
      invariant k <= KeyCount && bases <= bases'
      invariant c == MergeKeys(fn, c0, sc, k, bases', offset) && c.used == |bases'| && c.aboveLive == c0.aboveLive
      invariant AtCursor(mem, table, c, log0) && TableLive(c.t, c.st, offset)
    {
      var c1, b1 := MergeKeyLanes(fn, mem, table, slots, has, offset, k, sc, c, bases', log0);
      MergeKeysStable(fn, c0, sc, k, bases', b1, offset);
      c, bases' := c1, b1;
      k := k + 1;
    }
  }

  /** The four lanes of key `k`. */
  method MergeKeyLanes<S, V, R>(fn: AggregateFunction<S, V, R>, mem: Memory<S, V>, table: array<Ptr>,
                                slots: array<S>, has: array<bool>, offset: nat, k: nat, ghost sc: Scratch<S>,
                                ghost c: Cursor<S, V>, ghost bases: seq<nat>, ghost log0: seq<Event<S, V>>)
    returns (ghost c': Cursor<S, V>, ghost bases': seq<nat>)
    requires table.Length == KeyCount && slots.Length == SlotCount && has.Length == SlotCount && k < KeyCount
    requires sc == Scratch(slots[..], has[..]) && c.used == |bases|
    requires AtCursor(mem, table, c, log0) && TableLive(c.t, c.st, offset)
    modifies mem, table
    ensures c' == MergeKey(fn, c, sc, k, bases', offset) && c'.used == |bases'| && c'.aboveLive == c.aboveLive
    ensures bases <= bases' && AtCursor(mem, table, c', log0) && TableLive(c'.t, c'.st, offset)
  {
    c', bases' := c, bases;
    var j := 0;
    while j < LaneCount
      invariant j <= LaneCount && bases <= bases'
      invariant c' == MergeLanes(fn, c, sc, k, j, bases', offset) && c'.used == |bases'| && c'.aboveLive == c.aboveLive
      invariant AtCursor(mem, table, c', log0) && TableLive(c'.t, c'.st, offset)
    {
      var c1, b1 := MergeLane(fn, mem, table, slots, has, offset, k, j, sc, c', bases', log0);
      MergeLanesStable(fn, c, sc, k, j, bases', b1, offset);
      c', bases' := c1, b1;
      j := j + 1;
    }
  }

  /** Lane `j` of key `k`: when its scratch state is flagged, the key's
      entry, initialized first when it is null, receives a merge of it. */
  method MergeLane<S, V, R>(fn: AggregateFunction<S, V, R>, mem: Memory<S, V>, table: array<Ptr>,
                            slots: array<S>, has: array<bool>, offset: nat, k: nat, j: nat, ghost sc: Scratch<S>,
                            ghost c: Cursor<S, V>, ghost bases: seq<nat>, ghost log0: seq<Event<S, V>>)
    returns (ghost c': Cursor<S, V>, ghost bases': seq<nat>)
    requires table.Length == KeyCount && slots.Length == SlotCount && has.Length == SlotCount && k < KeyCount && j < LaneCount
    requires sc == Scratch(slots[..], has[..]) && c.used == |bases|
    requires AtCursor(mem, table, c, log0) && TableLive(c.t, c.st, offset)
    modifies mem, table
    ensures c' == MergeSlot(fn, c, sc, k, j, bases', offset) && c'.used == |bases'| && c'.aboveLive == c.aboveLive
    ensures bases <= bases' && AtCursor(mem, table, c', log0) && TableLive(c'.t, c'.st, offset)
  {
    c', bases' := c, bases;
    var idx := j * 256 + k;
    if has[idx] {
      var place, c1, b1 := FindOrInit(fn, mem, table, offset, k, c, bases, log0);
      ghost var e := Merged(place.addr + offset, slots[idx]);
      c' := c1.(st := Step(fn, c1.st, e), es := c1.es + [e]);
      assert c' == MergeSlot(fn, c, sc, k, j, b1, offset);
      mem.Merge(fn, place.addr + offset, slots[idx]);
      assert mem.log == log0 + c'.es by {
        AppendAssoc(log0, c1.es, [e]);
      }
      TableLiveSameKeys(c1.t, c1.st, c'.st, offset);
      bases' := b1;
    }
  }
}
