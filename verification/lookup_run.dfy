/** addBatchLookupTable8 of the helper, as a function of its inputs and of
    the blocks the arena hands out: the order in which it finds (and
    initializes) table entries and adds rows, and what that run means, proved
    by induction over the run. */
module LookupRun {
  import opened Contract
  import opened StateMemory
  import opened BatchSpec
  import opened LookupSpec

  /** Where a run stands: the table's entries `t`, the live states `st`, the
      events `es` logged by the call, how many blocks the arena has handed
      out (`used`), and whether each of them lay above every state live when
      it was handed out (`aboveLive`). */
  datatype Cursor<S, V> = Cursor(t: seq<Ptr>, st: map<nat, S>, es: seq<Event<S, V>>, used: nat, aboveLive: bool)

  /** The `n`th block handed out, from the record `bases` of the arena's answers. */
  function Alloc(bases: seq<nat>, n: nat): nat
  {
    if n < |bases| then bases[n] else 0
  }

  /** `map[key]`, initialized first when it is null: an empty state is
      created at the offset in the arena's next block, and the entry points
      to the block. */
  function FindRow<S, V, R>(fn: AggregateFunction<S, V, R>, c: Cursor<S, V>, k: nat, bases: seq<nat>, offset: nat): (c': Cursor<S, V>)
    requires |c.t| == KeyCount && k < KeyCount
    ensures |c'.t| == KeyCount && c'.t[k].At? && c.used <= c'.used && (c'.aboveLive ==> c.aboveLive)
    ensures c'.st.Keys >= c.st.Keys
  {
    if c.t[k].At? then c
    else
      var b := Alloc(bases, c.used);
      Cursor(c.t[k := At(b)], Step(fn, c.st, Created(b + offset)), c.es + [Created(b + offset)], c.used + 1,
             c.aboveLive && forall a :: a in c.st ==> a < b)
  }

  /** add(place + place_offset, row r) for the entry of row `r`'s key. */
  function AddRow<S, V, R>(fn: AggregateFunction<S, V, R>, c: Cursor<S, V>, key: seq<UInt8>, col: seq<V>, r: nat, offset: nat): (c': Cursor<S, V>)
    requires |c.t| == KeyCount && r < |key| && r < |col|
    ensures c'.t == c.t && c'.used == c.used && c'.aboveLive == c.aboveLive && c'.st.Keys == c.st.Keys
  {
    if c.t[key[r]].Null? then c
    else
      var e := Added(c.t[key[r]].addr + offset, r, col[r]);
      c.(st := Step(fn, c.st, e), es := c.es + [e])
  }

  /** The entries of the keys of rows `[i, r)`, found in row order. */
  function FindRows<S, V, R>(fn: AggregateFunction<S, V, R>, c: Cursor<S, V>, key: seq<UInt8>, i: nat, r: nat,
                             bases: seq<nat>, offset: nat): (c': Cursor<S, V>)
    requires |c.t| == KeyCount && r <= |key|
    ensures |c'.t| == KeyCount && c.used <= c'.used && (c'.aboveLive ==> c.aboveLive) && c'.st.Keys >= c.st.Keys
    decreases r
  {
    if r <= i then c else FindRow(fn, FindRows(fn, c, key, i, r - 1, bases, offset), key[r - 1] as nat, bases, offset)
  }

  /** Rows `[i, r)` added in row order. */
  function AddRows<S, V, R>(fn: AggregateFunction<S, V, R>, c: Cursor<S, V>, key: seq<UInt8>, col: seq<V>, i: nat, r: nat,
                            offset: nat): (c': Cursor<S, V>)
    requires |c.t| == KeyCount && r <= |key| && r <= |col|
    ensures c'.t == c.t && c'.used == c.used && c'.aboveLive == c.aboveLive && c'.st.Keys == c.st.Keys
    decreases r
  {
    if r <= i then c else AddRow(fn, AddRows(fn, c, key, col, i, r - 1, offset), key, col, r - 1, offset)
  }

  /** One unrolled block, rows `[i, e)`: the eight entries first, then the eight adds. */
  function Block<S, V, R>(fn: AggregateFunction<S, V, R>, c: Cursor<S, V>, key: seq<UInt8>, col: seq<V>, i: nat, e: nat,
                          bases: seq<nat>, offset: nat): (c': Cursor<S, V>)
    requires |c.t| == KeyCount && e == i + UnrollCount && e <= |key| && e <= |col|
  {
    AddRows(fn, FindRows(fn, c, key, i, e, bases, offset), key, col, i, e, offset)
  }

  /** Row `i` is a block boundary of the unrolled loop from row `lo`. */
  predicate Aligned(lo: nat, i: nat)
  {
    lo <= i && (i - lo) % UnrollCount == 0
  }

  /** The unrolled blocks from row `lo` up to row `i`. */
  function Blocks<S, V, R>(fn: AggregateFunction<S, V, R>, c: Cursor<S, V>, key: seq<UInt8>, col: seq<V>, lo: nat, i: nat,
                           bases: seq<nat>, offset: nat): (c': Cursor<S, V>)
    requires |c.t| == KeyCount && lo <= i <= |key| && i <= |col| && Aligned(lo, i)
    ensures |c'.t| == KeyCount && c.used <= c'.used && (c'.aboveLive ==> c.aboveLive)
    decreases i
  {
    if i == lo then c
    else
      var j := i - UnrollCount;
      Block(fn, Blocks(fn, c, key, col, lo, j, bases, offset), key, col, j, i, bases, offset)
  }

  /** Rows `[s, r)` one at a time: the entry of the row's key, then its add. */
  function Tail<S, V, R>(fn: AggregateFunction<S, V, R>, c: Cursor<S, V>, key: seq<UInt8>, col: seq<V>, s: nat, r: nat,
                         bases: seq<nat>, offset: nat): (c': Cursor<S, V>)
    requires |c.t| == KeyCount && r <= |key| && r <= |col|
    ensures |c'.t| == KeyCount && c.used <= c'.used && (c'.aboveLive ==> c.aboveLive)
    decreases r
  {
    if r <= s then c
    else
      var c1 := Tail(fn, c, key, col, s, r - 1, bases, offset);
      AddRow(fn, FindRow(fn, c1, key[r - 1] as nat, bases, offset), key, col, r - 1, offset)
  }

  /** Where the unrolled loop of rows `[lo, hi)` stops. */
  function BlocksEnd(lo: nat, hi: nat): (e: nat)
    requires lo <= hi
    ensures lo <= e <= hi && Aligned(lo, e)
  {
    UnrolledEndInRange(lo, hi, UnrollCount, lo);
    UnrolledEnd(lo, (hi - lo) / UnrollCount * UnrollCount, UnrollCount)
  }

  /** The whole call on rows `[lo, hi)`. */
  function Run<S, V, R>(fn: AggregateFunction<S, V, R>, c: Cursor<S, V>, key: seq<UInt8>, col: seq<V>, lo: nat, hi: nat,
                        bases: seq<nat>, offset: nat): (c': Cursor<S, V>)
    requires |c.t| == KeyCount && lo <= hi <= |key| && hi <= |col|
  {
    var e := BlocksEnd(lo, hi);
    Tail(fn, Blocks(fn, c, key, col, lo, e, bases, offset), key, col, e, hi, bases, offset)
  }

  // ---------------------------------------------------------------------
  // A run only reads the blocks it has used: recording more answers of the
  // arena afterwards (`bases` growing to `bases'`) does not change it.

  lemma FindRowStable<S, V, R>(fn: AggregateFunction<S, V, R>, c: Cursor<S, V>, k: nat, bases: seq<nat>, bases': seq<nat>, offset: nat)
    requires |c.t| == KeyCount && k < KeyCount && FindRow(fn, c, k, bases, offset).used <= |bases| && bases <= bases'
    ensures FindRow(fn, c, k, bases', offset) == FindRow(fn, c, k, bases, offset)
  {
  }

  lemma {:induction false} FindRowsStable<S, V, R>(fn: AggregateFunction<S, V, R>, c: Cursor<S, V>, key: seq<UInt8>, i: nat, r: nat,
                                                  bases: seq<nat>, bases': seq<nat>, offset: nat)
    requires |c.t| == KeyCount && r <= |key| && FindRows(fn, c, key, i, r, bases, offset).used <= |bases| && bases <= bases'
    ensures FindRows(fn, c, key, i, r, bases', offset) == FindRows(fn, c, key, i, r, bases, offset)
    decreases r
  {
    if r > i {
      FindRowsStable(fn, c, key, i, r - 1, bases, bases', offset);
      FindRowStable(fn, FindRows(fn, c, key, i, r - 1, bases, offset), key[r - 1] as nat, bases, bases', offset);
    }
  }

  /** Finding the entries of rows `[i, next)` is finding those of `[i, r)`
      and then the entry of row `r`. */
  lemma FindRowsNext<S, V, R>(fn: AggregateFunction<S, V, R>, c: Cursor<S, V>, key: seq<UInt8>, i: nat, r: nat, next: nat,
                              bases: seq<nat>, offset: nat)
    requires |c.t| == KeyCount && i <= r && next == r + 1 && next <= |key|
    ensures FindRows(fn, c, key, i, next, bases, offset) == FindRow(fn, FindRows(fn, c, key, i, r, bases, offset), key[r] as nat, bases, offset)
  {
  }

  lemma {:induction false} BlocksStable<S, V, R>(fn: AggregateFunction<S, V, R>, c: Cursor<S, V>, key: seq<UInt8>, col: seq<V>,
                                                lo: nat, i: nat, bases: seq<nat>, bases': seq<nat>, offset: nat)
    requires |c.t| == KeyCount && lo <= i <= |key| && i <= |col| && Aligned(lo, i)
    requires Blocks(fn, c, key, col, lo, i, bases, offset).used <= |bases| && bases <= bases'
    ensures Blocks(fn, c, key, col, lo, i, bases', offset) == Blocks(fn, c, key, col, lo, i, bases, offset)
    decreases i
  {
    if i != lo {
      var j := i - UnrollCount;
      var c1 := Blocks(fn, c, key, col, lo, j, bases, offset);
      BlocksStable(fn, c, key, col, lo, j, bases, bases', offset);
      FindRowsStable(fn, c1, key, j, i, bases, bases', offset);
    }
  }

  lemma {:induction false} TailStable<S, V, R>(fn: AggregateFunction<S, V, R>, c: Cursor<S, V>, key: seq<UInt8>, col: seq<V>,
                                              s: nat, r: nat, bases: seq<nat>, bases': seq<nat>, offset: nat)
    requires |c.t| == KeyCount && r <= |key| && r <= |col| && Tail(fn, c, key, col, s, r, bases, offset).used <= |bases| && bases <= bases'
    ensures Tail(fn, c, key, col, s, r, bases', offset) == Tail(fn, c, key, col, s, r, bases, offset)
    decreases r
  {
    if r > s {
      var c1 := Tail(fn, c, key, col, s, r - 1, bases, offset);
      TailStable(fn, c, key, col, s, r - 1, bases, bases', offset);
      FindRowStable(fn, c1, key[r - 1] as nat, bases, bases', offset);
    }
  }

  // ---------------------------------------------------------------------
  // What a run means.

  /** Entries set on entry keep their place. */
  predicate TableKept(t0: seq<Ptr>, t: seq<Ptr>)
    requires |t0| == |t| == KeyCount
  {
    forall k {:trigger t0[k]} :: 0 <= k < KeyCount && t0[k].At? ==> t[k] == t0[k]
  }

  /** Every set entry is a live place. */
  predicate TableLive<S>(t: seq<Ptr>, st: map<nat, S>, offset: nat)
    requires |t| == KeyCount
  {
    forall k :: 0 <= k < KeyCount && t[k].At? ==> t[k].addr + offset in st
  }

  /** Only the keys of rows `[lo, seen)` have been initialized. */
  predicate InitsSeen(t0: seq<Ptr>, t: seq<Ptr>, key: seq<UInt8>, lo: nat, seen: nat)
    requires |t0| == |t| == KeyCount && seen <= |key|
  {
    forall k :: 0 <= k < KeyCount && t0[k].Null? && t[k].At? ==> k in KeySet(key, lo, seen)
  }

  /** The entry of the key of every row of `[lo, i)` is set. */
  predicate RowsSet(t: seq<Ptr>, key: seq<UInt8>, lo: nat, i: nat)
    requires |t| == KeyCount && i <= |key|
  {
    forall r :: lo <= r < i ==> t[key[r]].At?
  }

  /** The events logged so far: the rows' adds to the targets `tgt`, in row
      order, one creation for each new place, and nothing else. */
  ghost predicate EventsLogged<S, V>(es: seq<Event<S, V>>, tgt: seq<Option<nat>>, np: set<nat>, col: seq<V>, lo: nat, i: nat)
    requires i <= |tgt| && i <= |col|
  {
    AddsOf(es) == RowAdds(tgt, col, lo, i) && Distinct(CreatesOf(es)) && Elems(CreatesOf(es)) == np
    && |AddsOf(es)| + |CreatesOf(es)| == |es|
  }

  /** The live states: the starting ones, with an empty state at each new
      place, after the rows' adds to the targets `tgt`. */
  ghost predicate StatesReached<S, V, R>(fn: AggregateFunction<S, V, R>, st: map<nat, S>, m0: map<nat, S>, np: set<nat>,
                                         tgt: seq<Option<nat>>, col: seq<V>, lo: nat, i: nat)
    requires i <= |tgt| && i <= |col|
  {
    st == Replay(fn, Seeded(m0, np, fn.empty), RowAdds(tgt, col, lo, i))
  }

  /** A run that started on the entries `t0` and the live states `m0`, once
      rows `[lo, i)` have been added and the keys of rows `[lo, seen)` may
      have been initialized. Entries set on entry keep their place; every set
      entry is a live place, no two share one; the new places were not live
      on entry; and the events and the live states are those of the rows'
      adds to the places of their keys. */
  ghost predicate LookupState<S, V, R>(fn: AggregateFunction<S, V, R>, c: Cursor<S, V>, t0: seq<Ptr>, m0: map<nat, S>,
                                       offset: nat, key: seq<UInt8>, col: seq<V>, lo: nat, i: nat, seen: nat)
  {
    match c
    case Cursor(t, st, es, _, _) =>
      |t| == KeyCount && |t0| == KeyCount && lo <= i <= seen <= |key| && seen <= |col|
      && TableKept(t0, t) && TableLive(t, st, offset) && InitsSeen(t0, t, key, lo, seen) && RowsSet(t, key, lo, seen)
      && Injective(t)
      && NewPlaces(t0, t, offset) !! m0.Keys
      && EventsLogged(es, LookupTargets(t, offset, key), NewPlaces(t0, t, offset), col, lo, i)
      && StatesReached(fn, st, m0, NewPlaces(t0, t, offset), LookupTargets(t, offset, key), col, lo, i)
  }

  /** The key of row `seen` is already set: it may be counted as seen. */
  lemma SeeKey<S, V, R>(fn: AggregateFunction<S, V, R>, c: Cursor<S, V>, t0: seq<Ptr>, m0: map<nat, S>,
                        offset: nat, key: seq<UInt8>, col: seq<V>, lo: nat, i: nat, seen: nat)
    requires LookupState(fn, c, t0, m0, offset, key, col, lo, i, seen)
    requires seen < |key| && seen < |col| && c.t[key[seen]].At?
    ensures LookupState(fn, c, t0, m0, offset, key, col, lo, i, seen + 1)
  {
    SeeTable(t0, c.t, key, lo, seen);
  }

  /** The table's part of seeing row `seen` when its key is set. */
  lemma {:induction false} SeeTable(t0: seq<Ptr>, t: seq<Ptr>, key: seq<UInt8>, lo: nat, seen: nat)
    requires |t0| == |t| == KeyCount && lo <= seen < |key| && t[key[seen]].At?
    requires InitsSeen(t0, t, key, lo, seen) && RowsSet(t, key, lo, seen)
    ensures InitsSeen(t0, t, key, lo, seen + 1) && RowsSet(t, key, lo, seen + 1)
  {
    assert KeySet(key, lo, seen + 1) == KeySet(key, lo, seen) + {key[seen] as nat};
  }
  /** Setting one entry to a place that is then made live keeps every set entry live. */
  lemma {:induction false} TableLiveStep<S>(t: seq<Ptr>, st: map<nat, S>, offset: nat, k: nat, base: nat, s: S)
    requires |t| == KeyCount && k < KeyCount && TableLive(t, st, offset)
    ensures TableLive(t[k := At(base)], st[base + offset := s], offset)
  {
    var t', st' := t[k := At(base)], st[base + offset := s];
    forall j | 0 <= j < KeyCount && t'[j].At?
      ensures t'[j].addr + offset in st'
    {
      if j != k {
        assert t'[j] == t[j];
      }
    }
  }

  /** Initializing a null entry with a block above every live state keeps
      the table's part of the lookup state, with row `seen` now seen. */
  lemma {:induction false} InitTable<S>(t: seq<Ptr>, st: map<nat, S>, t0: seq<Ptr>, offset: nat, key: seq<UInt8>, lo: nat, i: nat, seen: nat,
                     k: nat, base: nat, s: S)
    requires |t| == KeyCount && |t0| == KeyCount && lo <= i <= seen < |key|
    requires TableKept(t0, t) && TableLive(t, st, offset) && InitsSeen(t0, t, key, lo, seen) && RowsSet(t, key, lo, seen) && Injective(t)
    requires k == key[seen] as nat && t[k].Null?
    requires base + offset !in st
    ensures TableKept(t0, t[k := At(base)]) && InitsSeen(t0, t[k := At(base)], key, lo, seen + 1)
    ensures RowsSet(t[k := At(base)], key, lo, seen + 1) && Injective(t[k := At(base)])
    ensures TableLive(t[k := At(base)], st[base + offset := s], offset)
  {
    var t' := t[k := At(base)];
    assert InitsSeen(t0, t', key, lo, seen + 1) by {
      assert KeySet(key, lo, seen + 1) == KeySet(key, lo, seen) + {k};
    }
    assert Injective(t') by {
      forall j | 0 <= j < KeyCount && j != k && t[j].At?
        ensures t[j].addr != base
      {
        assert t[j].addr + offset in st;
      }
    }
    TableLiveStep(t, st, offset, k, base, s);
  }

  /** Rows whose keys are all set go to live places, and none of them sees
      the entry of key `k` change from null to set. */
  lemma {:induction false} TargetsStep<S>(t: seq<Ptr>, st: map<nat, S>, offset: nat, key: seq<UInt8>, lo: nat, i: nat, seen: nat, k: nat, base: nat)
    requires |t| == KeyCount && i <= seen <= |key| && k < KeyCount && t[k].Null?
    requires RowsSet(t, key, lo, seen) && TableLive(t, st, offset)
    ensures forall r :: lo <= r < i ==> LookupTargets(t, offset, key)[r].Some? && LookupTargets(t, offset, key)[r].value in st
    ensures forall r :: lo <= r < i ==> LookupTargets(t, offset, key)[r] == LookupTargets(t[k := At(base)], offset, key)[r]
  {
    var tgt, tgt' := LookupTargets(t, offset, key), LookupTargets(t[k := At(base)], offset, key);
    forall r | lo <= r < i
      ensures tgt[r].Some? && tgt[r].value in st && tgt[r] == tgt'[r]
    {
      assert key[r] as nat != k;
    }
  }

  /** Seeding a place `p` that is not live, when no row goes to it, is the
      same as creating it after the adds. */
  lemma {:induction false} SeedStep<S, V, R>(fn: AggregateFunction<S, V, R>, st: map<nat, S>, m0: map<nat, S>, np: set<nat>,
                          tgt: seq<Option<nat>>, tgt': seq<Option<nat>>, col: seq<V>, lo: nat, i: nat, p: nat)
    requires i <= |tgt| && i <= |tgt'| && i <= |col| && p !in st
    requires StatesReached(fn, st, m0, np, tgt, col, lo, i)
    requires forall r :: lo <= r < i ==> tgt[r].Some? && tgt[r].value in st
    requires forall r :: lo <= r < i ==> tgt[r] == tgt'[r]
    ensures p !in m0 && p !in np
    ensures RowAdds<S, V>(tgt, col, lo, i) == RowAdds(tgt', col, lo, i)
    ensures StatesReached(fn, st[p := fn.empty], m0, np + {p}, tgt', col, lo, i)
  {
    var m := Seeded(m0, np, fn.empty);
    ReplayRowAdds(fn, m, tgt, col, lo, i);
    RowAddsFrame<S, V>(tgt, tgt', col, lo, i);
    SeededMore(m0, np, fn.empty, p);
    ReplayRowAddsElsewhere(fn, m, tgt, col, lo, i, p, fn.empty);
  }

  /** Logging the creation of a place that is not among the new places yet. */
  lemma {:induction false} EventsStep<S, V>(es: seq<Event<S, V>>, tgt: seq<Option<nat>>, tgt': seq<Option<nat>>, np: set<nat>,
                         col: seq<V>, lo: nat, i: nat, p: nat)
    requires i <= |tgt| && i <= |tgt'| && i <= |col| && p !in np
    requires EventsLogged(es, tgt, np, col, lo, i) && RowAdds<S, V>(tgt, col, lo, i) == RowAdds(tgt', col, lo, i)
    ensures EventsLogged(es + [Created(p)], tgt', np + {p}, col, lo, i)
  {
    EventsSnoc(es, Created(p));
    assert Elems(CreatesOf(es) + [p]) == Elems(CreatesOf(es)) + {p};
  }

  /** Finding an entry leaves the set entries as they are. */
  lemma FindRowKeeps<S, V, R>(fn: AggregateFunction<S, V, R>, c: Cursor<S, V>, k: nat, bases: seq<nat>, offset: nat)
    requires |c.t| == KeyCount && k < KeyCount
    ensures forall j :: 0 <= j < KeyCount && c.t[j].At? ==> FindRow(fn, c, k, bases, offset).t[j] == c.t[j]
  {
  }

  /** Finding an entry keeps every set entry live. */
  lemma FindRowLive<S, V, R>(fn: AggregateFunction<S, V, R>, c: Cursor<S, V>, k: nat, bases: seq<nat>, offset: nat)
    requires |c.t| == KeyCount && k < KeyCount && TableLive(c.t, c.st, offset)
    ensures TableLive(FindRow(fn, c, k, bases, offset).t, FindRow(fn, c, k, bases, offset).st, offset)
  {
    if c.t[k].Null? {
      TableLiveStep(c.t, c.st, offset, k, Alloc(bases, c.used), fn.empty);
    }
  }

  /** Initializing the null entry of key `k` with a block `base` whose place
      is not live keeps the lookup state, with row `seen` now seen. */
  lemma {:induction false} InitStep<S, V, R>(fn: AggregateFunction<S, V, R>, c: Cursor<S, V>, c': Cursor<S, V>, t0: seq<Ptr>,
                                            m0: map<nat, S>, offset: nat, key: seq<UInt8>, col: seq<V>, lo: nat, i: nat,
                                            seen: nat, k: nat, base: nat)
    requires LookupState(fn, c, t0, m0, offset, key, col, lo, i, seen)
    requires seen < |key| && seen < |col| && k == key[seen] as nat && c.t[k].Null?
    requires base + offset !in c.st
    requires c'.t == c.t[k := At(base)] && c'.st == c.st[base + offset := fn.empty] && c'.es == c.es + [Created(base + offset)]
    ensures LookupState(fn, c', t0, m0, offset, key, col, lo, i, seen + 1)
  {
    var t, st, es := c.t, c.st, c.es;
    var np, tgt, tgt' := NewPlaces(t0, t, offset), LookupTargets(t, offset, key), LookupTargets(c'.t, offset, key);
    assert t0[k].Null?;
    InitTable(t, st, t0, offset, key, lo, i, seen, k, base, fn.empty);
    TargetsStep(t, st, offset, key, lo, i, seen, k, base);
    SeedStep(fn, st, m0, np, tgt, tgt', col, lo, i, base + offset);
    NewPlacesUpdate(t0, t, offset, k, base);
    EventsStep(es, tgt, tgt', np, col, lo, i, base + offset);
  }

  /** Adding row `i` to the place of its target extends the live states by that add. */
  lemma StatesAddStep<S, V, R>(fn: AggregateFunction<S, V, R>, st: map<nat, S>, m0: map<nat, S>, np: set<nat>,
                               tgt: seq<Option<nat>>, col: seq<V>, lo: nat, i: nat)
    requires lo <= i < |tgt| && i < |col| && tgt[i].Some? && tgt[i].value in st
    requires StatesReached(fn, st, m0, np, tgt, col, lo, i)
    ensures StatesReached(fn, st[tgt[i].value := fn.add(st[tgt[i].value], col[i])], m0, np, tgt, col, lo, i + 1)
  {
    ReplaySnoc(fn, Seeded(m0, np, fn.empty), RowAdds(tgt, col, lo, i), Added(tgt[i].value, i, col[i]));
  }

  /** Logging the add of row `i` to its target. */
  lemma EventsAddStep<S, V>(es: seq<Event<S, V>>, tgt: seq<Option<nat>>, np: set<nat>, col: seq<V>, lo: nat, i: nat)
    requires lo <= i < |tgt| && i < |col| && tgt[i].Some?
    requires EventsLogged(es, tgt, np, col, lo, i)
    ensures EventsLogged(es + [Added(tgt[i].value, i, col[i])], tgt, np, col, lo, i + 1)
  {
    EventsSnoc(es, Added(tgt[i].value, i, col[i]));
  }

  /** Finding the entry of row `seen`'s key keeps the lookup state, with
      row `seen` now seen, when the block it may take was fresh. */
  lemma FindRowMeaning<S, V, R>(fn: AggregateFunction<S, V, R>, c: Cursor<S, V>, c': Cursor<S, V>, t0: seq<Ptr>, m0: map<nat, S>,
                                offset: nat, key: seq<UInt8>, col: seq<V>, lo: nat, i: nat, seen: nat, next: nat, bases: seq<nat>)
    requires LookupState(fn, c, t0, m0, offset, key, col, lo, i, seen) && seen < |key| && seen < |col| && next == seen + 1
    requires c' == FindRow(fn, c, key[seen] as nat, bases, offset) && c'.aboveLive
    ensures LookupState(fn, c', t0, m0, offset, key, col, lo, i, next)
  {
    var k := key[seen] as nat;
    if c.t[k].At? {
      SeeKey(fn, c, t0, m0, offset, key, col, lo, i, seen);
    } else {
      var b := Alloc(bases, c.used);
      assert b + offset !in c.st;
      InitStep(fn, c, c', t0, m0, offset, key, col, lo, i, seen, k, b);
    }
  }

  /** Adding row `i`, whose key is set, keeps the lookup state, with row `i` now added. */
  lemma AddRowMeaning<S, V, R>(fn: AggregateFunction<S, V, R>, c: Cursor<S, V>, c': Cursor<S, V>, t0: seq<Ptr>, m0: map<nat, S>,
                               offset: nat, key: seq<UInt8>, col: seq<V>, lo: nat, i: nat, next: nat, seen: nat)
    requires LookupState(fn, c, t0, m0, offset, key, col, lo, i, seen) && i < seen && next == i + 1
    requires c' == AddRow(fn, c, key, col, i, offset)
    ensures LookupState(fn, c', t0, m0, offset, key, col, lo, next, seen)
  {
    var np, tgt := NewPlaces(t0, c.t, offset), LookupTargets(c.t, offset, key);
    var p := c.t[key[i]].addr + offset;
    assert tgt[i] == Some(p) && p in c.st;
    assert c'.st == c.st[p := fn.add(c.st[p], col[i])] && c'.es == c.es + [Added(p, i, col[i])];
    StatesAddStep(fn, c.st, m0, np, tgt, col, lo, i);
    EventsAddStep(c.es, tgt, np, col, lo, i);
    TableLiveSameKeys(c.t, c.st, c'.st, offset);
  }

  /** A table stays live over states with the same places. */
  lemma TableLiveSameKeys<S>(t: seq<Ptr>, st: map<nat, S>, st': map<nat, S>, offset: nat)
    requires |t| == KeyCount && TableLive(t, st, offset) && st'.Keys == st.Keys
    ensures TableLive(t, st', offset)
  {
  }

  lemma {:induction false} FindRowsMeaning<S, V, R>(fn: AggregateFunction<S, V, R>, c: Cursor<S, V>, c': Cursor<S, V>, t0: seq<Ptr>,
                                                   m0: map<nat, S>, offset: nat, key: seq<UInt8>, col: seq<V>, lo: nat, i: nat,
                                                   s: nat, r: nat, bases: seq<nat>)
    requires LookupState(fn, c, t0, m0, offset, key, col, lo, i, s) && s <= r <= |key| && r <= |col|
    requires c' == FindRows(fn, c, key, s, r, bases, offset) && c'.aboveLive
    ensures LookupState(fn, c', t0, m0, offset, key, col, lo, i, r)
    decreases r
  {
    if r > s {
      var p := r - 1;
      var c1 := FindRows(fn, c, key, s, p, bases, offset);
      FindRowsLast(fn, c, c1, c', key, s, p, r, bases, offset);
      FindRowsMeaning(fn, c, c1, t0, m0, offset, key, col, lo, i, s, p, bases);
      FindRowMeaning(fn, c1, c', t0, m0, offset, key, col, lo, i, p, r, bases);
    } else {
      assert c' == c;
    }
  }

  /** The last entry found: the one of row `p`'s key, after the rows before it. */
  lemma FindRowsLast<S, V, R>(fn: AggregateFunction<S, V, R>, c: Cursor<S, V>, c1: Cursor<S, V>, c': Cursor<S, V>,
                              key: seq<UInt8>, s: nat, p: nat, r: nat, bases: seq<nat>, offset: nat)
    requires |c.t| == KeyCount && s <= p && r == p + 1 && r <= |key|
    requires c1 == FindRows(fn, c, key, s, p, bases, offset) && c' == FindRows(fn, c, key, s, r, bases, offset)
    ensures c' == FindRow(fn, c1, key[p] as nat, bases, offset) && (c'.aboveLive ==> c1.aboveLive)
  {
  }

  /** The last add: row `p`, after the rows before it. */
  lemma AddRowsLast<S, V, R>(fn: AggregateFunction<S, V, R>, c: Cursor<S, V>, c1: Cursor<S, V>, c': Cursor<S, V>,
                             key: seq<UInt8>, col: seq<V>, s: nat, p: nat, r: nat, offset: nat)
    requires |c.t| == KeyCount && s <= p && r == p + 1 && r <= |key| && r <= |col|
    requires c1 == AddRows(fn, c, key, col, s, p, offset) && c' == AddRows(fn, c, key, col, s, r, offset)
    ensures c' == AddRow(fn, c1, key, col, p, offset)
  {
  }

  lemma {:induction false} AddRowsMeaning<S, V, R>(fn: AggregateFunction<S, V, R>, c: Cursor<S, V>, c': Cursor<S, V>, t0: seq<Ptr>,
                                                  m0: map<nat, S>, offset: nat, key: seq<UInt8>, col: seq<V>, lo: nat,
                                                  s: nat, r: nat, seen: nat)
    requires LookupState(fn, c, t0, m0, offset, key, col, lo, s, seen) && s <= r <= seen
    requires c' == AddRows(fn, c, key, col, s, r, offset)
    ensures LookupState(fn, c', t0, m0, offset, key, col, lo, r, seen)
    decreases r
  {
    if r > s {
      var p := r - 1;
      var c1 := AddRows(fn, c, key, col, s, p, offset);
      AddRowsLast(fn, c, c1, c', key, col, s, p, r, offset);
      AddRowsMeaning(fn, c, c1, t0, m0, offset, key, col, lo, s, p, seen);
      AddRowMeaning(fn, c1, c', t0, m0, offset, key, col, lo, p, r, seen);
    } else {
      assert c' == c;
    }
  }

  lemma {:induction false} BlocksMeaning<S, V, R>(fn: AggregateFunction<S, V, R>, c: Cursor<S, V>, c': Cursor<S, V>, t0: seq<Ptr>,
                                                 m0: map<nat, S>, offset: nat, key: seq<UInt8>, col: seq<V>, lo: nat, i: nat,
                                                 bases: seq<nat>)
    requires LookupState(fn, c, t0, m0, offset, key, col, lo, lo, lo)
    requires i <= |key| && i <= |col| && lo <= i && Aligned(lo, i)
    requires c' == Blocks(fn, c, key, col, lo, i, bases, offset) && c'.aboveLive
    ensures LookupState(fn, c', t0, m0, offset, key, col, lo, i, i)
    decreases i
  {
    if i != lo {
      var j := i - UnrollCount;
      PrevBlockAligned(lo, i, UnrollCount, j);
      var c1 := Blocks(fn, c, key, col, lo, j, bases, offset);
      var c2 := FindRows(fn, c1, key, j, i, bases, offset);
      BlocksLast(fn, c, key, col, lo, i, bases, offset);
      BlocksMeaning(fn, c, c1, t0, m0, offset, key, col, lo, j, bases);
      FindRowsMeaning(fn, c1, c2, t0, m0, offset, key, col, lo, j, j, i, bases);
      AddRowsMeaning(fn, c2, c', t0, m0, offset, key, col, lo, j, i, i);
    } else {
      assert c' == c;
    }
  }

  /** The last block, rows `[i - 8, i)`: its entries found, then its adds;
      a fresh last block means fresh earlier ones. */
  lemma BlocksLast<S, V, R>(fn: AggregateFunction<S, V, R>, c: Cursor<S, V>, key: seq<UInt8>, col: seq<V>, lo: nat, i: nat,
                            bases: seq<nat>, offset: nat)
    requires |c.t| == KeyCount && lo < i <= |key| && i <= |col| && Aligned(lo, i)
    ensures var j := i - UnrollCount;
            var c1 := Blocks(fn, c, key, col, lo, j, bases, offset);
            var c2 := FindRows(fn, c1, key, j, i, bases, offset);
            var c' := Blocks(fn, c, key, col, lo, i, bases, offset);
            c' == AddRows(fn, c2, key, col, j, i, offset) && (c'.aboveLive ==> c2.aboveLive && c1.aboveLive)
  {
  }

  lemma {:induction false} TailMeaning<S, V, R>(fn: AggregateFunction<S, V, R>, c: Cursor<S, V>, c': Cursor<S, V>, t0: seq<Ptr>,
                                               m0: map<nat, S>, offset: nat, key: seq<UInt8>, col: seq<V>, lo: nat, s: nat, r: nat,
                                               bases: seq<nat>)
    requires LookupState(fn, c, t0, m0, offset, key, col, lo, s, s) && s <= r <= |key| && r <= |col|
    requires c' == Tail(fn, c, key, col, s, r, bases, offset) && c'.aboveLive
    ensures LookupState(fn, c', t0, m0, offset, key, col, lo, r, r)
    decreases r
  {
    if r > s {
      var p := r - 1;
      var c1 := Tail(fn, c, key, col, s, p, bases, offset);
      var c2 := FindRow(fn, c1, key[p] as nat, bases, offset);
      TailLast(fn, c, c1, c2, c', key, col, s, p, r, bases, offset);
      TailMeaning(fn, c, c1, t0, m0, offset, key, col, lo, s, p, bases);
      TailStepMeaning(fn, c1, c2, c', t0, m0, offset, key, col, lo, p, bases);
    } else {
      assert c' == c;
    }
  }

  /** The last row of a tail: its entry found after the rows before it,
      then its add; a fresh last block means fresh earlier ones. */
  lemma TailLast<S, V, R>(fn: AggregateFunction<S, V, R>, c: Cursor<S, V>, c1: Cursor<S, V>, c2: Cursor<S, V>, c': Cursor<S, V>,
                          key: seq<UInt8>, col: seq<V>, s: nat, p: nat, r: nat, bases: seq<nat>, offset: nat)
    requires |c.t| == KeyCount && s <= p && r == p + 1 && r <= |key| && r <= |col|
    requires c1 == Tail(fn, c, key, col, s, p, bases, offset) && c2 == FindRow(fn, c1, key[p] as nat, bases, offset)
    requires c' == Tail(fn, c, key, col, s, r, bases, offset) && c'.aboveLive
    ensures c' == AddRow(fn, c2, key, col, p, offset) && c2.aboveLive && c1.aboveLive
  {
  }

  /** One row of the tail: find the entry of its key, then add it. */
  lemma TailStepMeaning<S, V, R>(fn: AggregateFunction<S, V, R>, c: Cursor<S, V>, c1: Cursor<S, V>, c': Cursor<S, V>, t0: seq<Ptr>,
                                 m0: map<nat, S>, offset: nat, key: seq<UInt8>, col: seq<V>, lo: nat, r: nat, bases: seq<nat>)
    requires LookupState(fn, c, t0, m0, offset, key, col, lo, r, r) && r < |key| && r < |col|
    requires c1 == FindRow(fn, c, key[r] as nat, bases, offset) && c1.aboveLive
    requires c' == AddRow(fn, c1, key, col, r, offset)
    ensures LookupState(fn, c', t0, m0, offset, key, col, lo, r + 1, r + 1)
  {
    FindRowMeaning(fn, c, c1, t0, m0, offset, key, col, lo, r, r, r + 1, bases);
    AddRowMeaning(fn, c1, c', t0, m0, offset, key, col, lo, r, r + 1, r + 1);
  }

  /** The start of a run: nothing added, nothing initialized. */
  lemma StartMeaning<S, V, R>(fn: AggregateFunction<S, V, R>, t0: seq<Ptr>, m0: map<nat, S>, offset: nat,
                              key: seq<UInt8>, col: seq<V>, lo: nat)
    requires |t0| == KeyCount && lo <= |key| && lo <= |col| && TableLive(t0, m0, offset) && Injective(t0)
    ensures LookupState(fn, Cursor(t0, m0, [], 0, true), t0, m0, offset, key, col, lo, lo, lo)
  {
    assert NewPlaces(t0, t0, offset) == {};
    assert Seeded(m0, {}, fn.empty) == m0;
  }

  /** A whole run whose blocks were fresh reaches the lookup state with
      every row added. */
  lemma RunMeaning<S, V, R>(fn: AggregateFunction<S, V, R>, t0: seq<Ptr>, m0: map<nat, S>, offset: nat,
                            key: seq<UInt8>, col: seq<V>, lo: nat, hi: nat, bases: seq<nat>, c': Cursor<S, V>)
    requires |t0| == KeyCount && lo <= hi <= |key| && hi <= |col| && TableLive(t0, m0, offset) && Injective(t0)
    requires c' == Run(fn, Cursor(t0, m0, [], 0, true), key, col, lo, hi, bases, offset) && c'.aboveLive
    ensures LookupState(fn, c', t0, m0, offset, key, col, lo, hi, hi)
  {
    var c0 := Cursor(t0, m0, [], 0, true);
    var e := BlocksEnd(lo, hi);
    var c1 := Blocks(fn, c0, key, col, lo, e, bases, offset);
    StartMeaning(fn, t0, m0, offset, key, col, lo);
    BlocksMeaning(fn, c0, c1, t0, m0, offset, key, col, lo, e, bases);
    TailMeaning(fn, c1, c', t0, m0, offset, key, col, lo, e, hi, bases);
  }

  /** Once rows `[lo, hi)` are added, the state at the place of each set
      entry is its starting state (the one live there on entry, or an empty
      one when the run initialized the entry) with the values of the rows of
      that key added one by one, in row order; and only keys of those rows
      were initialized. */
  lemma LookupFolds<S, V, R>(fn: AggregateFunction<S, V, R>, t: seq<Ptr>, st: map<nat, S>, t0: seq<Ptr>, m0: map<nat, S>, offset: nat,
                             key: seq<UInt8>, col: seq<V>, lo: nat, hi: nat, k: nat)
    requires |t| == KeyCount && |t0| == KeyCount && lo <= hi <= |key| && hi <= |col|
    requires TableKept(t0, t) && InitsSeen(t0, t, key, lo, hi) && RowsSet(t, key, lo, hi) && Injective(t)
    requires NewPlaces(t0, t, offset) !! m0.Keys && TableLive(t0, m0, offset)
    requires st == Replay(fn, Seeded(m0, NewPlaces(t0, t, offset), fn.empty), RowAdds(LookupTargets(t, offset, key), col, lo, hi))
    requires k < KeyCount && t[k].At?
    ensures t[k].addr + offset in st
    ensures t0[k].At? ==> t[k] == t0[k] && st[t[k].addr + offset] == Fold(fn.add, m0[t0[k].addr + offset], KeyValues(key, col, k, lo, hi))
    ensures t0[k].Null? ==> k in KeySet(key, lo, hi) && st[t[k].addr + offset] == Fold(fn.add, fn.empty, KeyValues(key, col, k, lo, hi))
  {
    if t0[k].At? {
      KeptKeyFolds(fn, t, st, t0, m0, offset, key, col, lo, hi, k);
    } else {
      NewKeyFolds(fn, t, st, t0, m0, offset, key, col, lo, hi, k);
    }
  }

  /** `LookupFolds` for a key whose entry was set on entry. */
  lemma KeptKeyFolds<S, V, R>(fn: AggregateFunction<S, V, R>, t: seq<Ptr>, st: map<nat, S>, t0: seq<Ptr>, m0: map<nat, S>, offset: nat,
                              key: seq<UInt8>, col: seq<V>, lo: nat, hi: nat, k: nat)
    requires |t| == KeyCount && |t0| == KeyCount && lo <= hi <= |key| && hi <= |col| && k < KeyCount && t0[k].At?
    requires TableLive(t0, m0, offset) && TableKept(t0, t) && RowsSet(t, key, lo, hi) && Injective(t)
    requires st == Replay(fn, Seeded(m0, NewPlaces(t0, t, offset), fn.empty), RowAdds(LookupTargets(t, offset, key), col, lo, hi))
    ensures t[k] == t0[k] && t[k].addr + offset in st
    ensures st[t[k].addr + offset] == Fold(fn.add, m0[t0[k].addr + offset], KeyValues(key, col, k, lo, hi))
  {
    KeyFold(fn, st, Seeded(m0, NewPlaces(t0, t, offset), fn.empty), t, offset, key, col, lo, hi, k, m0[t0[k].addr + offset]);
  }

  /** `LookupFolds` for a key whose entry the run initialized. */
  lemma NewKeyFolds<S, V, R>(fn: AggregateFunction<S, V, R>, t: seq<Ptr>, st: map<nat, S>, t0: seq<Ptr>, m0: map<nat, S>, offset: nat,
                             key: seq<UInt8>, col: seq<V>, lo: nat, hi: nat, k: nat)
    requires |t| == KeyCount && |t0| == KeyCount && lo <= hi <= |key| && hi <= |col| && k < KeyCount && t0[k].Null? && t[k].At?
    requires InitsSeen(t0, t, key, lo, hi) && RowsSet(t, key, lo, hi) && Injective(t) && NewPlaces(t0, t, offset) !! m0.Keys
    requires st == Replay(fn, Seeded(m0, NewPlaces(t0, t, offset), fn.empty), RowAdds(LookupTargets(t, offset, key), col, lo, hi))
    ensures k in KeySet(key, lo, hi) && t[k].addr + offset in st
    ensures st[t[k].addr + offset] == Fold(fn.add, fn.empty, KeyValues(key, col, k, lo, hi))
  {
    NewPlacesHas(t0, t, offset, k);
    KeyFold(fn, st, Seeded(m0, NewPlaces(t0, t, offset), fn.empty), t, offset, key, col, lo, hi, k, fn.empty);
  }

  /** What a lookup state with every row added says about the table and
      the live states: the facts `LookupFolds` starts from. */
  lemma LookupStateStates<S, V, R>(fn: AggregateFunction<S, V, R>, c: Cursor<S, V>, t0: seq<Ptr>, m0: map<nat, S>, offset: nat,
                                   key: seq<UInt8>, col: seq<V>, lo: nat, hi: nat)
    requires LookupState(fn, c, t0, m0, offset, key, col, lo, hi, hi)
    ensures |c.t| == KeyCount && |t0| == KeyCount && lo <= hi <= |key| && hi <= |col|
    ensures TableKept(t0, c.t) && InitsSeen(t0, c.t, key, lo, hi) && RowsSet(c.t, key, lo, hi) && Injective(c.t)
    ensures NewPlaces(t0, c.t, offset) !! m0.Keys
    ensures c.st == Replay(fn, Seeded(m0, NewPlaces(t0, c.t, offset), fn.empty), RowAdds(LookupTargets(c.t, offset, key), col, lo, hi))
  {
  }

  /** The state at the place of key `k`, after the rows' adds to the places
      of their keys. */
  lemma KeyFold<S, V, R>(fn: AggregateFunction<S, V, R>, st: map<nat, S>, m: map<nat, S>, t: seq<Ptr>, offset: nat,
                         key: seq<UInt8>, col: seq<V>, lo: nat, hi: nat, k: nat, s0: S)
    requires |t| == KeyCount && lo <= hi <= |key| && hi <= |col| && k < KeyCount && t[k].At?
    requires t[k].addr + offset in m && m[t[k].addr + offset] == s0
    requires RowsSet(t, key, lo, hi) && Injective(t)
    requires st == Replay(fn, m, RowAdds(LookupTargets(t, offset, key), col, lo, hi))
    ensures t[k].addr + offset in st
    ensures st[t[k].addr + offset] == Fold(fn.add, s0, KeyValues(key, col, k, lo, hi))
  {
    ReplayRowAdds(fn, m, LookupTargets(t, offset, key), col, lo, hi);
    RoutedToKey(t, offset, key, col, k, lo, hi);
  }
}
