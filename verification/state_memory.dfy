/** The caller-owned memory that aggregate states live in (rows of a hash
    table, an arena), addressed by place. The framework owns none of it: it
    only applies an accumulator's primitives to the places it is given.
    Every primitive applied to a place is recorded in a ghost log, so that
    the batch methods can be specified by WHICH primitives they apply, to
    WHICH places, in WHICH order. */
module StateMemory {
  import opened Contract

  /** An entry of a `places` array: a null place (skip the row) or an address. */
  datatype Ptr = Null | At(addr: nat)

  /** One call of a single-state primitive, as recorded in the log. */
  datatype Event<S, V> =
    | Created(place: nat)                 // create(place)
    | Destroyed(place: nat)                // destroy(place)
    | DestroyedUpToState(place: nat)       // destroyUpToState(place): ownership moves to the result column
    | Added(place: nat, row: nat, value: V) // add(place, columns, row), `value` being that row's arguments
    | Merged(place: nat, rhs: S)          // merge(place, rhs), `rhs` being the merged state
    | Restored(place: nat, state: S)      // deserialize(place, buf) into a just-created state

  /** The effect of one event on the live states. */
  function Step<S, V, R>(fn: AggregateFunction<S, V, R>, m: map<nat, S>, e: Event<S, V>): map<nat, S>
  {
    match e
    case Created(p) => m[p := fn.empty]
    case Destroyed(p) => m - {p}
    case DestroyedUpToState(p) => m - {p}
    case Added(p, _, v) => if p in m then m[p := fn.add(m[p], v)] else m
    case Merged(p, rhs) => if p in m then m[p := fn.merge(m[p], rhs)] else m
    case Restored(p, s) => if p in m then m[p := s] else m
  }

  /** The live states after the events `es`, applied in order, starting from `m`. */
  function Replay<S, V, R>(fn: AggregateFunction<S, V, R>, m: map<nat, S>, es: seq<Event<S, V>>): map<nat, S>
    decreases |es|
  {
    if es == [] then m else Step(fn, Replay(fn, m, es[..|es| - 1]), es[|es| - 1])
  }

  lemma ReplaySnoc<S, V, R>(fn: AggregateFunction<S, V, R>, m: map<nat, S>, es: seq<Event<S, V>>, e: Event<S, V>)
    ensures Replay(fn, m, es + [e]) == Step(fn, Replay(fn, m, es), e)
  {
    assert (es + [e])[..|es|] == es;
  }

  /** Replaying two runs of events one after the other is replaying their concatenation. */
  lemma {:induction false} ReplayAppend<S, V, R>(fn: AggregateFunction<S, V, R>, m: map<nat, S>, a: seq<Event<S, V>>, b: seq<Event<S, V>>)
    ensures Replay(fn, m, a + b) == Replay(fn, Replay(fn, m, a), b)
    decreases |b|
  {
    if b == [] {
      assert a + b == a;
    } else {
      var b' := b[..|b| - 1];
      assert (a + b)[..|a + b| - 1] == a + b';
      ReplayAppend(fn, m, a, b');
    }
  }

  /** The states that the caller's memory holds, and the log of every
      primitive applied to them. */
  class Memory<S, V> {
    var states: map<nat, S>   // the live states, by address
    ghost var log: seq<Event<S, V>>

    constructor ()
      ensures states == map[] && log == []
    {
      states := map[];
      log := [];
    }

    /** create(place): construct an empty state at a place that holds none. */
    method Create<R>(fn: AggregateFunction<S, V, R>, p: nat)
      requires p !in states
      modifies this
      ensures states == old(states)[p := fn.empty]
      ensures log == old(log) + [Created(p)]
    {
      states := states[p := fn.empty];
      log := log + [Created(p)];
    }

    /** destroy(place): destruct a live state. */
    method Destroy(p: nat)
      requires p in states
      modifies this
      ensures states == old(states) - {p}
      ensures log == old(log) + [Destroyed(p)]
    {
      states := states - {p};
      log := log + [Destroyed(p)];
    }

    /** destroyUpToState(place): by default the same as destroy; the place
        is no longer the caller's to destroy afterwards. */
    method DestroyUpToState(p: nat)
      requires p in states
      modifies this
      ensures states == old(states) - {p}
      ensures log == old(log) + [DestroyedUpToState(p)]
    {
      states := states - {p};
      log := log + [DestroyedUpToState(p)];
    }

    /** add(place, columns, row): ingest the arguments of one row. */
    method Add<R>(fn: AggregateFunction<S, V, R>, p: nat, col: seq<V>, row: nat)
      requires p in states && row < |col|
      modifies this
      ensures states == old(states)[p := fn.add(old(states)[p], col[row])]
      ensures log == old(log) + [Added(p, row, col[row])]
    {
      states := states[p := fn.add(states[p], col[row])];
      log := log + [Added(p, row, col[row])];
    }

    /** merge(place, rhs): combine the state `rhs` into the state at `p`. */
    method Merge<R>(fn: AggregateFunction<S, V, R>, p: nat, rhs: S)
      requires p in states
      modifies this
      ensures states == old(states)[p := fn.merge(old(states)[p], rhs)]
      ensures log == old(log) + [Merged(p, rhs)]
    {
      states := states[p := fn.merge(states[p], rhs)];
      log := log + [Merged(p, rhs)];
    }

    /** The successful end of deserialize(place, buf): the state read replaces the empty one. */
    method Restore(p: nat, s: S)
      requires p in states
      modifies this
      ensures states == old(states)[p := s]
      ensures log == old(log) + [Restored(p, s)]
    {
      states := states[p := s];
      log := log + [Restored(p, s)];
    }

    /** An address above every live state: where the arena hands out its
        next block (the arena's own allocation algorithm is not modelled). */
    method FreshBlock() returns (base: nat)
      ensures forall a :: a in states ==> a < base
    {
      var todo := states.Keys;
      base := 0;
      while todo != {}
        invariant todo <= states.Keys
        invariant forall a :: a in states && a !in todo ==> a < base
        decreases todo
      {
        var a :| a in todo;
        if base <= a {
          base := a + 1;
        }
        todo := todo - {a};
      }
    }
  }
}
