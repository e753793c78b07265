/** What serializeBatch writes and what createAndDeserializeBatch reads,
    as functions of the states and of the bytes, and the round trip that
    connects the two. */
module SerdeSpec {
  import opened Contract
  import opened StateMemory
  import opened BatchSpec

  /** The serialized forms of the states `ss`, one after the other. */
  function SerializeAll<S, V, R>(fn: AggregateFunction<S, V, R>, ss: seq<S>): seq<UInt8>
  {
    if ss == [] then [] else fn.serialize(ss[0]) + SerializeAll(fn, ss[1..])
  }

  /** Serializing one more state appends its serialized form. */
  lemma {:induction false} SerializeAllSnoc<S, V, R>(fn: AggregateFunction<S, V, R>, ss: seq<S>, s: S)
    ensures SerializeAll(fn, ss + [s]) == SerializeAll(fn, ss) + fn.serialize(s)
    decreases |ss|
  {
    if ss == [] {
      assert [s][1..] == [];
    } else {
      assert (ss + [s])[1..] == ss[1..] + [s];
      SerializeAllSnoc(fn, ss[1..], s);
    }
  }

  /** The states at entries `[start, end)` of `data`, in order (none when
      `end <= start`). */
  function StatesAt<S>(m: map<nat, S>, data: seq<nat>, start: nat, end: nat): (ss: seq<S>)
    requires end <= start || (end <= |data| && forall i :: start <= i < end ==> data[i] in m)
    ensures |ss| == if end <= start then 0 else end - start
    ensures forall k :: 0 <= k < end - start ==> ss[k] == m[data[start + k]]
  {
    if end <= start then [] else seq(end - start, k requires 0 <= k < end - start => m[data[start + k]])
  }

  lemma StatesAtSnoc<S>(m: map<nat, S>, data: seq<nat>, start: nat, end: nat)
    requires start <= end < |data| && forall i :: start <= i <= end ==> data[i] in m
    ensures StatesAt(m, data, start, end + 1) == StatesAt(m, data, start, end) + [m[data[end]]]
  {
    assert StatesAt(m, data, start, end + 1)[..end - start] == StatesAt(m, data, start, end);
  }

  /** One deserialize call on the unread bytes `rest`: the state read and the
      number of bytes consumed. Reading past the end of the input is a
      failure, like a malformed encoding. */
  function ReadState<S, V, R>(fn: AggregateFunction<S, V, R>, rest: seq<UInt8>): (r: Option<(S, nat)>)
    ensures r.Some? ==> r.value.1 <= |rest|
    ensures r.Some? ==> fn.deserialize(rest) == r
  {
    match fn.deserialize(rest)
    case Some((s, used)) => if used <= |rest| then Some((s, used)) else None
    case None => None
  }

  /** The outcome of reading a run of states: the states read, in order, the
      bytes they took, and whether a read failed after them. */
  datatype ReadRun<S> = ReadRun(states: seq<S>, consumed: nat, failed: bool)

  /** What createAndDeserializeBatch reads from `rest` when at most `limit`
      states are wanted: it stops after `limit` states, at the end of the
      input, or at the first failing read. */
  function DeserializeRun<S, V, R>(fn: AggregateFunction<S, V, R>, rest: seq<UInt8>, limit: nat): (run: ReadRun<S>)
    ensures run.consumed <= |rest| && |run.states| <= limit
    ensures !run.failed && |run.states| < limit ==> run.consumed == |rest|
    decreases limit
  {
    if limit == 0 || rest == [] then ReadRun([], 0, false)
    else
      match ReadState(fn, rest)
      case None => ReadRun([], 0, true)
      case Some((s, used)) =>
        var r := DeserializeRun(fn, rest[used..], limit - 1);
        ReadRun([s] + r.states, used + r.consumed, r.failed)
  }

  /** Partway through a batch read from `data[pos0..]`: `got` has been read,
      up to position `pos`, and the whole run `run` is `got` followed by the
      run of the `left` states still wanted from `pos`. */
  ghost predicate ReadSoFar<S, V, R>(fn: AggregateFunction<S, V, R>, run: ReadRun<S>, got: seq<S>, data: seq<UInt8>, pos0: nat, pos: nat, left: nat)
    requires pos0 <= pos <= |data|
  {
    var tail := DeserializeRun(fn, data[pos..], left);
    run.states == got + tail.states && run.consumed == (pos - pos0) + tail.consumed && run.failed == tail.failed
  }

  /** A successful read of `s`, `used` bytes long, at `pos` moves the batch
      read one state on. */
  lemma ReadSoFarStep<S, V, R>(fn: AggregateFunction<S, V, R>, run: ReadRun<S>, got: seq<S>, data: seq<UInt8>,
                               pos0: nat, pos: nat, left: nat, s: S, used: nat, got': seq<S>, pos': nat, left': nat)
    requires pos0 <= pos < |data| && 0 < left && ReadState(fn, data[pos..]) == Some((s, used))
    requires ReadSoFar(fn, run, got, data, pos0, pos, left)
    requires got' == got + [s] && pos' == pos + used && left' + 1 == left
    ensures pos' <= |data| && ReadSoFar(fn, run, got', data, pos0, pos', left')
  {
    var rest := data[pos..];
    RunStep(fn, rest, left, s, used);
    assert rest[used..] == data[pos + used..];
    assert (got + [s]) + DeserializeRun(fn, rest[used..], left - 1).states == got + ([s] + DeserializeRun(fn, rest[used..], left - 1).states);
  }

  /** A failed read at `pos` ends the batch read with the states read so far. */
  lemma ReadSoFarFail<S, V, R>(fn: AggregateFunction<S, V, R>, run: ReadRun<S>, got: seq<S>, data: seq<UInt8>,
                               pos0: nat, pos: nat, left: nat)
    requires pos0 <= pos < |data| && 0 < left && ReadState(fn, data[pos..]).None?
    requires ReadSoFar(fn, run, got, data, pos0, pos, left)
    ensures run.states == got && run.failed && run.consumed == pos - pos0
  {
    assert DeserializeRun(fn, data[pos..], left) == ReadRun([], 0, true);
  }

  /** Reading stops without failure at the end of the input or after `limit` states. */
  lemma ReadSoFarDone<S, V, R>(fn: AggregateFunction<S, V, R>, run: ReadRun<S>, got: seq<S>, data: seq<UInt8>,
                               pos0: nat, pos: nat, left: nat)
    requires pos0 <= pos <= |data| && (left == 0 || pos == |data|)
    requires ReadSoFar(fn, run, got, data, pos0, pos, left)
    ensures run.states == got && !run.failed && run.consumed == pos - pos0
  {
    assert DeserializeRun(fn, data[pos..], left) == ReadRun([], 0, false);
  }

  /** Every state serializes to at least one byte. */
  ghost predicate SerializesNonEmpty<S(!new), V, R>(fn: AggregateFunction<S, V, R>)
  {
    forall s: S :: |fn.serialize(s)| > 0
  }

  /** Round trip of the batch pair: reading `|ss|` states from the
      serialized forms of `ss`, whatever follows them, gives back exactly `ss`
      and consumes exactly their bytes. This needs every state to serialize
      to some bytes: the reader stops at the end of its input before each state. */
  lemma {:induction false} SerializeDeserializeRoundTrip<S(!new), V, R>(fn: AggregateFunction<S, V, R>, ss: seq<S>, rest: seq<UInt8>)
    requires RoundTrip(fn) && SerializesNonEmpty(fn)
    ensures DeserializeRun(fn, SerializeAll(fn, ss) + rest, |ss|) == ReadRun(ss, |SerializeAll(fn, ss)|, false)
    decreases |ss|
  {
    if ss != [] {
      var s, head, tail := ss[0], fn.serialize(ss[0]), SerializeAll(fn, ss[1..]);
      var input := head + (tail + rest);
      assert SerializeAll(fn, ss) + rest == input;
      assert fn.deserialize(fn.serialize(s) + (tail + rest)) == Some((s, |head|));
      assert input != [] && input[|head|..] == tail + rest;
      SerializeDeserializeRoundTrip(fn, ss[1..], rest);
      assert ss == [s] + ss[1..];
    }
  }

  /** The place of the `n`-th state of createAndDeserializeBatch: `place`
      advanced `n` times by `stride`. */
  function NthPlace(place: nat, stride: nat, n: nat): nat
  {
    if n == 0 then place else NthPlace(place, stride, n - 1) + stride
  }

  /** The places createAndDeserializeBatch fills, in order. */
  function Strided(place: nat, stride: nat, n: nat): (ps: seq<nat>)
    ensures |ps| == n
  {
    if n == 0 then [] else Strided(place, stride, n - 1) + [NthPlace(place, stride, n - 1)]
  }

  /** One place more. */
  lemma StridedNext(place: nat, stride: nat, i: nat, next: nat)
    requires next == i + 1
    ensures Strided(place, stride, next) == Strided(place, stride, i) + [NthPlace(place, stride, i)]
    ensures NthPlace(place, stride, next) == NthPlace(place, stride, i) + stride
  {
  }

  /** The `k`-th place filled is the `k`-th strided place. */
  lemma {:induction false} StridedAt(place: nat, stride: nat, n: nat, k: nat)
    requires k < n
    ensures Strided(place, stride, n)[k] == NthPlace(place, stride, k)
    decreases n
  {
    if k < n - 1 {
      StridedAt(place, stride, n - 1, k);
    }
  }

  /** Later places lie strictly above earlier ones when the stride is positive. */
  lemma {:induction false} NthPlaceIncreasing(place: nat, stride: nat, i: nat, j: nat)
    requires 0 < stride && i < j
    ensures NthPlace(place, stride, i) < NthPlace(place, stride, j)
    decreases j
  {
    if i < j - 1 {
      NthPlaceIncreasing(place, stride, i, j - 1);
    }
  }

  /** With a positive stride no place is filled twice. */
  lemma StridedDistinct(place: nat, stride: nat, n: nat)
    requires 0 < stride
    ensures Distinct(Strided(place, stride, n))
  {
    forall i, j | 0 <= i < j < n
      ensures Strided(place, stride, n)[i] != Strided(place, stride, n)[j]
    {
      StridedAt(place, stride, n, i);
      StridedAt(place, stride, n, j);
      NthPlaceIncreasing(place, stride, i, j);
    }
  }

  /** The `n`-th place is `place + n * stride`. */
  lemma {:induction false} NthPlaceIs(place: nat, stride: nat, n: nat)
    ensures NthPlace(place, stride, n) == place + n * stride
    decreases n
  {
    if n > 0 {
      NthPlaceIs(place, stride, n - 1);
      assert n * stride == (n - 1) * stride + stride;
    }
  }

  lemma {:induction false} NthPlaceAtLeast(place: nat, stride: nat, n: nat)
    ensures place <= NthPlace(place, stride, n)
    decreases n
  {
    if n > 0 {
      NthPlaceAtLeast(place, stride, n - 1);
    }
  }

  /** create followed by a successful deserialize, for each state read. */
  function RestoreEvents<S, V>(ps: seq<nat>, ss: seq<S>): seq<Event<S, V>>
    requires |ps| == |ss|
    decreases |ss|
  {
    if ss == [] then [] else RestoreEvents(ps[..|ps| - 1], ss[..|ss| - 1]) + [Created(ps[|ps| - 1]), Restored(ps[|ps| - 1], ss[|ss| - 1])]
  }

  /** One more state restored at one more place. */
  lemma RestoreEventsSnoc<S, V>(ps: seq<nat>, ss: seq<S>, p: nat, s: S)
    requires |ps| == |ss|
    ensures RestoreEvents<S, V>(ps + [p], ss + [s]) == RestoreEvents(ps, ss) + [Created(p), Restored(p, s)]
  {
    assert (ps + [p])[..|ps|] == ps && (ss + [s])[..|ss|] == ss;
  }

  /** One more state read: the run from `rest` is that state followed by the
      run from the bytes after it. */
  lemma RunStep<S, V, R>(fn: AggregateFunction<S, V, R>, rest: seq<UInt8>, limit: nat, s: S, used: nat)
    requires 0 < limit && rest != [] && ReadState(fn, rest) == Some((s, used))
    ensures DeserializeRun(fn, rest, limit).states == [s] + DeserializeRun(fn, rest[used..], limit - 1).states
    ensures DeserializeRun(fn, rest, limit).consumed == used + DeserializeRun(fn, rest[used..], limit - 1).consumed
    ensures DeserializeRun(fn, rest, limit).failed == DeserializeRun(fn, rest[used..], limit - 1).failed
  {
  }

  /** The events of a read that failed: the state created for it is destroyed again. */
  function RolledBack<S, V>(failed: bool, p: nat): seq<Event<S, V>>
  {
    if failed then [Created(p), Destroyed(p)] else []
  }

  /** Creating a state at `p` and restoring `s` into it leaves `s` at `p`. */
  lemma RestoreStep<S, V, R>(fn: AggregateFunction<S, V, R>, m: map<nat, S>, es: seq<Event<S, V>>, p: nat, s: S)
    ensures Replay(fn, m, es + [Created(p), Restored(p, s)]) == Replay(fn, m, es)[p := s]
  {
    var e1: Event<S, V>, e2: Event<S, V> := Created(p), Restored(p, s);
    ReplaySnoc(fn, m, es, e1);
    ReplaySnoc(fn, m, es + [e1], e2);
    assert es + [e1] + [e2] == es + [e1, e2];
  }

  /** The states are restored at increasing places: every place from the
      next one upward is still free when it was free at the start. */
  lemma {:induction false} FreshAbove<S, V, R>(fn: AggregateFunction<S, V, R>, m: map<nat, S>, place: nat, stride: nat, got: seq<S>, a: nat)
    requires 0 < stride && place <= a && a !in m
    requires NthPlace(place, stride, |got|) <= a
    ensures a !in Replay(fn, m, RestoreEvents<S, V>(Strided(place, stride, |got|), got))
    decreases |got|
  {
    if got != [] {
      var n := |got|;
      var ps := Strided(place, stride, n);
      assert ps[..n - 1] == Strided(place, stride, n - 1);
      RestoreStep<S, V, R>(fn, m, RestoreEvents(ps[..n - 1], got[..n - 1]), ps[n - 1], got[n - 1]);
      FreshAbove(fn, m, place, stride, got[..n - 1], a);
    }
  }

  /** Replaying the creation and restoration of the states `got` at
      distinct places `ps` adds exactly those states and changes nothing else. */
  lemma {:induction false} ReplayRestoreEvents<S, V, R>(fn: AggregateFunction<S, V, R>, m: map<nat, S>, ps: seq<nat>, got: seq<S>)
    requires |ps| == |got| && Distinct(ps)
    ensures Replay(fn, m, RestoreEvents<S, V>(ps, got)).Keys == m.Keys + Elems(ps)
    ensures forall a :: a in m && a !in ps ==> Replay(fn, m, RestoreEvents<S, V>(ps, got))[a] == m[a]
    ensures forall k :: 0 <= k < |ps| ==> Replay(fn, m, RestoreEvents<S, V>(ps, got))[ps[k]] == got[k]
    decreases |ps|
  {
    if ps != [] {
      var n := |ps|;
      var ps', got' := ps[..n - 1], got[..n - 1];
      ReplayRestoreEvents<S, V, R>(fn, m, ps', got');
      RestoreStep<S, V, R>(fn, m, RestoreEvents(ps', got'), ps[n - 1], got[n - 1]);
      RestoreOne(m, Replay(fn, m, RestoreEvents<S, V>(ps', got')), Replay(fn, m, RestoreEvents<S, V>(ps, got)), ps, got, ps', got');
    }
  }

  /** The last of the states restored, after the others. */
  lemma RestoreOne<S>(m: map<nat, S>, mid: map<nat, S>, last: map<nat, S>, ps: seq<nat>, got: seq<S>, ps': seq<nat>, got': seq<S>)
    requires 0 < |ps| == |got| && Distinct(ps) && ps' == ps[..|ps| - 1] && got' == got[..|ps| - 1]
    requires mid.Keys == m.Keys + Elems(ps')
    requires forall a :: a in m && a !in ps' ==> mid[a] == m[a]
    requires forall k :: 0 <= k < |ps'| ==> mid[ps'[k]] == got'[k]
    requires last == mid[ps[|ps| - 1] := got[|ps| - 1]]
    ensures last.Keys == m.Keys + Elems(ps)
    ensures forall a :: a in m && a !in ps ==> last[a] == m[a]
    ensures forall k :: 0 <= k < |ps| ==> last[ps[k]] == got[k]
  {
    var n := |ps|;
    var p := ps[n - 1];
    assert Elems(ps) == Elems(ps') + {p} by {
      assert ps == ps' + [p];
    }
    assert p !in ps' by {
      assert forall k :: 0 <= k < n - 1 ==> ps'[k] == ps[k] != p;
    }
    forall k | 0 <= k < n - 1
      ensures last[ps[k]] == got[k]
    {
      assert ps[k] == ps'[k];
    }
  }
}
