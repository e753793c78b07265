/** The byte streams that serialized states are written to and read from.
    Only what the batch layer relies on is modelled: appending bytes, and
    reading forward from a position with an end-of-file test. */
module Buffers {
  import opened Contract

  /** A sink that bytes are appended to. */
  class WriteBuffer {
    var bytes: seq<UInt8>

    constructor ()
      ensures bytes == []
    {
      bytes := [];
    }

    method Write(b: seq<UInt8>)
      modifies this
      ensures bytes == old(bytes) + b
    {
      bytes := bytes + b;
    }
  }

  /** A source read forward from position `pos`. */
  class ReadBuffer {
    const data: seq<UInt8>
    var pos: nat

    predicate Valid()
      reads this
    {
      pos <= |data|
    }

    constructor (d: seq<UInt8>)
      ensures data == d && pos == 0 && Valid()
    {
      data := d;
      pos := 0;
    }

    /** The bytes not read yet. */
    function Remaining(): (rest: seq<UInt8>)
      reads this
      requires Valid()
      ensures |rest| == |data| - pos
    {
      data[pos..]
    }

    /** eof(): nothing is left to read. */
    predicate Eof()
      reads this
      requires Valid()
    {
      pos == |data|
    }

    /** Consume `n` bytes that a reader has decoded. */
    method Skip(n: nat)
      requires Valid() && pos + n <= |data|
      modifies this
      ensures pos == old(pos) + n && Valid()
      ensures Remaining() == old(Remaining())[n..]
    {
      pos := pos + n;
    }
  }
}
