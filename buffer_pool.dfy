/**
 * The recyclable byte buffers of the frame pipeline: `bytes.Buffer` values
 * handed out and taken back by the package-level `sync.Pool` named `bufPool`.
 */
module BufferPool {

  type Byte = bv8

  /** A `bytes.Buffer`: a byte sequence reset and refilled in place. */
  class ByteBuffer {
    var data: seq<Byte>

    /** `new(bytes.Buffer)`: an empty buffer. */
    constructor ()
      ensures data == []
    {
      data := [];
    }

    /** `Reset`: the buffer becomes empty. */
    method Reset()
      modifies this
      ensures data == []
    {
      data := [];
    }

    /** `ReadFrom`: appends the bytes read from a part (all of them, or those read before an error). */
    method ReadFrom(chunk: seq<Byte>)
      modifies this
      ensures data == old(data) + chunk
    {
      data := data + chunk;
    }
  }

  /**
   * `bufPool`: the buffers put back and not yet taken again, and the number
   * of buffers its `New` function has created.
   */
  class Pool {
    var free: multiset<ByteBuffer>
    var allocations: nat

    /** The pool as the program starts: nothing put back, nothing created. */
    constructor ()
      ensures free == multiset{} && allocations == 0
    {
      free, allocations := multiset{}, 0;
    }

    /**
     * `Get`: some buffer that was put back, in no particular order, or a new
     * empty one from `New` when none is available.
     */
    method Get() returns (b: ByteBuffer)
      modifies this
      ensures old(free) == multiset{} ==>
        fresh(b) && b.data == [] && free == old(free) && allocations == old(allocations) + 1
      ensures old(free) != multiset{} ==>
        b in old(free) && free == old(free) - multiset{b} && allocations == old(allocations)
    {
      if free == multiset{} {
        b := new ByteBuffer();
        allocations := allocations + 1;
      } else {
        b :| b in free;
        free := free - multiset{b};
      }
    }

    /** `Put`: the buffer is available to later `Get` calls. */
    method Put(b: ByteBuffer)
      modifies this
      ensures free == old(free) + multiset{b} && allocations == old(allocations)
    {
      free := free + multiset{b};
    }
  }
}
