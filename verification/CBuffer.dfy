/** ftl/ftl.h, `ftl_run_command`: the growing output buffer. */
module CBuffer {
  import opened Protocol

  const INITIAL_CAPACITY: nat := 4096

  /** The buffer has room for the final NUL, and is at most about twice as long as it needs to be. */
  ghost predicate BufferOk(buffer: array<byte>, length: nat, capacity: nat) {
    && buffer.Length == capacity && length + 1 <= capacity
    && INITIAL_CAPACITY <= capacity && (capacity <= INITIAL_CAPACITY || capacity <= 2 * length + 1)
  }

  /** The doubling: it goes on while the doubled size is still too small. */
  method NextCapacity(capacity: nat, needed: nat) returns (next: nat)
    requires capacity > 0
    ensures next >= needed && next >= 2 * capacity
    ensures needed <= 2 * capacity ==> next == 2 * capacity
    ensures needed > 2 * capacity ==> next < 2 * needed
  {
    next := capacity * 2;
    while needed > next
      invariant next >= 2 * capacity && (next > 2 * capacity ==> needed > 2 * capacity && next < 2 * needed)
      decreases needed - next
    {
      next := next * 2;
    }
  }

  /** malloc and realloc: either may fail, and each realloc may have to copy the block it replaces. */
  class Heap {
    var refusals: nat
    /** The sizes of the blocks replaced so far, in all. */
    var replaced: nat

    constructor ()
      ensures refusals == 0 && replaced == 0
    {
      refusals, replaced := 0, 0;
    }

    /** `replacing` is the size of the block given to realloc, 0 for malloc. */
    method Allocate(replacing: nat) returns (granted: bool)
      modifies this
      ensures if granted then refusals == old(refusals) && replaced == old(replaced) + replacing
              else refusals == old(refusals) + 1 && replaced == old(replaced)
    {
      granted := *;
      if granted {
        replaced := replaced + replacing;
      } else {
        refusals := refusals + 1;
      }
    }
  }

  /**
    A chunk of at most CHUNK bytes goes behind what is there. Without room the buffer is
    reallocated, at exactly twice its size; when that fails it is given up.
   */
  method Append(heap: Heap, buffer: array<byte>, length: nat, capacity: nat, chunk: seq<byte>)
    returns (buffer': array?<byte>, length': nat, capacity': nat)
    requires BufferOk(buffer, length, capacity) && 0 < |chunk| <= CHUNK
    modifies buffer, heap
    ensures buffer' == null <==> heap.refusals != old(heap.refusals)
    ensures buffer' == null ==> heap.refusals > old(heap.refusals)
    ensures buffer' == buffer <==> length + |chunk| + 1 <= capacity
    ensures buffer' == buffer ==> capacity' == capacity && heap.replaced == old(heap.replaced)
    ensures buffer' != null && buffer' != buffer ==>
              fresh(buffer') && capacity' == 2 * capacity && heap.replaced == old(heap.replaced) + capacity
    ensures buffer' != null ==>
              BufferOk(buffer', length', capacity') && buffer'[..length'] == old(buffer[..length]) + chunk
  {
    buffer', length', capacity' := buffer, length, capacity;
    if length + |chunk| + 1 > capacity {
      var next := NextCapacity(capacity, length + |chunk| + 1);
      var granted := heap.Allocate(capacity);
      if !granted {
        return null, length, capacity;
      }
      buffer' := new byte[next](_ => 0);
      forall i | 0 <= i < length {
        buffer'[i] := buffer[i];
      }
      capacity' := next;
    }
    forall i | 0 <= i < |chunk| {
      buffer'[length + i] := chunk[i];
    }
    length' := length + |chunk|;
    assert buffer'[..length'] == old(buffer[..length]) + chunk;
  }
}
