/**
The C heap as a ledger of live blocks. Every allocation gets an address of its own, so a block that
is freed twice, or never, shows in the ledger.
*/
module CHeap {

  type Ptr = int
  type Bytes = seq<bv8>

  const NULL: Ptr := 0

  /** A pointer to a byte inside a block. */
  datatype Slice = Slice(block: Ptr, offset: nat)

  datatype Block =
    | Data(bytes: Bytes)                  // strings, serialized values, partition data
    | Pointers(ps: seq<Ptr>)
    | Slices(ss: seq<Slice>)              // pointers into another block
    | Sizes(ns: seq<nat>)
    | Details(message: Ptr, keys: Ptr, values: Ptr, lengths: Ptr, count: nat)  // struct GizmoSQLError
    | ErrorStruct                         // struct AdbcError

  class Heap {
    var live: map<Ptr, Block>
    var next: Ptr

    ghost predicate Valid()
      reads this
    {
      next > NULL && forall p :: p in live ==> NULL < p < next
    }

    constructor ()
      ensures Valid() && live == map[]
    {
      live, next := map[], 1;
    }

    method Alloc(b: Block) returns (p: Ptr)
      requires Valid()
      modifies this
      ensures Valid() && p == old(next) && p !in old(live) && next == p + 1
      ensures live == old(live)[p := b]
    {
      p := next;
      live := live[p := b];
      next := next + 1;
    }

    method Store(p: Ptr, b: Block)
      requires Valid() && p in live
      modifies this`live
      ensures Valid() && live == old(live)[p := b]
    {
      live := live[p := b];
    }

    /** Freeing NULL does nothing; freeing anything but a live block is a double free. */
    method Free(p: Ptr)
      requires Valid() && (p == NULL || p in live)
      modifies this`live
      ensures Valid() && live == old(live) - {p}
    {
      live := live - {p};
    }
  }
}
