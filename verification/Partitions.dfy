/**
The result of ExecutePartitions on the C side (go/pkg/gizmosql/driver.go): every partition id is
copied into one flat buffer, next to an array of pointers into that buffer and an array of lengths.
*/
module Partitions {
  import opened CHeap

  /** The ids one after the other. */
  function Concat(ids: seq<Bytes>): Bytes {
    if |ids| == 0 then [] else ids[0] + Concat(ids[1..])
  }

  /** Where id `i` starts in the flat buffer. */
  function Offset(ids: seq<Bytes>, i: nat): nat
    requires i <= |ids|
  {
    |Concat(ids[..i])|
  }

  lemma {:induction false} ConcatOneMore(ids: seq<Bytes>, i: nat)
    requires i < |ids|
    ensures Concat(ids[..i + 1]) == Concat(ids[..i]) + ids[i]
  {
    if i == 0 {
      assert ids[..1] == [ids[0]];
      assert Concat([]) == [] && ids[..0] == [];
      assert [ids[0]][1..] == [];
    } else {
      ConcatOneMore(ids[1..], i - 1);
      assert ids[..i + 1][1..] == ids[1..][..i] && ids[..i][1..] == ids[1..][..i - 1];
    }
  }

  lemma {:induction false} ConcatSplit(ids: seq<Bytes>, i: nat)
    requires i <= |ids|
    ensures Concat(ids) == Concat(ids[..i]) + Concat(ids[i..])
  {
    if i == 0 {
      assert ids[..0] == [] && ids[0..] == ids;
    } else {
      ConcatSplit(ids, i - 1);
      ConcatOneMore(ids, i - 1);
      assert ids[i - 1..][1..] == ids[i..];
    }
  }

  /** The slices tile the buffer: they are consecutive, start at 0, and end where the buffer ends. */
  lemma SlicesTile(ids: seq<Bytes>)
    ensures Offset(ids, 0) == 0 && Offset(ids, |ids|) == |Concat(ids)|
    ensures forall i :: 0 <= i < |ids| ==> Offset(ids, i) + |ids[i]| == Offset(ids, i + 1)
  {
    forall i | 0 <= i < |ids| ensures Offset(ids, i) + |ids[i]| == Offset(ids, i + 1) {
      ConcatOneMore(ids, i);
    }
    assert ids[..|ids|] == ids && ids[..0] == [];
  }

  lemma {:induction false} OffsetsGrow(ids: seq<Bytes>, i: nat, j: nat)
    requires i <= j <= |ids|
    ensures Offset(ids, i) <= Offset(ids, j)
    decreases j - i
  {
    if i == j {
    } else {
      SlicesTile(ids);
      OffsetsGrow(ids, i + 1, j);
    }
  }

  /** Each slice holds its id, and two different slices share no byte of the buffer. */
  lemma SlicesRoundTrip(ids: seq<Bytes>, i: nat, j: nat)
    requires i < j < |ids|
    ensures Offset(ids, i) + |ids[i]| <= Offset(ids, j) && Offset(ids, j) + |ids[j]| <= |Concat(ids)|
    ensures Concat(ids)[Offset(ids, i)..][..|ids[i]|] == ids[i]
    ensures Concat(ids)[Offset(ids, j)..][..|ids[j]|] == ids[j]
  {
    SlicesTile(ids);
    OffsetsGrow(ids, i + 1, j);
    OffsetsGrow(ids, j + 1, |ids|);
    SliceIsId(ids, i);
    SliceIsId(ids, j);
  }

  lemma SliceIsId(ids: seq<Bytes>, i: nat)
    requires i < |ids|
    ensures Offset(ids, i) + |ids[i]| <= |Concat(ids)|
    ensures Concat(ids)[Offset(ids, i)..][..|ids[i]|] == ids[i]
  {
    ConcatSplit(ids, i);
    assert ids[i..][0] == ids[i];
  }

  /** When the packing loop stays in bounds: enough entries, and a byte to point at for the last id. */
  predicate Fits(ids: seq<Bytes>, numPartitions: nat) {
    |ids| <= numPartitions && (|ids| == 0 || |ids[|ids| - 1]| > 0)
  }

  lemma RoomLeft(ids: seq<Bytes>, i: nat)
    requires i < |ids| && |ids[|ids| - 1]| > 0
    ensures Offset(ids, i) < |Concat(ids)|
  {
    SlicesTile(ids);
    OffsetsGrow(ids, i, |ids| - 1);
  }

  // ----- The three blocks, one round at a time -----

  /** The pointer array, filled up to `count`. */
  predicate PointsInto(b: Block, buffer: Ptr, num: nat, ids: seq<Bytes>, count: nat)
    requires count <= |ids|
  {
    && b.Slices? && |b.ss| == num && count <= num
    && forall i :: 0 <= i < count ==> b.ss[i] == Slice(buffer, Offset(ids, i))
  }

  /** The length array, filled up to `count`. */
  predicate Measures(b: Block, num: nat, ids: seq<Bytes>, count: nat)
    requires count <= |ids|
  {
    && b.Sizes? && |b.ns| == num && count <= num
    && forall i :: 0 <= i < count ==> b.ns[i] == |ids[i]|
  }

  /** The flat buffer with the first `count` ids in it and zeros after them. */
  function Buffer(ids: seq<Bytes>, count: nat): Bytes
    requires count <= |ids|
  {
    ConcatSplit(ids, count);
    Concat(ids[..count]) + seq(|Concat(ids)| - Offset(ids, count), _ => 0)
  }

  lemma PointsIntoOneMore(b: Block, buffer: Ptr, num: nat, ids: seq<Bytes>, i: nat)
    requires i < |ids| && i < num && PointsInto(b, buffer, num, ids, i)
    ensures PointsInto(Slices(b.ss[i := Slice(buffer, Offset(ids, i))]), buffer, num, ids, i + 1)
    ensures b.Slices? && i < |b.ss|
  {
    hide Offset;
  }

  lemma MeasuresOneMore(b: Block, num: nat, ids: seq<Bytes>, i: nat)
    requires i < |ids| && i < num && Measures(b, num, ids, i)
    ensures Measures(Sizes(b.ns[i := |ids[i]|]), num, ids, i + 1)
    ensures b.Sizes? && i < |b.ns|
  {
  }

  /** `copy` into the buffer, right after what is there already. */
  lemma FilledOneMore(ids: seq<Bytes>, i: nat)
    requires i < |ids|
    ensures var at := Offset(ids, i); var dst := Buffer(ids, i);
            at + |ids[i]| <= |dst| && dst[..at] + ids[i] + dst[at + |ids[i]|..] == Buffer(ids, i + 1)
  {
    ConcatOneMore(ids, i);
    ConcatSplit(ids, i + 1);
    hide Concat;
  }

  /** Stores into three different blocks do not disturb each other or anything else. */
  lemma StoredThrice(live: map<Ptr, Block>, p: Ptr, x: Block, q: Ptr, y: Block, r: Ptr, z: Block)
    requires p in live && q in live && r in live && p != q && q != r && p != r
    ensures var after := live[p := x][q := y][r := z];
            && after[p] == x && after[q] == y && after[r] == z
            && after - {p, r, q} == live - {p, r, q}
  {
  }

  /** `struct AdbcPartitions`. */
  class PartitionsC {
    const heap: Heap
    var numPartitions: nat
    var partitions: Ptr
    var partitionLengths: Ptr
    var privateData: Ptr

    constructor (heap: Heap)
      ensures this.heap == heap && numPartitions == 0
      ensures partitions == NULL && partitionLengths == NULL && privateData == NULL
    {
      this.heap, numPartitions := heap, 0;
      partitions, partitionLengths, privateData := NULL, NULL, NULL;
    }

    /** The two arrays describe `ids` up to `count`, in a buffer of its own. */
    ghost predicate Describes(ids: seq<Bytes>, count: nat)
      reads this, heap
    {
      && count <= |ids| && count <= numPartitions
      && partitions in heap.live && PointsInto(heap.live[partitions], privateData, numPartitions, ids, count)
      && partitionLengths in heap.live && Measures(heap.live[partitionLengths], numPartitions, ids, count)
    }

    /** The three blocks, apart from each other. */
    ghost predicate Holds()
      reads this, heap
    {
      && heap.Valid()
      && partitions in heap.live && partitionLengths in heap.live && partitions != partitionLengths
      && (privateData == NULL ||
          (privateData in heap.live && privateData != partitions && privateData != partitionLengths))
    }

    /** One round of the packing loop: the pointer, the bytes, the length. */
    method PackOne(ids: seq<Bytes>, i: nat, at: nat)
      requires Holds() && i < |ids| && i < numPartitions && Describes(ids, i) && privateData != NULL
      requires at == Offset(ids, i) < |Concat(ids)|
      requires heap.live[privateData] == Data(Buffer(ids, i))
      modifies heap
      ensures Holds() && Describes(ids, i + 1) && at + |ids[i]| == Offset(ids, i + 1) <= |Concat(ids)|
      ensures heap.live[privateData] == Data(Buffer(ids, i + 1))
      ensures heap.live - {partitions, partitionLengths, privateData} ==
              old(heap.live) - {partitions, partitionLengths, privateData}
    {
      SlicesTile(ids);
      OffsetsGrow(ids, i + 1, |ids|);
      ConcatOneMore(ids, i);
      PointsIntoOneMore(heap.live[partitions], privateData, numPartitions, ids, i);
      MeasuresOneMore(heap.live[partitionLengths], numPartitions, ids, i);
      FilledOneMore(ids, i);
      hide Concat, Offset, PointsInto, Measures, Buffer;
      ghost var before := heap.live;
      var slices := heap.live[partitions].ss[i := Slice(privateData, at)];
      heap.Store(partitions, Slices(slices));
      var dst := heap.live[privateData].bytes;
      heap.Store(privateData, Data(dst[..at] + ids[i] + dst[at + |ids[i]|..]));
      var lengths := heap.live[partitionLengths].ns[i := |ids[i]|];
      heap.Store(partitionLengths, Sizes(lengths));
      StoredThrice(before, partitions, Slices(slices), privateData, heap.live[privateData],
                   partitionLengths, Sizes(lengths));
    }

    /** The three allocations of an empty result; `calloc` may answer NULL for an empty buffer. */
    method Allocate(num: nat, totalLen: nat, emptyIsNull: bool, oldSlices: seq<Slice>, oldSizes: seq<nat>)
      requires heap.Valid() && |oldSlices| == num && |oldSizes| == num
      modifies this, heap
      ensures Holds() && numPartitions == num
      ensures heap.live[partitions].Slices? && |heap.live[partitions].ss| == num
      ensures heap.live[partitionLengths].Sizes? && |heap.live[partitionLengths].ns| == num
      ensures privateData == NULL <==> emptyIsNull && totalLen == 0
      ensures privateData != NULL ==> heap.live[privateData] == Data(seq(totalLen, _ => 0))
      ensures heap.live - {partitions, partitionLengths, privateData} == old(heap.live)
      ensures {partitions, partitionLengths, privateData} !! old(heap.live.Keys)
    {
      numPartitions := num;
      partitions := heap.Alloc(Slices(oldSlices));
      partitionLengths := heap.Alloc(Sizes(oldSizes));
      if totalLen == 0 && emptyIsNull {
        privateData := NULL;
      } else {
        privateData := heap.Alloc(Data(seq(totalLen, _ => 0)));
      }
    }

    /**
    Fills the struct. What `malloc` leaves in the two arrays is arbitrary. A panic is what Go raises for
    an index out of range; the caller turns it into a status.
    */
    method Pack(ids: seq<Bytes>, num: nat, emptyIsNull: bool, oldSlices: seq<Slice>, oldSizes: seq<nat>)
      returns (panicked: bool)
      requires heap.Valid() && |oldSlices| == num && |oldSizes| == num
      modifies this, heap
      ensures Holds() && numPartitions == num
      ensures panicked <==> !Fits(ids, num)
      ensures panicked <==> |ids| > num || (ids != [] && ids[|ids| - 1] == [])
      ensures !panicked ==> Describes(ids, |ids|)
      ensures !panicked && privateData != NULL ==> heap.live[privateData] == Data(Concat(ids))
      ensures privateData == NULL <==> emptyIsNull && Concat(ids) == []
      ensures heap.live - {partitions, partitionLengths, privateData} == old(heap.live)
    {
      var totalLen := TotalLength(ids);
      Allocate(num, totalLen, emptyIsNull, oldSlices, oldSizes);
      SlicesTile(ids);
      var at := 0;
      for i := 0 to |ids|
        invariant Holds() && numPartitions == num && totalLen == |Concat(ids)|
        invariant at == Offset(ids, i) <= totalLen
        invariant privateData == NULL <==> emptyIsNull && totalLen == 0
        invariant Describes(ids, i)
        invariant privateData != NULL ==> heap.live[privateData] == Data(Buffer(ids, i))
        invariant heap.live - {partitions, partitionLengths, privateData} == old(heap.live)
        invariant i > 0 ==> Offset(ids, i - 1) < totalLen
      {
        if i >= numPartitions {
          return true;
        }
        if at >= totalLen {
          if |ids[|ids| - 1]| > 0 {
            RoomLeft(ids, i);
          }
          return true;
        }
        PackOne(ids, i, at);
        at := at + |ids[i]|;
      }
      assert ids[..|ids|] == ids;
      return false;
    }

    /** The bytes a client reads for partition `i`. */
    ghost function Partition(i: nat): Bytes
      requires i < numPartitions
      requires partitions in heap.live && heap.live[partitions].Slices? && |heap.live[partitions].ss| == numPartitions
      requires partitionLengths in heap.live && heap.live[partitionLengths].Sizes?
      requires |heap.live[partitionLengths].ns| == numPartitions
      reads this, heap
    {
      var s, n := heap.live[partitions].ss[i], heap.live[partitionLengths].ns[i];
      if s.block in heap.live && heap.live[s.block].Data? && s.offset + n <= |heap.live[s.block].bytes|
      then heap.live[s.block].bytes[s.offset..s.offset + n]
      else []
    }

    /** Reading any partition back gives the id it was made from. */
    lemma PartitionsReadBack(ids: seq<Bytes>, i: nat)
      requires Holds() && Describes(ids, |ids|) && i < |ids|
      requires privateData != NULL && heap.live[privateData] == Data(Concat(ids))
      ensures Partition(i) == ids[i]
    {
      SliceIsId(ids, i);
      var at, n := Offset(ids, i), |ids[i]|;
      assert Concat(ids)[at..at + n] == Concat(ids)[at..][..n];
    }

    /** `releasePartitions`. */
    method Release()
      requires heap.Valid()
      requires privateData == NULL || Holds()
      modifies this, heap
      ensures heap.Valid() && privateData == NULL && numPartitions == old(numPartitions)
      ensures old(privateData) == NULL ==>
                && heap.live == old(heap.live)
                && partitions == old(partitions) && partitionLengths == old(partitionLengths)
      ensures old(privateData) != NULL ==>
                && heap.live == old(heap.live) - {old(partitions), old(partitionLengths), old(privateData)}
                && partitions == NULL && partitionLengths == NULL
    {
      if privateData == NULL {
        return;
      }
      heap.Free(partitions);
      heap.Free(partitionLengths);
      heap.Free(privateData);
      partitions, partitionLengths, privateData := NULL, NULL, NULL;
    }
  }

  /** The first loop: how long the flat buffer must be. */
  method TotalLength(ids: seq<Bytes>) returns (totalLen: nat)
    ensures totalLen == |Concat(ids)|
  {
    totalLen := 0;
    for i := 0 to |ids|
      invariant totalLen == |Concat(ids[..i])|
    {
      ConcatOneMore(ids, i);
      totalLen := totalLen + |ids[i]|;
    }
    assert ids[..|ids|] == ids;
  }

  /**
  Packing and then, unless that panicked, releasing twice: the second release changes nothing. What stays
  behind: all the blocks of a packing that panicked, for which the caller gets no release callback; the two
  arrays when the buffer is empty and `calloc` answers NULL for it; nothing otherwise.
  */
  method PackThenRelease(heap: Heap, ids: seq<Bytes>, num: nat, emptyIsNull: bool,
                         oldSlices: seq<Slice>, oldSizes: seq<nat>)
    returns (leaked: set<Ptr>)
    requires heap.Valid() && |oldSlices| == num && |oldSizes| == num
    modifies heap
    ensures heap.live - leaked == old(heap.live) && leaked <= heap.live.Keys
    ensures |leaked| == if emptyIsNull && Concat(ids) == [] then 2 else if Fits(ids, num) then 0 else 3
  {
    var p := new PartitionsC(heap);
    var panicked := p.Pack(ids, num, emptyIsNull, oldSlices, oldSizes);
    leaked := {p.partitions, p.partitionLengths};
    if p.privateData != NULL {
      leaked := leaked + {p.privateData};
    }
    if !panicked {
      p.Release();
      p.Release();
      if p.partitions == NULL {
        leaked := {};
      }
    }
  }
}
