/**
`materialize` of go/gizmosql/driver.go: draining a result into memory, with the reference counts of
its batches kept as a ledger. A batch may be yielded more than once.
*/
module Materialize {
  import opened Wrappers

  datatype Batch = Batch(id: nat, rows: nat)

  function Ids(bs: seq<Batch>): multiset<nat> {
    if bs == [] then multiset{} else Ids(bs[..|bs| - 1]) + multiset{bs[|bs| - 1].id}
  }

  function TotalRows(bs: seq<Batch>): nat {
    if bs == [] then 0 else TotalRows(bs[..|bs| - 1]) + bs[|bs| - 1].rows
  }

  lemma IdsNext(bs: seq<Batch>, i: nat)
    requires i < |bs|
    ensures Ids(bs[..i + 1]) == Ids(bs[..i]) + multiset{bs[i].id}
  {
    assert bs[..i + 1][..i] == bs[..i];
  }

  lemma {:induction false} IdsOfPrefix(bs: seq<Batch>, i: nat)
    requires i <= |bs|
    ensures Ids(bs[..i]) <= Ids(bs)
    decreases |bs| - i
  {
    if i == |bs| {
      assert bs[..i] == bs;
    } else {
      IdsNext(bs, i);
      IdsOfPrefix(bs, i + 1);
    }
  }

  /** The reference counts: a batch is live as often as it is referenced. Dropping a reference that
      is not held is not allowed. */
  class References {
    var live: multiset<nat>

    constructor ()
      ensures live == multiset{}
    {
      live := multiset{};
    }

    method Retain(b: Batch)
      modifies this
      ensures live == old(live) + multiset{b.id}
    {
      live := live + multiset{b.id};
    }

    method Release(b: Batch)
      requires b.id in live
      modifies this
      ensures live == old(live) - multiset{b.id}
    {
      live := live - multiset{b.id};
    }

    method RetainAll(bs: seq<Batch>)
      modifies this
      ensures live == old(live) + Ids(bs)
    {
      for i := 0 to |bs|
        invariant live == old(live) + Ids(bs[..i])
      {
        IdsNext(bs, i);
        Retain(bs[i]);
      }
      assert bs[..|bs|] == bs;
    }

    method ReleaseAll(bs: seq<Batch>)
      requires Ids(bs) <= live
      modifies this
      ensures live == old(live) - Ids(bs)
    {
      for i := 0 to |bs|
        invariant live == old(live) - Ids(bs[..i])
      {
        IdsNext(bs, i);
        IdsOfPrefix(bs, i + 1);
        ghost var gone, one := Ids(bs[..i]), multiset{bs[i].id};
        assert gone + one <= old(live);
        assert bs[i].id in one && bs[i].id in old(live) - gone;
        Release(bs[i]);
      }
      assert bs[..|bs|] == bs;
    }
  }

  /** A streaming result: it holds a reference to its current batch, and ends either at the last batch
      or, when `broken`, with an error after it. */
  class Reader {
    const ledger: References
    const batches: seq<Batch>
    const broken: bool
    var next: nat
    var holding: bool
    var refs: nat

    ghost predicate Valid()
      reads this, ledger
    {
      && next <= |batches|
      && (holding ==> 0 < next && batches[next - 1].id in ledger.live)
    }

    /** The reference it holds itself. */
    ghost function Held(): multiset<nat>
      requires Valid()
      reads this, ledger
    {
      if holding then multiset{batches[next - 1].id} else multiset{}
    }

    constructor (ledger: References, batches: seq<Batch>, broken: bool)
      ensures Valid() && next == 0 && !holding && refs == 1
      ensures this.ledger == ledger && this.batches == batches && this.broken == broken
    {
      this.ledger, this.batches, this.broken := ledger, batches, broken;
      next, holding, refs := 0, false, 1;
    }

    method Next() returns (more: bool)
      requires Valid()
      modifies this`next, this`holding, ledger
      ensures Valid() && more == (old(next) < |batches|) && holding == more
      ensures next == if more then old(next) + 1 else old(next)
      ensures ledger.live == old(ledger.live) - old(Held()) + Held()
    {
      if holding {
        ledger.Release(batches[next - 1]);
        holding := false;
      }
      if next == |batches| {
        return false;
      }
      ledger.Retain(batches[next]);
      next := next + 1;
      holding := true;
      return true;
    }

    method Release()
      requires Valid() && refs > 0
      modifies this`refs, this`holding, ledger
      ensures Valid() && refs == old(refs) - 1
      ensures holding == (old(holding) && refs > 0)
      ensures ledger.live == if old(holding) && !holding then old(ledger.live) - multiset{batches[next - 1].id}
                             else old(ledger.live)
    {
      refs := refs - 1;
      if refs == 0 && holding {
        ledger.Release(batches[next - 1]);
        holding := false;
      }
    }
  }

  datatype Result = Cached(batches: seq<Batch>, affected: int) | Failed

  /** `array.NewRecordReader`: keeps a reference to each batch, unless a batch does not fit the
      schema. */
  method NewRecordReader(ledger: References, recs: seq<Batch>, fits: bool) returns (cached: Option<seq<Batch>>)
    modifies ledger
    ensures cached == if fits then Some(recs) else None
    ensures ledger.live == if fits then old(ledger.live) + Ids(recs) else old(ledger.live)
  {
    ledger.RetainAll(recs);
    if !fits {
      ledger.ReleaseAll(recs);
      assert ledger.live == old(ledger.live);
      return None;
    }
    return Some(recs);
  }

  lemma HandOver(all: multiset<nat>, held: multiset<nat>, next: multiset<nat>)
    ensures (all + held + held) - held + next == all + held + next
  {
  }

  lemma Extends(bs: seq<Batch>, recs: seq<Batch>)
    requires |recs| < |bs| && recs == bs[..|recs|]
    ensures var b := bs[|recs|]; var more := recs + [b];
            && more == bs[..|more|]
            && Ids(more) == Ids(recs) + multiset{b.id}
            && TotalRows(more) == TotalRows(recs) + b.rows
  {
    var more := recs + [bs[|recs|]];
    assert more[..|more| - 1] == recs;
  }

  lemma NothingYet(m: multiset<nat>)
    ensures m - multiset{} == m == m + Ids([])
  {
  }

  /** One turn of the loop: the current batch is retained, and the reader moves on. */
  method Take(reader: Reader, ghost all: multiset<nat>) returns (rec: Batch, more: bool)
    requires reader.Valid() && reader.holding && reader.ledger.live == all + reader.Held()
    modifies reader`next, reader`holding, reader.ledger
    ensures reader.Valid() && rec == reader.batches[old(reader.next) - 1]
    ensures more == reader.holding == (old(reader.next) < |reader.batches|)
    ensures reader.next == old(reader.next) + (if more then 1 else 0)
    ensures reader.ledger.live == all + multiset{rec.id} + reader.Held()
  {
    rec := reader.batches[reader.next - 1];
    ghost var held := reader.Held();
    reader.ledger.Retain(rec);
    assert reader.ledger.live == all + held + held;
    more := reader.Next();
    HandOver(all, held, reader.Held());
  }

  /** The draining loop: every batch of a reader at its start is read, in order, and retained once. */
  method Drain(reader: Reader) returns (recs: seq<Batch>, rows: nat)
    requires reader.Valid() && reader.next == 0 && !reader.holding
    modifies reader`next, reader`holding, reader.ledger
    ensures recs == reader.batches && rows == TotalRows(recs)
    ensures reader.Valid() && reader.next == |reader.batches| && !reader.holding
    ensures reader.ledger.live == old(reader.ledger.live) + Ids(recs)
  {
    assert TotalRows([]) == 0;
    ghost var all := reader.ledger.live;
    NothingYet(all);
    hide Ids, TotalRows;
    recs, rows := [], 0;
    var more := reader.Next();
    while more
      invariant reader.Valid() && more == reader.holding
      invariant reader.next == |recs| + (if more then 1 else 0) && (!more ==> reader.next == |reader.batches|)
      invariant recs == reader.batches[..|recs|] && rows == TotalRows(recs)
      invariant all == old(reader.ledger.live) + Ids(recs) && reader.ledger.live == all + reader.Held()
      decreases |reader.batches| - |recs|
    {
      var rec: Batch;
      rec, more := Take(reader, all);
      all := all + multiset{rec.id};
      Extends(reader.batches, recs);
      recs := recs + [rec];
      rows := rows + rec.rows;
    }
  }

  lemma Returned(m: multiset<nat>, ids: multiset<nat>)
    ensures ids <= m + ids && m + ids - ids == m && m + ids + ids - ids == m + ids
    ensures ids <= m + ids + ids
  {
  }

  /** What follows the draining: the records, retained once each, become a reader of their own or are
      given up, and the reference taken while draining goes either way. */
  method Wrap(ledger: References, recs: seq<Batch>, broken: bool, fits: bool, ghost before: multiset<nat>)
    returns (cached: Option<seq<Batch>>)
    requires ledger.live == before + Ids(recs)
    modifies ledger
    ensures cached == if broken || !fits then None else Some(recs)
    ensures ledger.live == if cached.Some? then before + Ids(recs) else before
  {
    Returned(before, Ids(recs));
    if broken {
      ledger.ReleaseAll(recs);
      return None;
    }
    cached := NewRecordReader(ledger, recs, fits);
    ledger.ReleaseAll(recs);
  }

  /** Success yields exactly the source's batches in order, each with one reference more than before,
      and an unknown count becomes the number of rows; failure leaves no reference behind. The source
      is drained and released once either way. */
  method MaterializeResult(reader: Reader, affected: int, fits: bool) returns (r: Result)
    requires reader.Valid() && reader.next == 0 && !reader.holding && reader.refs == 1
    modifies reader, reader.ledger
    ensures r == if reader.broken || !fits then Failed
                 else Cached(reader.batches, if affected < 0 then TotalRows(reader.batches) else affected)
    ensures reader.ledger.live == if r.Cached? then old(reader.ledger.live) + Ids(reader.batches)
                                  else old(reader.ledger.live)
    ensures reader.next == |reader.batches| && reader.refs == 0 && !reader.holding
  {
    ghost var before := reader.ledger.live;
    var recs, rows := Drain(reader);
    var cached := Wrap(reader.ledger, recs, reader.broken, fits, before);
    reader.Release();
    if cached.None? {
      return Failed;
    }
    return Cached(cached.value, if affected < 0 then rows else affected);
  }
}
