/**
Error reporting across the C boundary: `setErr`, `setErrWithDetails` and `maybeError` of
go/pkg/gizmosql/driver.go, and the release callbacks and detail getters of utils.c and utils.h, over
the heap ledger.
*/
module ErrorHeap {
  import opened CHeap
  import opened Wrappers

  const PRIVATE_DATA: int := -0x8000_0000   // ADBC_ERROR_VENDOR_CODE_PRIVATE_DATA
  const PREFIX: Bytes := [91, 71, 105, 122, 109, 111, 83, 81, 76, 93, 32]   // "[GizmoSQL] "

  /** What a detail serializes to, or the text of the error that prevented it. */
  datatype Payload = Value(bytes: Bytes) | Unserializable(text: Bytes)

  datatype Detail = Detail(key: Bytes, payload: Payload)

  type SqlState = s: Bytes | |s| == 5 witness [0, 0, 0, 0, 0]

  datatype AdbcError = AdbcError(message: Bytes, vendorCode: int, sqlState: SqlState, details: seq<Detail>)

  /** `errors.As(err, &adbcError)` either finds an ADBC error with its status, or there is only a text. */
  datatype GoError = Plain(text: Bytes) | Coded(code: nat, error: AdbcError)

  const STATUS_OK: nat := 0
  const STATUS_UNKNOWN: nat := 1

  const ENOENT := 2
  const EIO := 5
  const EACCES := 13
  const EEXIST := 17
  const EINVAL := 22
  const ENOTSUP := 95
  const ETIMEDOUT := 110
  const ECANCELED := 125

  /** The errno of a stream callback for an ADBC status, Linux values. */
  function Errno(status: nat): int {
    match status
    case 2 => ENOTSUP
    case 3 => ENOENT
    case 4 => EEXIST
    case 5 => EINVAL
    case 6 => EINVAL
    case 11 => ECANCELED
    case 12 => ETIMEDOUT
    case 13 => EACCES
    case 14 => EACCES
    case _ => EIO
  }

  /** The bytes kept for a detail: a detail that cannot be serialized keeps the reason instead. */
  function Stored(d: Detail): Bytes {
    match d.payload
    case Value(b) => b
    case Unserializable(m) => m
  }

  /** How many blocks an error with details takes; they lie one after the other. */
  function Span(ds: seq<Detail>): nat {
    if |ds| == 0 then 2 else 5 + 2 * |ds|
  }

  /** The block at offset `k` of an error with details stored from address `p` on. */
  function BlockAt(p: Ptr, e: AdbcError, k: nat): Block
    requires k < Span(e.details)
  {
    var n := |e.details|;
    if k == 0 then (if n == 0 then Details(p + 1, NULL, NULL, NULL, 0) else Details(p + 1, p + 2, p + 3, p + 4, n))
    else if k == 1 then Data(e.message)
    else if k == 2 then Pointers(seq(n, i requires 0 <= i < n => p + 5 + 2 * i))
    else if k == 3 then Pointers(seq(n, i requires 0 <= i < n => p + 6 + 2 * i))
    else if k == 4 then Sizes(seq(n, i requires 0 <= i < n => |Stored(e.details[i])|))
    else if k % 2 == 1 then Data(e.details[(k - 5) / 2].key)
    else Data(Stored(e.details[(k - 6) / 2]))
  }

  /** Block `k` of `e` is in place. */
  ghost predicate InPlace(live: map<Ptr, Block>, p: Ptr, e: AdbcError, k: nat)
    requires k < Span(e.details)
  {
    p + k in live && live[p + k] == BlockAt(p, e, k)
  }

  /** Entry `i` of the key and value arrays at `p`, and what it points to. */
  ghost predicate EntryIn(live: map<Ptr, Block>, p: Ptr, n: nat, i: nat) {
    && i < n
    && p + 2 in live && live[p + 2].Pointers? && |live[p + 2].ps| == n
    && p + 3 in live && live[p + 3].Pointers? && |live[p + 3].ps| == n
    && live[p + 2].ps[i] == p + 5 + 2 * i && p + 5 + 2 * i in live
    && live[p + 3].ps[i] == p + 6 + 2 * i && p + 6 + 2 * i in live
  }

  /** The blocks `from` up to `upTo` of `e` are in place. */
  ghost predicate Lies(live: map<Ptr, Block>, p: Ptr, e: AdbcError, from: nat, upTo: nat)
    requires upTo <= Span(e.details)
  {
    forall k :: from <= k < upTo ==> InPlace(live, p, e, k)
  }

  predicate Within(p: Ptr, n: nat, q: Ptr) {
    p <= q < p + n
  }

  ghost function Range(p: Ptr, n: nat): set<Ptr> {
    set q: Ptr | p <= q < p + n && Within(p, n, q)
  }

  /** Nothing but the blocks in `gone` and `come` differs between two heaps. */
  ghost predicate Exchanged(before: map<Ptr, Block>, after: map<Ptr, Block>, gone: set<Ptr>, come: set<Ptr>) {
    && after.Keys == before.Keys - gone + come
    && forall p :: p in before && p !in gone && p !in come ==> p in after && after[p] == before[p]
  }

  /** Everything below address `from` is as it was. */
  ghost predicate KeptBelow(before: map<Ptr, Block>, after: map<Ptr, Block>, from: Ptr) {
    && (forall q :: q in before && q < from ==> q in after && after[q] == before[q])
    && (forall q :: q in after && q < from ==> q in before)
  }

  datatype Release = NoRelease | ReleaseSimple | ReleaseDetails

  /** What a detail getter hands out: two pointers and a length. */
  datatype DetailView = DetailView(key: Ptr, value: Ptr, length: nat)

  const NO_DETAIL := DetailView(NULL, NULL, 0)

  /** Which of its three ways `setErrWithDetails` goes. */
  predicate TakesDetailPath(wanted: int, e: AdbcError) {
    wanted == PRIVATE_DATA && (|e.details| > 0 || e.vendorCode == 0 || e.vendorCode == PRIVATE_DATA)
  }

  /** The vendor code afterwards: the value that asks for details is never replaced by itself. */
  function VendorCode(wanted: int, e: AdbcError): int {
    if TakesDetailPath(wanted, e) || e.vendorCode == PRIVATE_DATA then wanted else e.vendorCode
  }

  /** `struct AdbcError`; `shown` is the error whose details it holds, when it holds details. */
  class ErrorC {
    const heap: Heap
    const sprintf: Bytes -> Bytes    // fmt.Sprintf of a format and no values
    var message: Ptr
    var vendorCode: int
    var sqlState: SqlState
    var release: Release
    var privateData: Ptr
    ghost var shown: AdbcError

    constructor (heap: Heap, sprintf: Bytes -> Bytes)
      ensures this.heap == heap && this.sprintf == sprintf && vendorCode == 0
      ensures message == NULL && release == NoRelease && privateData == NULL
    {
      this.heap, this.sprintf, vendorCode := heap, sprintf, 0;
      message, sqlState, release, privateData := NULL, [0, 0, 0, 0, 0], NoRelease, NULL;
      shown := AdbcError([], 0, [0, 0, 0, 0, 0], []);
    }

    ghost predicate Valid()
      reads this, heap
    {
      && heap.Valid()
      && (release == ReleaseSimple ==> message in heap.live && message != NULL && heap.live[message].Data?)
      && (release == ReleaseDetails ==>
            && privateData > NULL && message == privateData + 1
            && Lies(heap.live, privateData, shown, 0, Span(shown.details)))
    }

    /** The message `setErr` makes of a format: the prefix is not doubled. */
    function Told(format: Bytes): Bytes {
      if PREFIX <= format then sprintf(format) else PREFIX + sprintf(format)
    }

    /** The blocks the error owns: what releasing it must free, no more and no less. */
    ghost function Owned(): set<Ptr>
      reads this
    {
      match release
      case NoRelease => {}
      case ReleaseSimple => {message}
      case ReleaseDetails => Range(privateData, Span(shown.details))
    }

    lemma OwnedIsLive()
      requires Valid()
      ensures Owned() <= heap.live.Keys
    {
      if release == ReleaseDetails {
        forall q | q in Owned() ensures q in heap.live {
          assert InPlace(heap.live, privateData, shown, q - privateData);
        }
      }
    }

    /** `GizmoSQL_release_error`. */
    method ReleaseSimpleError()
      requires Valid() && release == ReleaseSimple
      modifies this`message, this`release, heap
      ensures Valid() && message == NULL && release == NoRelease
      ensures heap.live == old(heap.live) - old(Owned()) && heap.next == old(heap.next)
    {
      heap.Free(message);
      message := NULL;
      release := NoRelease;
    }

    /** Where the struct and its arrays lie. */
    lemma StructAt()
      requires Valid() && release == ReleaseDetails
      ensures privateData in heap.live && message in heap.live
      ensures var p, n := privateData, |shown.details|;
              && heap.live[p] == (if n == 0 then Details(p + 1, NULL, NULL, NULL, 0)
                                  else Details(p + 1, p + 2, p + 3, p + 4, n))
              && (n > 0 ==> p + 2 in heap.live && p + 3 in heap.live && p + 4 in heap.live)
    {
      assert InPlace(heap.live, privateData, shown, 0) && InPlace(heap.live, privateData, shown, 1);
      if |shown.details| > 0 {
        assert InPlace(heap.live, privateData, shown, 2) && InPlace(heap.live, privateData, shown, 3);
        assert InPlace(heap.live, privateData, shown, 4);
      }
    }

    /** Where the keys and values lie. */
    lemma EntryAt(i: nat)
      requires Valid() && release == ReleaseDetails && i < |shown.details|
      ensures EntryIn(heap.live, privateData, |shown.details|, i)
    {
      assert InPlace(heap.live, privateData, shown, 2) && InPlace(heap.live, privateData, shown, 3);
      assert InPlace(heap.live, privateData, shown, 5 + 2 * i) && InPlace(heap.live, privateData, shown, 6 + 2 * i);
    }

    /** The loop of `GizmoSQLReleaseErrWithDetails`: frees each key and each value. */
    method FreeEntries(details: Block)
      requires Valid() && release == ReleaseDetails && |shown.details| > 0
      requires privateData in heap.live && details == heap.live[privateData]
      modifies heap
      ensures heap.Valid() && heap.next == old(heap.next)
      ensures heap.live == old(heap.live) - Range(privateData + 5, 2 * |shown.details|)
    {
      hide BlockAt, InPlace, Lies;
      StructAt();
      ghost var p, n := privateData, |shown.details|;
      ghost var before := heap.live;
      forall i: nat | i < n ensures EntryIn(before, p, n, i) {
        EntryAt(i);
      }
      var i := 0;
      while i < details.count
        invariant 0 <= i <= details.count
        invariant heap.Valid() && heap.next == old(heap.next)
        invariant heap.live == before - Range(p + 5, 2 * i)
      {
        assert EntryIn(before, p, n, 0) && EntryIn(before, p, n, i);
        heap.Free(heap.live[details.keys].ps[i]);
        heap.Free(heap.live[details.values].ps[i]);
        i := i + 1;
      }
    }

    /** What follows the loop: the three arrays, the struct and the message, each once. */
    method FreeStruct(keys: Ptr, values: Ptr, lengths: Ptr, details: Ptr, text: Ptr)
      requires heap.Valid() && {keys, values, lengths, details, text} - {NULL} <= heap.live.Keys
      requires details != text && keys !in {details, text} && values !in {details, text} && lengths !in {details, text}
      requires keys != NULL ==> keys != values && values != lengths && keys != lengths
      requires keys == NULL <==> values == NULL
      requires keys == NULL <==> lengths == NULL
      modifies heap
      ensures heap.Valid() && heap.next == old(heap.next)
      ensures heap.live == old(heap.live) - {keys, values, lengths, details, text}
    {
      heap.Free(keys);
      heap.Free(values);
      heap.Free(lengths);
      heap.Free(details);
      heap.Free(text);
    }

    /** `GizmoSQLReleaseErrWithDetails`: every key, every value, the three arrays, the struct, the message. */
    method ReleaseErrWithDetails()
      requires Valid()
      modifies this`message, this`release, this`privateData, heap
      ensures Valid() && heap.next == old(heap.next)
      ensures old(release) == ReleaseDetails ==>
                && release == NoRelease && message == NULL && privateData == NULL
                && heap.live == old(heap.live) - old(Owned())
      ensures old(release) != ReleaseDetails ==>
                && heap.live == old(heap.live) && release == old(release)
                && message == old(message) && privateData == old(privateData)
    {
      if release != ReleaseDetails || privateData == NULL {
        return;
      }
      hide BlockAt, InPlace, Lies, Range;
      StructAt();
      ghost var before, p := heap.live, privateData;
      var details := heap.live[privateData];
      AllFreed(before, p, |shown.details|);
      if details.count > 0 {
        FreeEntries(details);
      } else {
        BareFreed(before, p);
      }
      FreeStruct(details.keys, details.values, details.lengths, privateData, message);
      message, release, privateData := NULL, NoRelease, NULL;
    }

    /** `GizmoSQLerrRelease`. */
    method ErrRelease()
      requires Valid()
      modifies this`message, this`release, this`privateData, heap
      ensures Valid() && release == NoRelease && heap.next == old(heap.next)
      ensures heap.live == old(heap.live) - old(Owned())
      ensures old(release) != ReleaseDetails ==> privateData == old(privateData)
    {
      match release
      case NoRelease =>
      case ReleaseSimple => ReleaseSimpleError();
      case ReleaseDetails => ReleaseErrWithDetails();
      release := NoRelease;
    }

    /** `setErr`: an error that is already there is released first. */
    method SetErr(format: Bytes)
      requires Valid()
      modifies this, heap
      ensures Valid() && release == ReleaseSimple && vendorCode == old(vendorCode) && sqlState == old(sqlState)
      ensures Exchanged(old(heap.live), heap.live, old(Owned()), Owned())
      ensures message !in old(heap.live)
      ensures heap.live[message] == Data(Told(format))
    {
      if release != NoRelease {
        ErrRelease();
      }
      var msg: Bytes;
      if PREFIX <= format {
        msg := sprintf(format);
      } else {
        msg := PREFIX + sprintf(format);
      }
      message := heap.Alloc(Data(msg));
      release := ReleaseSimple;
    }

    /** One round of the loop of `setErrWithDetails`: stores a detail's key, value and length. */
    method StoreDetail(p: Ptr, d: Detail, i: nat)
      requires heap.Valid() && Arrays(heap.live, p, i)
      modifies heap
      ensures heap.Valid() && heap.next == old(heap.next) + 2
      ensures heap.live == Added(old(heap.live), p, d, i, old(heap.next))
    {
      var key := heap.Alloc(Data(d.key));
      heap.Store(p + 2, Pointers(heap.live[p + 2].ps[i := key]));
      var bytes;
      match d.payload {
        case Unserializable(text) => bytes := text;
        case Value(serialized) => bytes := serialized;
      }
      var value := heap.Alloc(Data(bytes));
      heap.Store(p + 3, Pointers(heap.live[p + 3].ps[i := value]));
      heap.Store(p + 4, Sizes(heap.live[p + 4].ns[i := |bytes|]));
    }

    /** The loop of `setErrWithDetails`. */
    method StoreDetails(p: Ptr, e: AdbcError)
      requires heap.Valid() && |e.details| > 0 && p > NULL && heap.next == p + 5
      requires Filled(heap.live, p, e.details, 0)
      modifies heap
      ensures heap.Valid() && heap.next == p + Span(e.details)
      ensures KeptBelow(old(heap.live), heap.live, p + 2)
      ensures Lies(heap.live, p, e, 2, Span(e.details))
    {
      var n := |e.details|;
      var i := 0;
      while i < n
        invariant 0 <= i <= n
        invariant heap.Valid() && heap.next == p + 5 + 2 * i
        invariant Filled(heap.live, p, e.details, i)
        invariant KeptBelow(old(heap.live), heap.live, p + 2)
        invariant Lies(heap.live, p, e, 5, 5 + 2 * i)
      {
        hide Filled, InPlace, BlockAt, Stored, Added, Arrays;
        FilledOneMore(heap.live, p, e, i);
        StoreDetail(p, e.details[i], i);
        i := i + 1;
      }
      FilledIsInPlace(heap.live, p, e);
    }

    /** The three arrays of `setErrWithDetails`, allocated and filled. */
    method StoreArrays(p: Ptr, e: AdbcError)
      requires heap.Valid() && |e.details| > 0 && p > NULL && heap.next == p + 2
      requires p in heap.live && p + 1 in heap.live && heap.live[p + 1] == Data(e.message)
      modifies heap
      ensures heap.Valid() && heap.next == p + Span(e.details)
      ensures KeptBelow(old(heap.live), heap.live, p)
      ensures Lies(heap.live, p, e, 0, Span(e.details))
    {
      hide BlockAt, InPlace, Lies, Filled;
      var n := |e.details|;
      var keys := heap.Alloc(Pointers(seq(n, _ => NULL)));
      var values := heap.Alloc(Pointers(seq(n, _ => NULL)));
      var lengths := heap.Alloc(Sizes(seq(n, _ => 0)));
      FilledByNothing(heap.live, p, e.details);
      StoreDetails(p, e);
      HeadInPlace(heap.live, p, e);
      heap.Store(p, Details(p + 1, keys, values, lengths, n));
    }

    /** The part of `setErrWithDetails` that keeps the details. */
    method SetDetails(e: AdbcError)
      requires Valid()
      modifies this, heap
      ensures Valid() && release == ReleaseDetails && shown == e
      ensures vendorCode == old(vendorCode) && sqlState == old(sqlState)
      ensures Owned() !! old(heap.live.Keys)
      ensures Exchanged(old(heap.live), heap.live, {}, Owned())
    {
      hide InPlace, Lies, Range, BlockAt, Exchanged;
      ghost var before := heap.live;
      var n := |e.details|;
      var p := heap.Alloc(Details(NULL, NULL, NULL, NULL, 0));
      message := heap.Alloc(Data(e.message));
      release, privateData, shown := ReleaseDetails, p, e;
      if n > 0 {
        StoreArrays(p, e);
      } else {
        heap.Store(p, Details(message, NULL, NULL, NULL, 0));
        BareInPlace(heap.live, p, e);
      }
      GrownByOwned(before, heap.live, p, e);
    }

    /** `setErrWithDetails`. */
    method SetErrWithDetails(e: AdbcError)
      requires Valid()
      modifies this, heap
      ensures Valid() && sqlState == e.sqlState
      ensures vendorCode == VendorCode(old(vendorCode), e)
      ensures if TakesDetailPath(old(vendorCode), e)
              then
                && release == ReleaseDetails && shown == e
                && Exchanged(old(heap.live), heap.live, {}, Owned())
              else
                && release == ReleaseSimple
                && message !in old(heap.live) && heap.live[message] == Data(Told(e.message))
                && Exchanged(old(heap.live), heap.live, old(Owned()), Owned())
      ensures Owned() !! old(heap.live.Keys)
      ensures old(Owned()) * heap.live.Keys == if TakesDetailPath(old(vendorCode), e) then old(Owned()) else {}
    {
      OwnedIsLive();
      sqlState := e.sqlState;
      if vendorCode != PRIVATE_DATA {
        if e.vendorCode != PRIVATE_DATA {
          vendorCode := e.vendorCode;
        }
        SetErr(e.message);
        return;
      }
      if |e.details| == 0 && e.vendorCode != 0 && e.vendorCode != PRIVATE_DATA {
        vendorCode := e.vendorCode;
        SetErr(e.message);
        return;
      }
      SetDetails(e);
    }

    /** `errToAdbcErr` of an error that is not nil. */
    method ErrToAdbcErr(err: GoError) returns (status: nat)
      requires Valid()
      modifies this, heap
      ensures Valid()
      ensures status == if err.Coded? then err.code else STATUS_UNKNOWN
      ensures sqlState == if err.Coded? then err.error.sqlState else old(sqlState)
      ensures vendorCode == if err.Coded? then VendorCode(old(vendorCode), err.error) else old(vendorCode)
      ensures err.Coded? && TakesDetailPath(old(vendorCode), err.error) <==> release == ReleaseDetails
      ensures release == ReleaseDetails ==> shown == err.error
      ensures release != ReleaseDetails ==>
                && release == ReleaseSimple
                && heap.live[message] == Data(Told(if err.Coded? then err.error.message else err.text))
      ensures Owned() !! old(heap.live.Keys)
      ensures old(release) == NoRelease ==> Exchanged(old(heap.live), heap.live, {}, Owned())
    {
      match err {
        case Coded(code, e) =>
          SetErrWithDetails(e);
          return code;
        case Plain(text) =>
          SetErr(text);
          return STATUS_UNKNOWN;
      }
    }

    /** `GizmoSQLErrorGetDetailCount`. */
    method GetDetailCount() returns (count: nat)
      requires Valid()
      ensures count == if release == ReleaseDetails then |shown.details| else 0
    {
      if release != ReleaseDetails || privateData == NULL {
        return 0;
      }
      assert InPlace(heap.live, privateData, shown, 0);
      return heap.live[privateData].count;
    }

    /** `GizmoSQLErrorGetDetail`. */
    method GetDetail(index: int) returns (view: DetailView)
      requires Valid()
      ensures release != ReleaseDetails || index < 0 || index >= |shown.details| ==> view == NO_DETAIL
      ensures release == ReleaseDetails && 0 <= index < |shown.details| ==>
                var d := shown.details[index];
                && view.key in heap.live && heap.live[view.key] == Data(d.key)
                && view.value in heap.live && heap.live[view.value] == Data(Stored(d))
                && view.length == |Stored(d)|
    {
      if release != ReleaseDetails || privateData == NULL {
        return NO_DETAIL;
      }
      ghost var e := shown;
      assert InPlace(heap.live, privateData, e, 0);
      var details := heap.live[privateData];
      if index < 0 || index >= details.count {
        return NO_DETAIL;
      }
      assert InPlace(heap.live, privateData, e, 2) && InPlace(heap.live, privateData, e, 3);
      assert InPlace(heap.live, privateData, e, 4);
      assert InPlace(heap.live, privateData, e, 5 + 2 * index) && InPlace(heap.live, privateData, e, 6 + 2 * index);
      return DetailView(heap.live[details.keys].ps[index], heap.live[details.values].ps[index],
                        heap.live[details.lengths].ns[index]);
    }
  }

  /** `cArrayStream`: the error struct it hands out lives in the C heap too, at `structPtr`. */
  class CStream {
    const heap: Heap
    const sprintf: Bytes -> Bytes
    var adbcErr: ErrorC?
    var structPtr: Ptr
    var status: nat

    constructor (heap: Heap, sprintf: Bytes -> Bytes)
      requires heap.Valid()
      ensures this.heap == heap && this.sprintf == sprintf && adbcErr == null && status == STATUS_OK
    {
      this.heap, this.sprintf, adbcErr, structPtr, status := heap, sprintf, null, NULL, STATUS_OK;
    }

    ghost predicate Valid()
      reads this, heap, adbcErr
    {
      && heap.Valid()
      && (adbcErr != null ==>
            && adbcErr.heap == heap && adbcErr.sprintf == sprintf && adbcErr.Valid()
            && structPtr in heap.live && structPtr > NULL && structPtr !in adbcErr.Owned())
    }

    ghost function Owned(): set<Ptr>
      reads this, adbcErr
    {
      if adbcErr == null then {} else {structPtr} + adbcErr.Owned()
    }

    /** The start of `maybeError`: an error struct that holds no error. */
    method EmptyError()
      requires Valid()
      modifies this, heap, adbcErr
      ensures Valid() && adbcErr != null && adbcErr.release == NoRelease && status == old(status)
      ensures if old(adbcErr) != null then adbcErr == old(adbcErr) && structPtr == old(structPtr) else fresh(adbcErr)
      ensures Exchanged(old(heap.live), heap.live, old(Owned()), {structPtr})
      ensures structPtr in old(heap.live) ==> structPtr in old(Owned())
    {
      hide Range, Lies, Span;
      if adbcErr != null {
        adbcErr.ErrRelease();
      } else {
        structPtr := heap.Alloc(ErrorStruct);
        adbcErr := new ErrorC(heap, sprintf);
      }
    }

    /** `maybeError`: reports what went wrong with the reader, if anything did, as an errno. */
    method MaybeError(err: Option<GoError>) returns (errno: int)
      requires Valid()
      modifies this, heap, adbcErr
      ensures Valid() && (adbcErr == old(adbcErr) || (old(adbcErr) == null && fresh(adbcErr)))
      ensures errno == 0 <==> err.None?
      ensures err.None? ==> adbcErr == old(adbcErr) && status == old(status) && heap.live == old(heap.live)
      ensures err.None? ==> Owned() == old(Owned())
      ensures err.Some? ==> adbcErr != null && Exchanged(old(heap.live), heap.live, old(Owned()), Owned())
      ensures Owned() * old(heap.live.Keys) <= old(Owned())
      ensures err.Some? && err.value.Coded? ==>
                && errno == Errno(status) && status == err.value.code
                && adbcErr.sqlState == err.value.error.sqlState
                && adbcErr.vendorCode == VendorCode(PRIVATE_DATA, err.value.error)
      ensures err.Some? && err.value.Plain? ==> errno == EIO && status == STATUS_UNKNOWN
      ensures err.Some? && err.value.Coded? && TakesDetailPath(PRIVATE_DATA, err.value.error) ==>
                && adbcErr.release == ReleaseDetails && adbcErr.shown == err.value.error
      ensures err.Some? && (err.value.Plain? || !TakesDetailPath(PRIVATE_DATA, err.value.error)) ==>
                && adbcErr.release == ReleaseSimple
                && heap.live[adbcErr.message] ==
                     Data(adbcErr.Told(if err.value.Coded? then err.value.error.message else err.value.text))
    {
      hide Range, Lies, Span;
      if err.None? {
        return 0;
      }
      EmptyError();
      adbcErr.vendorCode := PRIVATE_DATA;
      status := adbcErr.ErrToAdbcErr(err.value);
      return Errno(status);
    }

    /** The part of `GizmoSQLArrayStreamRelease` that concerns the heap. */
    method Release()
      requires Valid()
      modifies heap, adbcErr
      ensures heap.Valid() && heap.live == old(heap.live) - old(Owned())
    {
      if adbcErr != null {
        adbcErr.ErrRelease();
        heap.Free(structPtr);
      }
    }
  }

  /** Whatever the reads of a stream report, releasing it leaves the heap as it was before the first. */
  method ReadsThenRelease(heap: Heap, sprintf: Bytes -> Bytes, outcomes: seq<Option<GoError>>) returns (last: int)
    requires heap.Valid()
    modifies heap
    ensures heap.live == old(heap.live)
    ensures last == 0 <==> outcomes == [] || outcomes[|outcomes| - 1].None?
  {
    var stream := new CStream(heap, sprintf);
    last := 0;
    for i := 0 to |outcomes|
      invariant fresh(stream) && stream.heap == heap && stream.Valid()
      invariant stream.adbcErr == null || fresh(stream.adbcErr)
      invariant last == 0 <==> i == 0 || outcomes[i - 1].None?
      invariant Exchanged(old(heap.live), heap.live, {}, stream.Owned())
      invariant stream.Owned() !! old(heap.live.Keys)
    {
      last := stream.MaybeError(outcomes[i]);
    }
    UndoneByRelease(old(heap.live), heap.live, stream.Owned());
    stream.Release();
  }

  /** An error stored with its details over one that was not released: when the struct is released in the
      end, the message of the first error stays behind. */
  method LoseAnError(heap: Heap, sprintf: Bytes -> Bytes, first: Bytes, e: AdbcError) returns (lost: Ptr)
    requires heap.Valid() && TakesDetailPath(PRIVATE_DATA, e)
    modifies heap
    ensures lost !in old(heap.live) && lost in heap.live && heap.live - {lost} == old(heap.live)
  {
    var err := new ErrorC(heap, sprintf);
    err.vendorCode := PRIVATE_DATA;
    err.SetErr(first);
    lost := err.message;
    ghost var once := heap.live;
    err.SetErrWithDetails(e);
    UndoneByRelease(once, heap.live, err.Owned());
    err.ErrRelease();
    assert heap.live == once;
  }

  lemma AllFreed(live: map<Ptr, Block>, p: Ptr, n: nat)
    ensures live - Range(p + 5, 2 * n) - {p + 2, p + 3, p + 4, p, p + 1} == live - Range(p, 5 + 2 * n)
    ensures forall q :: q in live && p <= q <= p + 4 ==> q in live - Range(p + 5, 2 * n)
  {
  }

  lemma BareFreed(live: map<Ptr, Block>, p: Ptr)
    requires NULL !in live
    ensures live - {NULL, NULL, NULL, p, p + 1} == live - Range(p, 2)
  {
  }

  lemma UndoneByRelease(before: map<Ptr, Block>, after: map<Ptr, Block>, owned: set<Ptr>)
    requires Exchanged(before, after, {}, owned) && owned !! before.Keys
    ensures after - owned == before
  {
    forall p | p in before ensures p in after && after[p] == before[p] {
    }
    assert (after - owned).Keys == before.Keys;
  }

  /** The three arrays hold the first `i` details and zeros after that. */
  ghost predicate Filled(live: map<Ptr, Block>, p: Ptr, ds: seq<Detail>, i: nat) {
    && p + 2 in live && p + 3 in live && p + 4 in live
    && live[p + 2] == Pointers(seq(|ds|, j requires 0 <= j < |ds| => if j < i then p + 5 + 2 * j else NULL))
    && live[p + 3] == Pointers(seq(|ds|, j requires 0 <= j < |ds| => if j < i then p + 6 + 2 * j else NULL))
    && live[p + 4] == Sizes(seq(|ds|, j requires 0 <= j < |ds| => if j < i then |Stored(ds[j])| else 0))
  }

  lemma FilledIsInPlace(live: map<Ptr, Block>, p: Ptr, e: AdbcError)
    requires |e.details| > 0 && Filled(live, p, e.details, |e.details|)
    requires Lies(live, p, e, 5, Span(e.details))
    ensures Lies(live, p, e, 2, Span(e.details))
  {
    assert InPlace(live, p, e, 2) by {
      assert live[p + 2].ps == BlockAt(p, e, 2).ps;
    }
    assert InPlace(live, p, e, 3) by {
      assert live[p + 3].ps == BlockAt(p, e, 3).ps;
    }
    assert InPlace(live, p, e, 4) by {
      assert live[p + 4].ns == BlockAt(p, e, 4).ns;
    }
  }

  lemma FilledByNothing(live: map<Ptr, Block>, p: Ptr, ds: seq<Detail>)
    requires p + 2 in live && live[p + 2] == Pointers(seq(|ds|, _ => NULL))
    requires p + 3 in live && live[p + 3] == Pointers(seq(|ds|, _ => NULL))
    requires p + 4 in live && live[p + 4] == Sizes(seq(|ds|, _ => 0))
    ensures Filled(live, p, ds, 0)
  {
  }

  lemma GrownByOwned(before: map<Ptr, Block>, after: map<Ptr, Block>, p: Ptr, e: AdbcError)
    requires KeptBelow(before, after, p) && Lies(after, p, e, 0, Span(e.details))
    requires forall q :: q in before ==> q < p
    requires forall q :: q in after ==> q < p + Span(e.details)
    ensures Exchanged(before, after, {}, Range(p, Span(e.details))) && Range(p, Span(e.details)) !! before.Keys
  {
    forall q | q in Range(p, Span(e.details)) ensures q in after {
      assert InPlace(after, p, e, q - p);
    }
  }

  lemma BareInPlace(live: map<Ptr, Block>, p: Ptr, e: AdbcError)
    requires |e.details| == 0
    requires p in live && live[p] == Details(p + 1, NULL, NULL, NULL, 0)
    requires p + 1 in live && live[p + 1] == Data(e.message)
    ensures Lies(live, p, e, 0, Span(e.details))
  {
    assert InPlace(live, p, e, 0) && InPlace(live, p, e, 1);
  }

  lemma HeadInPlace(live: map<Ptr, Block>, p: Ptr, e: AdbcError)
    requires |e.details| > 0 && Lies(live, p, e, 2, Span(e.details))
    requires p + 1 in live && live[p + 1] == Data(e.message)
    ensures Lies(live[p := Details(p + 1, p + 2, p + 3, p + 4, |e.details|)], p, e, 0, Span(e.details))
  {
    var after := live[p := Details(p + 1, p + 2, p + 3, p + 4, |e.details|)];
    forall k: nat | k < Span(e.details) ensures InPlace(after, p, e, k) {
      if k >= 2 {
        assert InPlace(live, p, e, k);
      }
    }
  }

  /** There is room for detail `i` in the three arrays. */
  ghost predicate Arrays(live: map<Ptr, Block>, p: Ptr, i: nat) {
    && p + 2 in live && p + 3 in live && p + 4 in live
    && live[p + 2].Pointers? && i < |live[p + 2].ps|
    && live[p + 3].Pointers? && i < |live[p + 3].ps|
    && live[p + 4].Sizes? && i < |live[p + 4].ns|
  }

  /** The heap after storing detail `i` at `at`. */
  ghost function Added(live: map<Ptr, Block>, p: Ptr, d: Detail, i: nat, at: Ptr): map<Ptr, Block>
    requires Arrays(live, p, i)
  {
    live[at := Data(d.key)][p + 2 := Pointers(live[p + 2].ps[i := at])][at + 1 := Data(Stored(d))]
        [p + 3 := Pointers(live[p + 3].ps[i := at + 1])][p + 4 := Sizes(live[p + 4].ns[i := |Stored(d)|])]
  }

  lemma FilledOneMore(before: map<Ptr, Block>, p: Ptr, e: AdbcError, i: nat)
    requires i < |e.details| && Filled(before, p, e.details, i) && Lies(before, p, e, 5, 5 + 2 * i)
    requires p + 5 + 2 * i !in before && p + 6 + 2 * i !in before
    ensures Arrays(before, p, i)
    ensures var after := Added(before, p, e.details[i], i, p + 5 + 2 * i);
            && Filled(after, p, e.details, i + 1) && Lies(after, p, e, 5, 5 + 2 * (i + 1))
            && KeptBelow(before, after, p + 2)
  {
    var ds := e.details;
    var after := Added(before, p, ds[i], i, p + 5 + 2 * i);
    assert after[p + 2].ps == seq(|ds|, j requires 0 <= j < |ds| => if j < i + 1 then p + 5 + 2 * j else NULL);
    assert after[p + 3].ps == seq(|ds|, j requires 0 <= j < |ds| => if j < i + 1 then p + 6 + 2 * j else NULL);
    assert after[p + 4].ns == seq(|ds|, j requires 0 <= j < |ds| => if j < i + 1 then |Stored(ds[j])| else 0);
    forall k | 5 <= k < 5 + 2 * (i + 1) ensures InPlace(after, p, e, k) {
      if k < 5 + 2 * i {
        assert InPlace(before, p, e, k);
      }
    }
  }
}
