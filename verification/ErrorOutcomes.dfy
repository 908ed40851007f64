/**
What a C caller learns from an error: what the errno of a stream callback says about the ADBC status, how often
the message carries the prefix, and that every detail is read back as it was reported.
*/
module ErrorOutcomes {
  import opened CHeap
  import opened ErrorHeap

  // ----- errno -----

  /** The errno tells the status apart as far as it can; the numbers are those of ADBC and of Linux. Statuses 1
      and 7 to 10, and numbers ADBC does not define, are all EIO; no error is ever reported as success. */
  lemma ErrnoTellsStatus(status: nat)
    ensures Errno(status) == 95 <==> status == 2                  // ENOTSUP: not implemented
    ensures Errno(status) == 2 <==> status == 3                   // ENOENT: not found
    ensures Errno(status) == 17 <==> status == 4                  // EEXIST: already exists
    ensures Errno(status) == 22 <==> status == 5 || status == 6   // EINVAL: invalid argument, invalid state
    ensures Errno(status) == 125 <==> status == 11                // ECANCELED: cancelled
    ensures Errno(status) == 110 <==> status == 12                // ETIMEDOUT: timeout
    ensures Errno(status) == 13 <==> status == 13 || status == 14 // EACCES: unauthenticated, unauthorized
    ensures Errno(status) == 5 <==> status < 2 || 7 <= status <= 10 || status > 14
  {
  }

  // ----- The prefix -----

  predicate Spelled(b: Bytes, s: string) {
    |b| == |s| && forall i :: 0 <= i < |b| ==> b[i] as int == s[i] as int
  }

  lemma PrefixIsText()
    ensures Spelled(PREFIX, "[GizmoSQL] ")
  {
  }

  /** A message without formatting directives carries the prefix exactly once, also when it is passed on. */
  lemma PrefixedOnce(err: ErrorC, text: Bytes)
    requires forall m: Bytes :: err.sprintf(m) == m
    ensures var told := err.Told(text);
            && PREFIX <= told && err.Told(told) == told
            && (PREFIX <= text ==> told == text) && (!(PREFIX <= text) ==> told[|PREFIX|..] == text)
  {
  }

  // ----- Reading an error back -----

  /** What a caller reads of one detail: its key, and its bytes or the reason why it has none. */
  predicate ReadAs(got: (Bytes, Bytes), d: Detail) {
    got.0 == d.key && match d.payload case Value(b) => got.1 == b case Unserializable(reason) => got.1 == reason
  }

  /** The vendor code with which a caller asks for details. */
  const ASKING: int := -2147483648

  /**
  An error is reported into a struct whose vendor code says what the caller wants, read back detail by detail, and
  released. Every detail is read as it was reported exactly if details were asked for; otherwise, and when there is
  none, the vendor code tells the driver's own number. The heap is afterwards as it was before.
  */
  method ReportThenRead(heap: Heap, sprintf: Bytes -> Bytes, wanted: int, e: AdbcError)
    returns (message: Bytes, vendor: int, read: seq<(Bytes, Bytes)>)
    requires heap.Valid()
    modifies heap
    ensures heap.live == old(heap.live)
    ensures |read| == if wanted == ASKING then |e.details| else 0
    ensures forall i :: 0 <= i < |read| ==> ReadAs(read[i], e.details[i])
    ensures wanted == ASKING && (e.details != [] || e.vendorCode == 0) ==> vendor == ASKING && message == e.message
    ensures wanted == ASKING && e.details == [] && e.vendorCode != 0 ==> vendor == e.vendorCode
    ensures wanted != ASKING ==> vendor == if e.vendorCode == ASKING then wanted else e.vendorCode
    ensures wanted != ASKING || (e.details == [] && e.vendorCode !in {0, ASKING}) ==>
              message == (if PREFIX <= e.message then [] else PREFIX) + sprintf(e.message)
  {
    hide Range, Lies, Span, BlockAt;
    var err := new ErrorC(heap, sprintf);
    err.vendorCode := wanted;
    err.SetErrWithDetails(e);
    if err.release == ReleaseDetails {
      MessageInPlace(err);
    }
    message, vendor := heap.live[err.message].bytes, err.vendorCode;
    read := ReadDetails(err);
    UndoneByRelease(old(heap.live), heap.live, err.Owned());
    err.ErrRelease();
  }

  /** All details of an error, by the two getters. */
  method ReadDetails(err: ErrorC) returns (read: seq<(Bytes, Bytes)>)
    requires err.Valid()
    ensures |read| == if err.release == ReleaseDetails then |err.shown.details| else 0
    ensures forall i :: 0 <= i < |read| ==> ReadAs(read[i], err.shown.details[i])
  {
    read := [];
    var count := err.GetDetailCount();
    for i := 0 to count
      invariant |read| == i
      invariant forall j :: 0 <= j < i ==> ReadAs(read[j], err.shown.details[j])
    {
      var view := err.GetDetail(i);
      read := read + [(err.heap.live[view.key].bytes, err.heap.live[view.value].bytes[..view.length])];
    }
  }

  lemma MessageInPlace(err: ErrorC)
    requires err.Valid() && err.release == ReleaseDetails
    ensures err.message in err.heap.live && err.heap.live[err.message] == Data(err.shown.message)
  {
    assert InPlace(err.heap.live, err.privateData, err.shown, 1);
  }
}
