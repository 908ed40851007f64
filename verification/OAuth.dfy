/**
The token poll of go/gizmosql/oauth.go. The server, the clock and the caller's context are unknown: the
k-th request is answered by `server(k)`, `elapsed(k)` is the time since the start when the deadline is
checked for the k-th time, and `canceled(k)` says whether the context ended the k-th wait. Times are in
nanoseconds.
*/
module OAuth {
  const DEFAULT_PORT := 31339
  const DEFAULT_POLL_INTERVAL := 1_000_000_000
  const DEFAULT_TIMEOUT := 300 * DEFAULT_POLL_INTERVAL

  datatype Config = Config(port: int, timeout: int, pollInterval: int)

  datatype Response =
    | Failed(error: string)          // no usable answer from the server
    | Complete(token: string)
    | Error(message: string)
    | NotFound
    | Pending
    | Unexpected(status: string)

  datatype Result =
    | Token(token: string)
    | Refused(response: Response)    // the answer that ended the flow
    | TimedOut
    | Canceled

  /** Time does not run backwards from the start on, and a wait takes at least the interval. */
  ghost predicate Clock(elapsed: nat -> int, interval: int) {
    elapsed(0) >= 0 && forall k: nat :: elapsed(k + 1) >= elapsed(k) && elapsed(k + 1) >= elapsed(k) + interval
  }

  /** The timeout passes at last; `Passes` shows that a positive interval is enough for that. */
  ghost predicate PassesBy(elapsed: nat -> int, timeout: int, last: nat) {
    elapsed(last) > timeout
  }

  /** What an answer other than pending means. */
  function Verdict(r: Response): Result {
    if r.Complete? && r.token != "" then Token(r.token) else Refused(r)
  }

  /** The first `n` requests are answered in time with pending, and no wait is cancelled. */
  ghost predicate PendingFor(server: nat -> Response, elapsed: nat -> int, canceled: nat -> bool, timeout: int,
                             n: nat) {
    forall k :: 0 <= k < n ==> server(k) == Pending && !canceled(k) && elapsed(k) <= timeout
  }

  /** The time that `n` waits take at least. */
  function Waits(n: int, interval: int): int {
    n * interval
  }

  lemma OneMoreWait(n: int, interval: int)
    ensures Waits(n + 1, interval) == Waits(n, interval) + interval
    ensures Waits(0, interval) == 0
  {
  }

  lemma {:induction false} WaitsAddUp(elapsed: nat -> int, interval: int, k: nat)
    requires Clock(elapsed, interval)
    ensures elapsed(k) >= Waits(k, interval)
  {
    hide Waits;
    OneMoreWait(k - 1, interval);
    OneMoreWait(0, interval);
    if k == 0 {
    } else {
      WaitsAddUp(elapsed, interval, k - 1);
      assert elapsed((k - 1) + 1) >= elapsed(k - 1) + interval;
    }
  }

  /** With a positive interval any timeout passes. */
  lemma Passes(elapsed: nat -> int, interval: int, timeout: int) returns (last: nat)
    requires Clock(elapsed, interval) && interval > 0
    ensures PassesBy(elapsed, timeout, last)
  {
    last := if timeout < 0 then 0 else timeout + 1;
    WaitsAddUp(elapsed, interval, last);
    assert last > 0 ==> last * interval >= last * 1;
  }

  /**
  The loop of `GetOAuthToken`. With a positive interval it ends for every server, and the number of
  requests is bounded by the timeout; without one it ends if the timeout passes at last, by `last`. All
  answers but the last are pending, and the result is decided by the first that is not.
  */
  method Poll(server: nat -> Response, elapsed: nat -> int, canceled: nat -> bool, interval: int, timeout: int,
              ghost last: nat)
    returns (r: Result, requests: nat)
    requires Clock(elapsed, interval)
    requires interval > 0 || PassesBy(elapsed, timeout, last)
    ensures forall k :: 0 <= k < requests - 1 ==> server(k) == Pending && !canceled(k)
    ensures forall k :: 0 <= k < requests ==> elapsed(k) <= timeout
    ensures r.Token? || r.Refused? ==>
              requests > 0 && server(requests - 1) != Pending && r == Verdict(server(requests - 1))
    ensures r.Token? ==> r.token != "" && server(requests - 1) == Complete(r.token)
    ensures r.TimedOut? ==>
              && elapsed(requests) > timeout
              && (requests > 0 ==> server(requests - 1) == Pending && !canceled(requests - 1))
    ensures r.Canceled? ==> requests > 0 && server(requests - 1) == Pending && canceled(requests - 1)
    ensures timeout < 0 ==> r == TimedOut && requests == 0
    ensures interval > 0 && requests > 0 ==> Waits(requests - 1, interval) <= timeout
    ensures forall n: nat :: PendingFor(server, elapsed, canceled, timeout, n) ==>
              if elapsed(n) > timeout then r == TimedOut && requests == n
              else if server(n) == Pending then canceled(n) ==> requests == n + 1 && r == Canceled
              else
                && requests == n + 1
                && r == if server(n).Complete? && server(n).token != "" then Token(server(n).token)
                        else Refused(server(n))
  {
    ghost var end := last;
    if interval > 0 {
      end := Passes(elapsed, interval, timeout);
    }
    hide Waits;
    requests := 0;
    OneMoreWait(0, interval);
    while true
      invariant forall k :: 0 <= k < requests ==> server(k) == Pending && !canceled(k) && elapsed(k) <= timeout
      invariant requests > 0 ==> requests <= end && timeout >= 0
      invariant interval > 0 ==> Waits(requests, interval) <= elapsed(requests)
      invariant interval > 0 && requests > 0 ==> Waits(requests - 1, interval) <= timeout
      decreases end - requests
    {
      PendingSoFar(server, elapsed, canceled, timeout, requests);
      if elapsed(requests) > timeout {
        return TimedOut, requests;
      }
      if requests >= end {
        NeverBackwards(elapsed, interval, timeout, end, requests);
      }
      OneMoreWait(requests, interval);
      var data := server(requests);
      requests := requests + 1;
      match data {
        case Complete(token) =>
          return if token == "" then Refused(data) else Token(token), requests;
        case Pending =>
          if canceled(requests - 1) {
            return Canceled, requests;
          }
        case _ =>
          return Refused(data), requests;
      }
    }
  }

  /** Of two such numbers the smaller is followed by one more pending answer. */
  lemma PendingSoFar(server: nat -> Response, elapsed: nat -> int, canceled: nat -> bool, timeout: int, n: nat)
    ensures forall m: nat :: PendingFor(server, elapsed, canceled, timeout, m) && n < m ==>
              server(n) == Pending && !canceled(n) && elapsed(n) <= timeout
  {
  }

  lemma {:induction false} NeverBackwards(elapsed: nat -> int, interval: int, timeout: int, last: nat, k: nat)
    requires Clock(elapsed, interval) && PassesBy(elapsed, timeout, last) && k >= last
    ensures elapsed(k) > timeout
  {
    if k == last {
    } else {
      NeverBackwards(elapsed, interval, timeout, last, k - 1);
      assert elapsed((k - 1) + 1) >= elapsed(k - 1);
    }
  }

  /** `withDefaults`: only what was left at zero. */
  method WithDefaults(c: Config) returns (out: Config)
    ensures out.port == if c.port == 0 then 31339 else c.port
    ensures out.timeout == if c.timeout == 0 then 300_000_000_000 else c.timeout                // five minutes
    ensures out.pollInterval == if c.pollInterval == 0 then 1_000_000_000 else c.pollInterval   // one second
    ensures out.pollInterval != 0 && out.timeout != 0
  {
    out := c;
    if out.port == 0 {
      out := out.(port := DEFAULT_PORT);
    }
    if out.timeout == 0 {
      out := out.(timeout := DEFAULT_TIMEOUT);
    }
    if out.pollInterval == 0 {
      out := out.(pollInterval := DEFAULT_POLL_INTERVAL);
    }
  }

  /** With nothing configured, at most 301 requests are made, whatever the server answers. */
  method PollWithDefaults(c: Config, server: nat -> Response, elapsed: nat -> int, canceled: nat -> bool,
                          ghost last: nat)
    returns (r: Result, requests: nat)
    requires Clock(elapsed, if c.pollInterval == 0 then DEFAULT_POLL_INTERVAL else c.pollInterval)
    requires c.pollInterval >= 0 || PassesBy(elapsed, if c.timeout == 0 then DEFAULT_TIMEOUT else c.timeout, last)
    ensures c.timeout == 0 && c.pollInterval == 0 ==> requests <= 301
    ensures c.pollInterval > 0 && c.timeout > 0 && requests > 0 ==> (requests - 1) * c.pollInterval <= c.timeout
    ensures r.Token? ==> requests > 0 && r.token != "" && server(requests - 1) == Complete(r.token)
    ensures forall k :: 0 <= k < requests - 1 ==> server(k) == Pending
  {
    var cfg := WithDefaults(c);
    r, requests := Poll(server, elapsed, canceled, cfg.pollInterval, cfg.timeout, last);
  }

  /** Time stands still for `n` polls, and then the timeout has passed. */
  function Stalled(n: nat, timeout: nat): nat -> int {
    (k: nat) => if k <= n then 0 else timeout + 1
  }

  /** Such a clock leaves room for any number of polls. */
  lemma NoBoundWithoutInterval(interval: int, timeout: nat, n: nat)
    requires interval <= 0
    ensures Clock(Stalled(n, timeout), interval) && PassesBy(Stalled(n, timeout), timeout, n + 1)
    ensures forall k: nat :: k <= n ==> Stalled(n, timeout)(k) <= timeout
  {
  }

  /** Without a positive interval there is no such bound: against a server that stays pending, the loop
      makes more than any given number of requests within any timeout. */
  method ManyRequests(interval: int, timeout: nat, n: nat) returns (r: Result, requests: nat)
    requires interval <= 0
    ensures r == TimedOut && requests > n
  {
    NoBoundWithoutInterval(interval, timeout, n);
    r, requests := Poll((_: nat) => Pending, Stalled(n, timeout), (_: nat) => false, interval, timeout, n + 1);
  }
}
