/** The sliding-window limit on a connection's events, whose limit may change at any time. */
module RateLimiter {
  const WINDOW := 1000

  function Zeros(n: nat): (z: seq<int>)
    ensures |z| == n && forall i :: 0 <= i < n ==> z[i] == 0
  {
    seq(n, _ => 0)
  }

  function AtLeastOne(limit: int): (l: nat)
    ensures l >= 1
  {
    if limit < 1 then 1 else limit
  }

  /** The last `limit` entries, with zeros in front where there are fewer. */
  function Fit(bucket: seq<int>, limit: nat): (b: seq<int>)
    ensures |b| == limit
  {
    if |bucket| >= limit then bucket[|bucket| - limit..] else Zeros(limit - |bucket|) + bucket
  }

  /** The bucket after an event. */
  function Slid(bucket: seq<int>, limit: int, now: int): seq<int> {
    Fit(bucket, AtLeastOne(limit))[1..] + [now]
  }

  function Rejects(bucket: seq<int>, limit: int, now: int): bool {
    now - Fit(bucket, AtLeastOne(limit))[0] <= WINDOW
  }

  class Limiter {
    var bucket: seq<int>

    constructor (limit: nat)
      ensures bucket == Zeros(limit)
    {
      bucket := Zeros(limit);
    }

    /** The limiter at the head of `dispatch_event`. */
    method Dispatch(liveLimit: int, now: int) returns (rejected: bool)
      modifies this
      ensures bucket == Slid(old(bucket), liveLimit, now) && rejected == Rejects(old(bucket), liveLimit, now)
    {
      var limit := AtLeastOne(liveLimit);
      while |bucket| > limit
        invariant Fit(bucket, limit) == Fit(old(bucket), limit)
      {
        bucket := bucket[1..];
      }
      while |bucket| < limit
        invariant |bucket| <= limit && Fit(bucket, limit) == Fit(old(bucket), limit)
      {
        bucket := [0] + bucket;
      }
      assert bucket == Fit(bucket, limit);
      var last := bucket[0];
      bucket := bucket[1..] + [now];
      rejected := now - last <= WINDOW;
    }
  }

  // ---- Against the full history ----

  /** How many of these times lie in the window ending now. */
  function Recent(times: seq<int>, now: int): nat {
    if times == [] then 0
    else Recent(times[..|times| - 1], now) + if now - times[|times| - 1] <= WINDOW then 1 else 0
  }

  datatype Call = Call(limit: int, now: int)

  /** The times of the first n events. */
  function Times(calls: seq<Call>, n: nat): (t: seq<int>)
    requires n <= |calls|
    ensures |t| == n && forall i :: 0 <= i < n ==> t[i] == calls[i].now
  {
    seq(n, i requires 0 <= i < n => calls[i].now)
  }

  /** The bucket after the first n events. */
  function Bucket(initial: nat, calls: seq<Call>, n: nat): seq<int>
    requires n <= |calls|
  {
    if n == 0 then Zeros(initial) else Slid(Bucket(initial, calls, n - 1), calls[n - 1].limit, calls[n - 1].now)
  }

  /** The clock never runs back and is past its first window. */
  predicate Clocked(calls: seq<Call>) {
    forall i :: 0 <= i < |calls| ==> calls[i].now > WINDOW && forall j :: 0 <= j < i ==> calls[j].now <= calls[i].now
  }

  /** No event before the n-th was rejected: a rejection ends the connection. */
  predicate AcceptedBefore(initial: nat, calls: seq<Call>, n: nat)
    requires n <= |calls|
  {
    forall i :: 0 <= i < n ==> !Rejects(Bucket(initial, calls, i), calls[i].limit, calls[i].now)
  }

  predicate Sorted(times: seq<int>) {
    forall i, j :: 0 <= i < j < |times| ==> times[i] <= times[j]
  }

  /**
   The bucket is the tail of the history after some zeros, and what it forgot is out of the window
   for good.
   */
  predicate Remembers(bucket: seq<int>, times: seq<int>, now: int, zeros: nat, forgotten: nat) {
    && forgotten <= |times| && bucket == Zeros(zeros) + times[forgotten..]
    && OutBefore(times, now, forgotten)
  }

  predicate OutBefore(times: seq<int>, now: int, k: nat)
    requires k <= |times|
  {
    forall i :: 0 <= i < k ==> now - times[i] > WINDOW
  }

  lemma {:induction false} RecentAtMost(times: seq<int>, now: int, k: nat)
    requires k <= |times| && OutBefore(times, now, k)
    ensures Recent(times, now) <= |times| - k
  {
    if times != [] {
      var n := |times| - 1;
      assert k <= n ==> OutBefore(times[..n], now, k);
      assert k == n + 1 ==> OutBefore(times[..n], now, n);
      RecentAtMost(times[..n], now, if k <= n then k else n);
    }
  }

  lemma {:induction false} RecentAtLeast(times: seq<int>, now: int, k: nat)
    requires k <= |times| && forall i :: k <= i < |times| ==> now - times[i] <= WINDOW
    ensures Recent(times, now) >= |times| - k
  {
    if |times| > k { RecentAtLeast(times[..|times| - 1], now, k); }
  }

  /** Fitting the bucket to a limit gives up old entries before it runs out of zeros. */
  lemma Fitted(zeros: nat, times: seq<int>, forgotten: nat, limit: nat) returns (zeros': nat, forgotten': nat)
    requires forgotten <= |times| && 1 <= limit
    ensures forgotten <= forgotten' <= |times| && zeros' + |times| - forgotten' == limit
    ensures Fit(Zeros(zeros) + times[forgotten..], limit) == Zeros(zeros') + times[forgotten'..]
    ensures zeros' > 0 ==> forgotten' == forgotten
  {
    var bucket := Zeros(zeros) + times[forgotten..];
    if |bucket| < limit {
      zeros', forgotten' := zeros + limit - |bucket|, forgotten;
      assert Zeros(limit - |bucket|) + Zeros(zeros) == Zeros(zeros');
    } else {
      var drop := |bucket| - limit;
      zeros' := if drop <= zeros then zeros - drop else 0;
      forgotten' := if drop <= zeros then forgotten else forgotten + drop - zeros;
    }
    assert Fit(bucket, limit) == Zeros(zeros') + times[forgotten'..];
  }

  /** The oldest of the last `limit` entries tells whether the event is one too many. */
  lemma OldestTells(times: seq<int>, zeros: nat, forgotten: nat, limit: nat, now: int)
    requires forgotten <= |times| && zeros + |times| - forgotten == limit && limit >= 1
    requires Sorted(times) && now > WINDOW && (zeros > 0 ==> OutBefore(times, now, forgotten))
    ensures now - (Zeros(zeros) + times[forgotten..])[0] <= WINDOW <==> Recent(times, now) >= limit
  {
    if zeros > 0 {
      RecentAtMost(times, now, forgotten);
    } else if now - times[forgotten] <= WINDOW {
      RecentAtLeast(times, now, forgotten);
    } else {
      RecentAtMost(times, now, forgotten + 1);
    }
  }

  /** The accepted event takes the place of the oldest entry. */
  lemma Replaced(times: seq<int>, zeros: nat, forgotten: nat, now: int) returns (zeros': nat, forgotten': nat)
    requires forgotten <= |times| && zeros + |times| - forgotten >= 1
    requires Sorted(times) && (zeros > 0 ==> OutBefore(times, now, forgotten))
    requires now - (Zeros(zeros) + times[forgotten..])[0] > WINDOW
    ensures Remembers((Zeros(zeros) + times[forgotten..])[1..] + [now], times + [now], now, zeros', forgotten')
  {
    var all := times + [now];
    zeros', forgotten' := if zeros > 0 then zeros - 1 else 0, if zeros > 0 then forgotten else forgotten + 1;
    assert (Zeros(zeros) + times[forgotten..])[1..] == Zeros(zeros') + times[forgotten'..];
    assert times[forgotten'..] + [now] == all[forgotten'..];
    assert OutBefore(times, now, forgotten');
  }

  /** One event, on a bucket that remembers its history. */
  lemma OneEvent(bucket: seq<int>, times: seq<int>, zeros: nat, forgotten: nat, limit: int, now: int)
    returns (zeros': nat, forgotten': nat)
    requires Sorted(times) && now > WINDOW && Remembers(bucket, times, now, zeros, forgotten)
    ensures Rejects(bucket, limit, now) <==> Recent(times, now) >= AtLeastOne(limit)
    ensures !Rejects(bucket, limit, now) ==> Remembers(Slid(bucket, limit, now), times + [now], now, zeros', forgotten')
  {
    var l := AtLeastOne(limit);
    var z, f := Fitted(zeros, times, forgotten, l);
    OldestTells(times, z, f, l, now);
    zeros', forgotten' := 0, 0;
    if !Rejects(bucket, limit, now) {
      zeros', forgotten' := Replaced(times, z, f, now);
    }
  }

  lemma TimesSorted(calls: seq<Call>, n: nat)
    requires n <= |calls| && Clocked(calls)
    ensures Sorted(Times(calls, n))
    ensures n < |calls| ==> Times(calls, n + 1) == Times(calls, n) + [calls[n].now]
  {}

  lemma {:induction false} BucketRemembers(initial: nat, calls: seq<Call>, n: nat, now: int)
    returns (zeros: nat, forgotten: nat)
    requires n <= |calls| && Clocked(calls) && AcceptedBefore(initial, calls, n)
    requires n > 0 ==> calls[n - 1].now <= now
    ensures Remembers(Bucket(initial, calls, n), Times(calls, n), now, zeros, forgotten)
  {
    if n == 0 {
      zeros, forgotten := initial, 0;
      assert Zeros(initial) == Zeros(initial) + Times(calls, 0)[0..];
    } else {
      var last := calls[n - 1];
      var z, f := BucketRemembers(initial, calls, n - 1, last.now);
      TimesSorted(calls, n - 1);
      zeros, forgotten := OneEvent(Bucket(initial, calls, n - 1), Times(calls, n - 1), z, f, last.limit, last.now);
    }
  }

  /**
   However the limit changes, the first events up to and including the first rejected one are judged
   exactly: an event is rejected when it is one too many in the closed window of the last second.
   */
  lemma LimitIsExact(initial: nat, calls: seq<Call>, n: nat)
    requires n < |calls| && Clocked(calls) && AcceptedBefore(initial, calls, n)
    ensures Rejects(Bucket(initial, calls, n), calls[n].limit, calls[n].now) <==>
            Recent(Times(calls, n + 1), calls[n].now) > AtLeastOne(calls[n].limit)
  {
    var now := calls[n].now;
    var z, f := BucketRemembers(initial, calls, n, now);
    TimesSorted(calls, n);
    var _, _ := OneEvent(Bucket(initial, calls, n), Times(calls, n), z, f, calls[n].limit, now);
    assert (Times(calls, n) + [now])[..n] == Times(calls, n);
    assert Recent(Times(calls, n) + [now], now) == Recent(Times(calls, n), now) + 1;
  }

  /** The events, by number, within the thousand milliseconds before a time, both ends included. */
  function LastSecond(times: seq<int>, now: int): set<int> {
    set i | 0 <= i < |times| && now - times[i] <= 1000
  }

  lemma {:induction false} RecentCounts(times: seq<int>, now: int)
    ensures Recent(times, now) == |LastSecond(times, now)|
  {
    if times != [] {
      var n := |times| - 1;
      RecentCounts(times[..n], now);
      var before, all := LastSecond(times[..n], now), LastSecond(times, now);
      assert forall i :: i in all <==> i in before || (i == n && now - times[n] <= 1000);
      assert all == if now - times[n] <= 1000 then before + {n} else before;
    }
  }

  /** Rejected are the events that make it more than the limit, or than one, within a thousand milliseconds. */
  lemma RejectedOverLimit(initial: nat, calls: seq<Call>, n: nat)
    requires n < |calls| && Clocked(calls) && AcceptedBefore(initial, calls, n)
    ensures var recent := LastSecond(Times(calls, n + 1), calls[n].now);
            Rejects(Bucket(initial, calls, n), calls[n].limit, calls[n].now) <==>
            |recent| > 1 && |recent| > calls[n].limit
  {
    LimitIsExact(initial, calls, n);
    RecentCounts(Times(calls, n + 1), calls[n].now);
  }

  // ---- Any event, also after rejections ----

  /** How many of the first n events the bucket still has: one more with each, and never more than its limit. */
  function Kept(calls: seq<Call>, n: nat): (k: nat)
    requires n <= |calls|
    ensures k <= n
  {
    if n == 0 then 0
    else
      var k, l := Kept(calls, n - 1), AtLeastOne(calls[n - 1].limit);
      if k < l then k + 1 else l
  }

  /** The bucket is the last events it still has, after some zeros. */
  lemma {:induction false} BucketShape(initial: nat, calls: seq<Call>, n: nat)
    requires n <= |calls|
    ensures var bucket, k := Bucket(initial, calls, n), Kept(calls, n);
            k <= |bucket| && bucket == Zeros(|bucket| - k) + Times(calls, n)[n - k..]
  {
    hide Fit, Times, Zeros;
    if n > 0 {
      var l, now, k := AtLeastOne(calls[n - 1].limit), calls[n - 1].now, Kept(calls, n - 1);
      BucketShape(initial, calls, n - 1);
      FittedShape(Bucket(initial, calls, n - 1), Times(calls, n - 1), k, l);
      SlidShape(Times(calls, n - 1), if k < l then k else l, l, now);
      OneMore(calls, n - 1);
    }
  }

  lemma OneMore(calls: seq<Call>, n: nat)
    requires n < |calls|
    ensures Times(calls, n + 1) == Times(calls, n) + [calls[n].now]
  {}

  lemma FittedShape(bucket: seq<int>, times: seq<int>, k: nat, limit: nat)
    requires k <= |times| && k <= |bucket| && bucket == Zeros(|bucket| - k) + times[|times| - k..]
    ensures var kept := if k < limit then k else limit; Fit(bucket, limit) == Zeros(limit - kept) + times[|times| - kept..]
  {}

  lemma SlidShape(times: seq<int>, k: nat, limit: nat, now: int)
    requires k <= |times| && k <= limit && 1 <= limit
    ensures var fitted, all, kept := Zeros(limit - k) + times[|times| - k..], times + [now], if k < limit then k + 1 else limit;
            fitted[1..] + [now] == Zeros(limit - kept) + all[|all| - kept..]
  {}

  /** An event is one too many exactly when that many events lie in the window before it. */
  lemma TooMany(times: seq<int>, limit: nat, now: int)
    requires Sorted(times + [now]) && 1 <= limit
    ensures Recent(times + [now], now) > limit <==> |times| >= limit && now - times[|times| - limit] <= WINDOW
  {
    var all := times + [now];
    assert all[..|times|] == times && forall i :: 0 <= i < |times| ==> all[i] == times[i];
    if |times| < limit {
      RecentAtMost(all, now, 0);
    } else if now - times[|times| - limit] <= WINDOW {
      RecentAtLeast(all, now, |times| - limit);
    } else {
      RecentAtMost(all, now, |times| - limit + 1);
    }
  }

  /**
   However the limit changes and whatever has been rejected, an event is judged exactly, as one too many in
   the closed window of the last second, if and only if the bucket still has as many events as the limit
   looks back, or there have been fewer, or the one it should look at is out of the window.
   */
  lemma VerdictIff(initial: nat, calls: seq<Call>, n: nat)
    requires n < |calls| && Clocked(calls)
    ensures var l, now := AtLeastOne(calls[n].limit), calls[n].now;
            (Rejects(Bucket(initial, calls, n), calls[n].limit, now) <==> Recent(Times(calls, n + 1), now) > l) <==>
            Kept(calls, n) >= l || n < l || now - calls[n - l].now > WINDOW
  {
    hide Recent, Bucket, Kept;
    var l, now, k := AtLeastOne(calls[n].limit), calls[n].now, Kept(calls, n);
    BucketShape(initial, calls, n);
    FittedShape(Bucket(initial, calls, n), Times(calls, n), k, l);
    TimesSorted(calls, n + 1);
    TimesSorted(calls, n);
    TooMany(Times(calls, n), l, now);
  }

  /** In its first window the clock is mistaken for the zeros: the very first event is rejected, exactly then. */
  lemma EarlyClockRejects(initial: nat, limit: int, now: int)
    ensures Rejects(Zeros(initial), limit, now) <==> now <= WINDOW
  {
    assert Fit(Zeros(initial), AtLeastOne(limit))[0] == 0;
  }

  /**
   So after a rejection the count is no longer exact if the limit then rises: however many events
   came at once under a limit of one, the next is let through under a limit of two. The connection is
   closed by then.
   */
  lemma RaisedAfterRejection(initial: nat, calls: seq<Call>, n: nat, now: int)
    requires initial == 1 && now > WINDOW && 2 <= n <= |calls|
    requires forall i :: 0 <= i < n ==> calls[i] == Call(1, now)
    ensures Rejects(Bucket(initial, calls, n - 1), 1, now)
    ensures !Rejects(Bucket(initial, calls, n), 2, now) && Recent(Times(calls, n), now) >= 2
  {
    BurstBucket(initial, calls, n, now);
    BurstBucket(initial, calls, n - 1, now);
    AllAtOnce(calls, n, now);
  }

  lemma AllAtOnce(calls: seq<Call>, n: nat, now: int)
    requires n <= |calls| && forall i :: 0 <= i < n ==> calls[i].now == now
    ensures Recent(Times(calls, n), now) == n
  {
    RecentAtLeast(Times(calls, n), now, 0);
    RecentAtMost(Times(calls, n), now, 0);
  }

  /** Under a limit of one the bucket is the last event. */
  lemma {:induction false} BurstBucket(initial: nat, calls: seq<Call>, n: nat, now: int)
    requires initial == 1 && n <= |calls| && forall i :: 0 <= i < n ==> calls[i] == Call(1, now)
    ensures Bucket(initial, calls, n) == if n == 0 then [0] else [now]
    ensures now > WINDOW ==>
              && (Rejects(Bucket(initial, calls, n), 1, now) <==> n > 0)
              && !Rejects(Bucket(initial, calls, n), 2, now)
  {
    if n > 0 {
      BurstBucket(initial, calls, n - 1, now);
      assert Fit(Bucket(initial, calls, n - 1), 1)[1..] == [];
    }
  }
}
