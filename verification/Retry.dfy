/** Retrying with growing delays: saturating exponential backoff between header
    subscriptions, linear delays between submission attempts. */
module Retry {
  import opened Types
  import opened Powers

  const U64_MAX: nat := 0xFFFF_FFFF_FFFF_FFFF

  type U32 = n: nat | n < 0x1_0000_0000

  function Min(a: nat, b: nat): nat { if a <= b then a else b }

  function SaturatingMul(a: U64, b: U64): U64 { Min(a * b, U64_MAX) }

  function SaturatingPower2(e: nat): U64 { Min(Power2(e), U64_MAX) }

  function SaturatingDecrement(n: nat): nat { if n == 0 then 0 else n - 1 }

  function CalculateBackoff(failures: U32, baseDelay: U64, maxDelay: U64): U64 {
    Min(SaturatingMul(baseDelay, SaturatingPower2(SaturatingDecrement(failures))), maxDelay)
  }

  lemma ProductGrows(a: nat, b: nat, c: nat)
    requires b <= c
    ensures a * b <= a * c
  {
  }

  /** Saturation never shows: the result is the one exact arithmetic gives. */
  lemma BackoffIsExact(failures: U32, baseDelay: U64, maxDelay: U64)
    ensures CalculateBackoff(failures, baseDelay, maxDelay)
         == Min(maxDelay, baseDelay * Power2(if failures == 0 then 0 else failures - 1))
  {
    var e := SaturatingDecrement(failures);
    if Power2(e) > U64_MAX {
      ProductGrows(baseDelay, U64_MAX, Power2(e));
      if baseDelay == 0 {
        assert baseDelay * Power2(e) == 0;
      } else {
        ProductGrows(U64_MAX, 1, baseDelay);
      }
    }
  }

  lemma BackoffGrows(f: U32, g: U32, baseDelay: U64, maxDelay: U64)
    requires f <= g
    ensures CalculateBackoff(f, baseDelay, maxDelay) <= CalculateBackoff(g, baseDelay, maxDelay) <= maxDelay
  {
    BackoffIsExact(f, baseDelay, maxDelay);
    BackoffIsExact(g, baseDelay, maxDelay);
    Power2Grows(SaturatingDecrement(f), SaturatingDecrement(g));
    ProductGrows(baseDelay, Power2(SaturatingDecrement(f)), Power2(SaturatingDecrement(g)));
  }

  // ---- Linear retry ----

  datatype Outcome<+T> = Success(value: T) | Failure(error: string)

  /** The product wraps: release builds do not check it. */
  function RetryDelay(baseDelay: U64, attempt: nat): U64 {
    baseDelay * attempt % (U64_MAX + 1)
  }

  function Sum(delays: seq<nat>): nat {
    if delays == [] then 0 else Sum(delays[..|delays| - 1]) + delays[|delays| - 1]
  }

  /** `operation(i)` is what call number i comes to. The first success is returned; the last
      failure after `maxRetries` calls, but never fewer than one call is made. */
  method WithRetry<T>(maxRetries: U32, baseDelay: U64, operation: nat -> Outcome<T>)
    returns (result: Outcome<T>, calls: nat, slept: seq<nat>)
    ensures 1 <= calls && (calls == 1 || calls <= maxRetries)
    ensures forall i :: 0 <= i < calls - 1 ==> operation(i).Failure?
    ensures result == operation(calls - 1)
    ensures result.Failure? ==> maxRetries <= calls
    ensures |slept| == calls - 1 && forall i :: 0 <= i < |slept| ==> slept[i] == RetryDelay(baseDelay, i + 1)
  {
    calls, slept := 0, [];
    while true
      invariant calls == |slept| && (calls == 0 || calls < maxRetries)
      invariant forall i :: 0 <= i < calls ==> operation(i).Failure?
      invariant forall i :: 0 <= i < |slept| ==> slept[i] == RetryDelay(baseDelay, i + 1)
      decreases maxRetries - calls
    {
      result := operation(calls);
      calls := calls + 1;
      if result.Success? || calls >= maxRetries {
        return;
      }
      slept := slept + [RetryDelay(baseDelay, calls)];
    }
  }

  function Triangle(k: nat): nat { if k == 0 then 0 else Triangle(k - 1) + k }

  lemma {:induction false} TriangleIs(k: nat)
    ensures Triangle(k) == k * (k + 1) / 2
  {
    if k > 0 {
      TriangleIs(k - 1);
      assert k * (k + 1) == (k - 1) * k + 2 * k;
    }
  }

  /** After k failures followed by another attempt, base * k(k+1)/2 has been slept, as long
      as the last product fits in 64 bits. */
  lemma {:induction false} TotalDelay(baseDelay: U64, slept: seq<nat>)
    requires forall i :: 0 <= i < |slept| ==> slept[i] == RetryDelay(baseDelay, i + 1)
    requires baseDelay * |slept| <= U64_MAX
    ensures Sum(slept) == baseDelay * (|slept| * (|slept| + 1) / 2)
  {
    DelaysAddUp(baseDelay, slept);
    TriangleIs(|slept|);
  }

  lemma {:induction false} DelaysAddUp(baseDelay: U64, slept: seq<nat>)
    requires forall i :: 0 <= i < |slept| ==> slept[i] == RetryDelay(baseDelay, i + 1)
    requires baseDelay * |slept| <= U64_MAX
    ensures Sum(slept) == baseDelay * Triangle(|slept|)
  {
    if slept != [] {
      var k := |slept|;
      ProductGrows(baseDelay, k - 1, k);
      DelaysAddUp(baseDelay, slept[..k - 1]);
      DelayWraps(baseDelay, k);
      Distributes(baseDelay, Triangle(k - 1), k);
    }
  }

  lemma Distributes(a: nat, b: nat, c: nat)
    ensures a * (b + c) == a * b + a * c
  {
  }

  /** The product wraps exactly when it does not fit: then the delay is a shorter one. */
  lemma DelayWraps(baseDelay: U64, attempt: nat)
    ensures RetryDelay(baseDelay, attempt) == baseDelay * attempt <==> baseDelay * attempt <= U64_MAX
    ensures RetryDelay(baseDelay, attempt) <= baseDelay * attempt
  {
    var p := baseDelay * attempt;
    assert p == p / (U64_MAX + 1) * (U64_MAX + 1) + p % (U64_MAX + 1);
  }

  // ---- The header subscription ----

  const DEFAULT_RECONNECT_DELAY: U64 := 5000
  const MAX_BACKOFF: U64 := 60_000
  const MAX_CONSECUTIVE_FAILURES: nat := 10

  /** What a subscription delivers: a Celestia height, or an error. */
  type Delivery = Outcome<nat>

  /** The headers ahead of the first error. */
  function Delivered(stream: seq<Delivery>): (heights: seq<nat>)
    ensures |heights| <= |stream|
    ensures forall i :: 0 <= i < |heights| ==> stream[i] == Success(heights[i])
    ensures |heights| < |stream| ==> stream[|heights|].Failure?
  {
    if stream == [] || stream[0].Failure? then [] else [stream[0].value] + Delivered(stream[1..])
  }

  lemma {:induction false} DeliveredUpTo(stream: seq<Delivery>, k: nat)
    requires k <= |stream| && forall i :: 0 <= i < k ==> stream[i].Success?
    requires k == |stream| || stream[k].Failure?
    ensures |Delivered(stream)| == k
  {
    if k > 0 {
      DeliveredUpTo(stream[1..], k - 1);
    }
  }

  /** One session. A stream that ends is an error too, so a session never ends well. */
  method RunHeaderSubscription(stream: seq<Delivery>) returns (result: Outcome<()>, processed: seq<nat>)
    ensures result.Failure?
    ensures processed == Delivered(stream)
  {
    processed := [];
    var i := 0;
    while i < |stream|
      invariant i <= |stream| && |processed| == i
      invariant forall j :: 0 <= j < i ==> stream[j] == Success(processed[j])
    {
      match stream[i] {
        case Success(height) =>
          processed := processed + [height];
        case Failure(error) =>
          DeliveredUpTo(stream, i);
          return Failure(error), processed;
      }
      i := i + 1;
    }
    DeliveredUpTo(stream, i);
    result := Failure("subscription stream ended");
  }

  function AllDelivered(sessions: nat -> seq<Delivery>, n: nat): seq<nat> {
    if n == 0 then [] else AllDelivered(sessions, n - 1) + Delivered(sessions(n - 1))
  }

  /** Sessions follow one another: after `k` of them come the headers of the next. */
  lemma {:induction false} SessionsInOrder(sessions: nat -> seq<Delivery>, k: nat, n: nat)
    requires k < n
    ensures AllDelivered(sessions, k) + Delivered(sessions(k)) <= AllDelivered(sessions, n)
  {
    if k + 1 < n {
      SessionsInOrder(sessions, k, n - 1);
    }
  }

  /** The i-th sleep follows the i-th failure in a row. */
  ghost predicate BackedOff(slept: seq<nat>) {
    && |slept| < MAX_CONSECUTIVE_FAILURES
    && forall i :: 0 <= i < |slept| ==> slept[i] == CalculateBackoff(i + 1, DEFAULT_RECONNECT_DELAY, MAX_BACKOFF)
  }

  lemma BackedOffOnce(slept: seq<nat>, failures: nat)
    requires BackedOff(slept) && failures == |slept| + 1 < MAX_CONSECUTIVE_FAILURES
    ensures BackedOff(slept + [CalculateBackoff(failures, DEFAULT_RECONNECT_DELAY, MAX_BACKOFF)])
  {
  }

  /** The failure counter is never reset, so the tracker ends for good after ten sessions,
      however many headers they delivered and however far apart the errors were. */
  method RunFinalityTracker(sessions: nat -> seq<Delivery>) returns (processed: seq<nat>, slept: seq<nat>, session: nat)
    ensures session == 10 && processed == AllDelivered(sessions, session)
    ensures |slept| == 9 && BackedOff(slept)
  {
    processed, slept, session := [], [], 0;
    var consecutiveFailures := 0;
    while true
      invariant session == consecutiveFailures == |slept| < MAX_CONSECUTIVE_FAILURES
      invariant processed == AllDelivered(sessions, session)
      invariant BackedOff(slept)
      decreases MAX_CONSECUTIVE_FAILURES - consecutiveFailures
    {
      var result, heights := RunHeaderSubscription(sessions(session));
      session := session + 1;
      processed := processed + heights;
      match result {
        case Success(_) =>
          consecutiveFailures := 0;
        case Failure(_) =>
          consecutiveFailures := consecutiveFailures + 1;
          if consecutiveFailures >= MAX_CONSECUTIVE_FAILURES {
            return;
          }
      }
      BackedOffOnce(slept, consecutiveFailures);
      slept := slept + [CalculateBackoff(consecutiveFailures, DEFAULT_RECONNECT_DELAY, MAX_BACKOFF)];
    }
  }

  /** The tracker's life outside its sessions is six and a quarter minutes. */
  lemma TrackerSleeps(slept: seq<nat>)
    requires |slept| == 9 && BackedOff(slept)
    ensures slept == [5000, 10000, 20000, 40000, 60000, 60000, 60000, 60000, 60000]
    ensures Sum(slept) == 375000
  {
    forall i | 0 <= i < 9
      ensures slept[i] == Min(MAX_BACKOFF, DEFAULT_RECONNECT_DELAY * Power2(i))
    {
      BackoffIsExact(i + 1, DEFAULT_RECONNECT_DELAY, MAX_BACKOFF);
    }
    assert Power2(0) == 1 && Power2(1) == 2 && Power2(2) == 4 && Power2(3) == 8 && Power2(4) == 16;
    forall i | 4 <= i < 9
      ensures slept[i] == 60000
    {
      Power2Grows(4, i);
    }
    assert slept[..4] == [5000, 10000, 20000, 40000];
    SumOfFour(slept[..4]);
    SumFlat(slept, 4);
  }

  lemma SumOfFour(slept: seq<nat>)
    requires slept == [5000, 10000, 20000, 40000]
    ensures Sum(slept) == 75000
  {
    assert slept[..3] == [5000, 10000, 20000] && slept[..3][..2] == [5000, 10000] && slept[..3][..2][..1] == [5000];
    assert Sum([]) == 0 && Sum([5000]) == 5000;
    assert Sum([5000, 10000]) == 15000 && Sum([5000, 10000, 20000]) == 35000;
  }

  lemma {:induction false} SumFlat(slept: seq<nat>, from: nat)
    requires from <= |slept| && forall i :: from <= i < |slept| ==> slept[i] == 60000
    ensures Sum(slept) == Sum(slept[..from]) + (|slept| - from) * 60000
    decreases |slept|
  {
    if from == |slept| {
      assert slept[..from] == slept;
    } else {
      var rest := slept[..|slept| - 1];
      SumFlat(rest, from);
      assert rest[..from] == slept[..from];
    }
  }
}
