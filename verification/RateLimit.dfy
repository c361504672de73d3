/** Sliding-window limiter: at most `limit` accepted requests in any window of `windowMs`. */
module RateLimit {
  import opened Prelude
  import opened FixedPoint

  /** What is left of the queue once its expired front entries are dropped. */
  function Evicted(accepted: seq<nat>, windowMs: nat, now: nat): seq<nat> {
    if accepted != [] && SaturatingSub(now, accepted[0]) >= windowMs then
      Evicted(accepted[1..], windowMs, now)
    else accepted
  }

  datatype State = State(limit: nat, windowMs: nat, accepted: seq<nat>)

  function Evict(s: State, now: nat): State {
    s.(accepted := Evicted(s.accepted, s.windowMs, now))
  }

  predicate Admits(s: State, now: nat) {
    s.limit != 0 && s.windowMs != 0 && |Evict(s, now).accepted| < s.limit
  }

  function AfterAcquire(s: State, now: nat): State {
    var e := Evict(s, now);
    if Admits(s, now) then e.(accepted := e.accepted + [now]) else e
  }

  function RetryAfter(s: State, now: nat): nat {
    var e := Evict(s, now);
    if |e.accepted| < e.limit || e.accepted == [] then 0
    else
      var readyAt := e.accepted[0] + e.windowMs;
      if readyAt <= U64_MAX && readyAt >= now then readyAt - now else 0
  }

  class SlidingWindowRateLimiter {
    const limit: nat
    const windowMs: nat
    var acceptedAtMs: seq<nat>

    function View(): State
      reads this
    {
      State(limit, windowMs, acceptedAtMs)
    }

    constructor (limit: nat, windowMs: nat)
      ensures View() == State(limit, windowMs, [])
    {
      this.limit := limit;
      this.windowMs := windowMs;
      acceptedAtMs := [];
    }

    method TryAcquire(now: nat) returns (accepted: bool)
      modifies this
      ensures accepted == Admits(old(View()), now)
      ensures View() == AfterAcquire(old(View()), now)
    {
      EvictExpired(now);
      if limit == 0 || windowMs == 0 || |acceptedAtMs| >= limit {
        return false;
      }
      acceptedAtMs := acceptedAtMs + [now];
      return true;
    }

    method RetryAfterMs(now: nat) returns (wait: nat)
      modifies this
      ensures wait == RetryAfter(old(View()), now)
      ensures View() == Evict(old(View()), now)
    {
      EvictExpired(now);
      if |acceptedAtMs| < limit || acceptedAtMs == [] {
        return 0;
      }
      var readyAt := acceptedAtMs[0] + windowMs;
      if readyAt <= U64_MAX && readyAt >= now {
        return readyAt - now;
      }
      return 0;
    }

    method EvictExpired(now: nat)
      modifies this
      ensures View() == Evict(old(View()), now)
    {
      while acceptedAtMs != [] && SaturatingSub(now, acceptedAtMs[0]) >= windowMs
        invariant Evicted(acceptedAtMs, windowMs, now) == Evicted(old(acceptedAtMs), windowMs, now)
        decreases |acceptedAtMs|
      {
        acceptedAtMs := acceptedAtMs[1..];
      }
    }
  }

  // ----- Runs -----

  datatype Call = Acquire(at: nat) | AskRetry(at: nat)

  function Step(s: State, c: Call): State {
    match c
    case Acquire(now) => AfterAcquire(s, now)
    case AskRetry(now) => Evict(s, now)
  }

  /** The times of the requests a run accepts, in order. */
  function AcceptedTimes(s: State, calls: seq<Call>): seq<nat>
    decreases |calls|
  {
    if calls == [] then []
    else
      var c := calls[0];
      (if c.Acquire? && Admits(s, c.at) then [c.at] else []) + AcceptedTimes(Step(s, c), calls[1..])
  }

  predicate ClockNeverGoesBack(calls: seq<Call>) {
    forall i, j | 0 <= i < j < |calls| :: calls[i].at <= calls[j].at
  }

  function CountIn(times: seq<nat>, start: nat, length: nat): nat {
    if times == [] then 0
    else
      var last := times[|times| - 1];
      CountIn(times[..|times| - 1], start, length) + (if start <= last < start + length then 1 else 0)
  }

  /** `history` lists every accepted request; the queue is its unexpired tail as of `now`. */
  ghost predicate Inv(s: State, history: seq<nat>, now: nat) {
    && |s.accepted| <= s.limit && |s.accepted| <= |history|
    && s.accepted == history[|history| - |s.accepted|..]
    && (forall i | 0 <= i < |history| :: history[i] <= now)
    && NonDecreasing(history)
    && (forall i | 0 <= i < |history| - |s.accepted| :: history[i] + s.windowMs <= now)
    && Spaced(history, s.limit, s.windowMs)
  }

  ghost predicate NonDecreasing(times: seq<nat>) {
    forall i, j | 0 <= i < j < |times| :: times[i] <= times[j]
  }

  ghost predicate Spaced(history: seq<nat>, limit: nat, windowMs: nat) {
    forall i, j | 0 <= i && j == i + limit && j < |history| :: history[i] + windowMs <= history[j]
  }

  lemma {:induction false} EvictKeepsInv(s: State, history: seq<nat>, last: nat, now: nat)
    requires Inv(s, history, last) && last <= now
    ensures Inv(Evict(s, now), history, now)
    decreases |s.accepted|
  {
    if s.accepted != [] && SaturatingSub(now, s.accepted[0]) >= s.windowMs {
      var n := |history| - |s.accepted|;
      assert s.accepted[0] == history[n];
      EvictKeepsInv(s.(accepted := s.accepted[1..]), history, now, now);
    }
  }

  lemma AcceptKeepsInv(e: State, history: seq<nat>, now: nat)
    requires Inv(e, history, now) && |e.accepted| < e.limit
    ensures Inv(e.(accepted := e.accepted + [now]), history + [now], now)
  {
    var longer := history + [now];
    var n := |history| - |e.accepted|;
    assert longer[n..] == history[n..] + [now];
    forall i, j | 0 <= i && j == i + e.limit && j < |longer| ensures longer[i] + e.windowMs <= longer[j] {
      if j == |history| {
        assert i < n;
      }
    }
  }

  lemma StepKeepsInv(s: State, history: seq<nat>, last: nat, c: Call)
    requires Inv(s, history, last) && last <= c.at
    ensures var more := if c.Acquire? && Admits(s, c.at) then [c.at] else [];
      Inv(Step(s, c), history + more, c.at)
  {
    EvictKeepsInv(s, history, last, c.at);
    if c.Acquire? && Admits(s, c.at) {
      AcceptKeepsInv(Evict(s, c.at), history, c.at);
    } else {
      assert history + [] == history;
    }
  }

  ghost predicate Fair(times: seq<nat>, limit: nat, windowMs: nat) {
    Spaced(times, limit, windowMs) && NonDecreasing(times)
  }

  lemma AcceptedStep(s: State, calls: seq<Call>, history: seq<nat>)
    requires calls != []
    ensures var c := calls[0];
      var more := if c.Acquire? && Admits(s, c.at) then [c.at] else [];
      history + AcceptedTimes(s, calls) == (history + more) + AcceptedTimes(Step(s, c), calls[1..])
  {
  }

  lemma {:induction false} RunIsFair(s: State, calls: seq<Call>, history: seq<nat>, last: nat)
    requires Inv(s, history, last) && ClockNeverGoesBack(calls)
    requires calls != [] ==> last <= calls[0].at
    ensures Fair(history + AcceptedTimes(s, calls), s.limit, s.windowMs)
    decreases |calls|
  {
    if calls == [] {
      assert history + AcceptedTimes(s, calls) == history;
    } else {
      var c := calls[0];
      var more := if c.Acquire? && Admits(s, c.at) then [c.at] else [];
      AcceptedStep(s, calls, history);
      StepKeepsInv(s, history, last, c);
      RunIsFair(Step(s, c), calls[1..], history + more, c.at);
    }
  }

  lemma {:induction false} CountAtMostLength(times: seq<nat>, start: nat, length: nat)
    ensures CountIn(times, start, length) <= |times|
  {
    if times != [] {
      CountAtMostLength(times[..|times| - 1], start, length);
    }
  }

  lemma {:induction false} CountSkipsPrefix(times: seq<nat>, n: nat, start: nat, length: nat)
    requires n <= |times| && forall i | 0 <= i < n :: times[i] < start
    ensures CountIn(times, start, length) == CountIn(times[n..], start, length)
    decreases |times|
  {
    if n < |times| {
      CountSkipsPrefix(times[..|times| - 1], n, start, length);
      assert times[..|times| - 1][n..] == times[n..][..|times| - n - 1];
    } else if times != [] {
      CountSkipsPrefix(times[..|times| - 1], n - 1, start, length);
      assert times[..|times| - 1][n - 1..] == [] && times[n..] == [];
    }
  }

  lemma {:induction false} SpacedCount(times: seq<nat>, limit: nat, windowMs: nat, start: nat)
    requires Spaced(times, limit, windowMs) && NonDecreasing(times)
    ensures CountIn(times, start, windowMs) <= limit
    decreases |times|
  {
    var n := |times|;
    CountAtMostLength(times, start, windowMs);
    if n > limit {
      if start <= times[n - 1] < start + windowMs {
        assert times[n - 1 - limit] + windowMs <= times[n - 1];
        CountSkipsPrefix(times, n - limit, start, windowMs);
        CountAtMostLength(times[n - limit..], start, windowMs);
      } else {
        SpacedCount(times[..n - 1], limit, windowMs, start);
      }
    }
  }

  /** However requests and retry queries interleave, no window of `windowMs` holds more than `limit` acceptances. */
  lemma WindowBound(limit: nat, windowMs: nat, calls: seq<Call>, start: nat)
    requires ClockNeverGoesBack(calls)
    ensures CountIn(AcceptedTimes(State(limit, windowMs, []), calls), start, windowMs) <= limit
  {
    var s := State(limit, windowMs, []);
    assert Inv(s, [], 0);
    RunIsFair(s, calls, [], 0);
    assert [] + AcceptedTimes(s, calls) == AcceptedTimes(s, calls);
    SpacedCount(AcceptedTimes(s, calls), limit, windowMs, start);
  }

  lemma {:induction false} EvictedShrinks(accepted: seq<nat>, windowMs: nat, now: nat)
    ensures |Evicted(accepted, windowMs, now)| <= |accepted|
  {
    if accepted != [] && SaturatingSub(now, accepted[0]) >= windowMs {
      EvictedShrinks(accepted[1..], windowMs, now);
    }
  }

  /** The queue never outgrows the limit, whatever the clock does. */
  lemma QueueWithinLimit(s: State, c: Call)
    requires |s.accepted| <= s.limit
    ensures |Step(s, c).accepted| <= s.limit
  {
    EvictedShrinks(s.accepted, s.windowMs, c.at);
  }

  /**
   * After a refusal, `RetryAfter` is exactly the least wait that is admitted, precisely when
   * `oldest + windowMs` fits in 64 bits; otherwise it answers 0 although a wait is needed.
   */
  lemma RetryAfterIsLeastWait(s: State, now: nat)
    requires s.limit > 0 && s.windowMs > 0 && |s.accepted| <= s.limit
    requires !Admits(s, now)
    ensures var after := Evict(s, now);
      && after.accepted != []
      && (after.accepted[0] + s.windowMs <= U64_MAX <==>
          forall at: nat | at >= now :: Admits(after, at) <==> at - now >= RetryAfter(s, now))
  {
    var after := Evict(s, now);
    EvictedShrinks(s.accepted, s.windowMs, now);
    EvictedStops(s.accepted, s.windowMs, now);
    var oldest := after.accepted[0];
    forall at: nat | at >= now ensures Admits(after, at) <==> at >= oldest + s.windowMs {
      EvictedShrinks(after.accepted[1..], s.windowMs, at);
    }
    assert !Admits(after, now);
  }

  /** The failing case: a request accepted at the last 64-bit instant, and an answer of 0 although the next one is refused. */
  lemma RetryAfterOverflows()
    ensures var s := Step(State(1, 1, []), Acquire(U64_MAX));
      s.accepted == [U64_MAX] && RetryAfter(s, U64_MAX) == 0 && !Admits(s, U64_MAX)
  {
    var s := Step(State(1, 1, []), Acquire(U64_MAX));
    assert Evicted([U64_MAX], 1, U64_MAX) == [U64_MAX];
    assert s.accepted == [] + [U64_MAX];
  }

  lemma {:induction false} EvictedStops(accepted: seq<nat>, windowMs: nat, now: nat)
    ensures var rest := Evicted(accepted, windowMs, now);
      rest != [] ==> SaturatingSub(now, rest[0]) < windowMs
  {
    if accepted != [] && SaturatingSub(now, accepted[0]) >= windowMs {
      EvictedStops(accepted[1..], windowMs, now);
    }
  }

  /** How many of these times are less than a window old. */
  function Recent(times: seq<nat>, windowMs: nat, now: nat): nat {
    if times == [] then 0
    else Recent(times[..|times| - 1], windowMs, now) + if now < times[|times| - 1] + windowMs then 1 else 0
  }

  lemma {:induction false} RecentSuffix(times: seq<nat>, n: nat, windowMs: nat, now: nat)
    requires n <= |times|
    requires forall i | 0 <= i < n :: times[i] + windowMs <= now
    requires forall i | n <= i < |times| :: now < times[i] + windowMs
    ensures Recent(times, windowMs, now) == |times| - n
    decreases |times|
  {
    if times != [] {
      RecentSuffix(times[..|times| - 1], if n < |times| then n else n - 1, windowMs, now);
    }
  }

  /** A request is accepted exactly when fewer than `limit` of all those accepted before are less than a window old. */
  lemma AdmitsIffRoom(s: State, history: seq<nat>, last: nat, now: nat)
    requires Inv(s, history, last) && last <= now
    ensures Admits(s, now) <==> s.limit > 0 && s.windowMs > 0 && Recent(history, s.windowMs, now) < s.limit
  {
    var after := Evict(s, now);
    EvictKeepsInv(s, history, last, now);
    EvictedStops(s.accepted, s.windowMs, now);
    if s.windowMs > 0 {
      var n := |history| - |after.accepted|;
      assert after.accepted != [] ==> after.accepted[0] == history[n];
      forall i | n <= i < |history| ensures now < history[i] + s.windowMs {
        assert history[n] <= history[i];
      }
      RecentSuffix(history, n, s.windowMs, now);
    }
  }
}
