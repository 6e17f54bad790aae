/**
 * The per-address sliding-window limiter guarding POST /aiml/answer: at
 * most ten admitted calls in any trailing minute.
 */
module RateLimit {
  import opened Common

  const Limit: nat := 10
  const WindowMs: int := 60000

  /** `requests.filter(timestamp => timestamp > windowStart)`. */
  function Recent(ts: seq<Time>, windowStart: Time): (r: seq<Time>)
    ensures |r| <= |ts|
    ensures forall i | 0 <= i < |r| :: r[i] > windowStart
    decreases |ts|
  {
    if ts == [] then []
    else (if ts[0] > windowStart then [ts[0]] else []) + Recent(ts[1..], windowStart)
  }

  /** The timestamps stored for `ip`; none before its first call. */
  function Stored(windows: map<Address, seq<Time>>, ip: Address): seq<Time> {
    if ip in windows then windows[ip] else []
  }

  /** How many of the timestamps are newer than the window start. */
  function CountNewer(ts: seq<Time>, windowStart: Time): nat {
    |set i | 0 <= i < |ts| && ts[i] > windowStart|
  }

  lemma {:induction false} RecentAppend(a: seq<Time>, b: seq<Time>, windowStart: Time)
    ensures Recent(a + b, windowStart) == Recent(a, windowStart) + Recent(b, windowStart)
    decreases |a|
  {
    if a == [] {
      assert a + b == b;
    } else {
      RecentAppend(a[1..], b, windowStart);
      assert (a + b)[1..] == a[1..] + b;
    }
  }

  /** The filter keeps as many timestamps as lie after the window start. */
  lemma {:induction false} RecentCount(ts: seq<Time>, windowStart: Time)
    ensures |Recent(ts, windowStart)| == CountNewer(ts, windowStart)
    decreases |ts|
  {
    if ts != [] {
      var n := |ts| - 1;
      var init, last := ts[..n], ts[n];
      RecentCount(init, windowStart);
      assert ts == init + [last];
      RecentAppend(init, [last], windowStart);
      assert [last][1..] == [];
      var all := set i | 0 <= i < |ts| && ts[i] > windowStart;
      var pre := set i | 0 <= i < n && init[i] > windowStart;
      assert pre == set i | 0 <= i < n && ts[i] > windowStart;
      if last > windowStart {
        assert all == pre + {n};
      } else {
        assert all == pre;
      }
    }
  }

  /** The filter keeps exactly the timestamps after the window start, with their multiplicities. */
  lemma {:induction false} RecentMultiset(ts: seq<Time>, windowStart: Time)
    ensures forall t :: multiset(Recent(ts, windowStart))[t] == if t > windowStart then multiset(ts)[t] else 0
    decreases |ts|
  {
    if ts != [] {
      var tail := ts[1..];
      RecentMultiset(tail, windowStart);
      assert ts == [ts[0]] + tail;
      assert multiset(ts) == multiset{ts[0]} + multiset(tail);
      var head := if ts[0] > windowStart then [ts[0]] else [];
      assert multiset(Recent(ts, windowStart)) == multiset(head) + multiset(Recent(tail, windowStart));
    }
  }

  /** Whether a call at `now` is admitted, given the timestamps stored for its address. */
  predicate Admits(ts: seq<Time>, now: Time): (b: bool)
    ensures |ts| < Limit ==> b
  {
    |Recent(ts, now - WindowMs)| < Limit
  }

  /** The decision: a call is refused exactly when ten or more stored timestamps lie inside the trailing minute. */
  lemma AdmitsIffFewerThanLimit(ts: seq<Time>, now: Time)
    ensures Admits(ts, now) <==> CountNewer(ts, now - WindowMs) < Limit
  {
    RecentCount(ts, now - WindowMs);
  }

  /** After an admitted call the address holds at most ten timestamps, all inside the window or equal to now. */
  lemma AdmittedWindowBounded(ts: seq<Time>, now: Time)
    requires Admits(ts, now)
    ensures var w := Recent(ts, now - WindowMs) + [now];
      |w| <= Limit && forall i | 0 <= i < |w| :: w[i] > now - WindowMs || w[i] == now
  {
  }

  /** Timestamps all inside the window survive the filter unchanged. */
  lemma {:induction false} RecentKeepsAll(ts: seq<Time>, windowStart: Time)
    requires forall i | 0 <= i < |ts| :: ts[i] > windowStart
    ensures Recent(ts, windowStart) == ts
    decreases |ts|
  {
    if ts != [] {
      RecentKeepsAll(ts[1..], windowStart);
    }
  }

  /** Timestamps all outside the window are dropped. */
  lemma {:induction false} RecentDropsAll(ts: seq<Time>, windowStart: Time)
    requires forall i | 0 <= i < |ts| :: ts[i] <= windowStart
    ensures Recent(ts, windowStart) == []
    decreases |ts|
  {
    if ts != [] {
      RecentDropsAll(ts[1..], windowStart);
    }
  }

  /** The live `aimlRateLimit` map from client address to its stored timestamps. */
  class RateLimiter {
    var windows: map<Address, seq<Time>>

    constructor ()
      ensures windows == map[]
    {
      windows := map[];
    }

    /**
     * `checkAIMLRateLimit(ip)` at clock reading `now`. An address seen for the
     * first time gets an empty entry; a refused call records nothing; an
     * admitted one stores the pruned list with `now` appended.
     */
    method Check(ip: Address, now: Time) returns (admitted: bool)
      modifies this
      ensures admitted == Admits(Stored(old(windows), ip), now)
      ensures admitted ==> windows == old(windows)[ip := Recent(Stored(old(windows), ip), now - WindowMs) + [now]]
      ensures !admitted ==> windows == old(windows)[ip := Stored(old(windows), ip)]
    {
      var windowStart := now - WindowMs;
      if ip !in windows {
        windows := windows[ip := []];
      }
      var requests := windows[ip];
      var recentRequests := Recent(requests, windowStart);
      if |recentRequests| >= Limit {
        return false;
      }
      recentRequests := recentRequests + [now];
      windows := windows[ip := recentRequests];
      return true;
    }
  }

  /** The reply of POST /aiml/answer before the simulated upstream is reached. */
  datatype AnswerGate =
    | MissingFields     // 400 'Question and company are required'
    | TooManyRequests   // 429, retryAfter 60
    | Forwarded

  /**
   * POST /aiml/answer up to the rate check: a body without a question or a
   * company is refused before the limiter is consulted, so it uses no slot.
   */
  method AimlAnswer(limiter: RateLimiter, question: Option<string>, company: Option<string>, ip: Address, now: Time)
    returns (gate: AnswerGate)
    modifies limiter
    ensures !(Present(question) && Present(company)) ==> gate == MissingFields && limiter.windows == old(limiter.windows)
    ensures Present(question) && Present(company) ==>
      && (gate == Forwarded <==> Admits(Stored(old(limiter.windows), ip), now))
      && (gate == TooManyRequests <==> !Admits(Stored(old(limiter.windows), ip), now))
    ensures Present(question) && Present(company) ==>
      limiter.windows == old(limiter.windows)[ip :=
        if Admits(Stored(old(limiter.windows), ip), now)
        then Recent(Stored(old(limiter.windows), ip), now - WindowMs) + [now]
        else Stored(old(limiter.windows), ip)]
  {
    if !Present(question) || !Present(company) {
      return MissingFields;
    }
    var ok := limiter.Check(ip, now);
    if !ok {
      return TooManyRequests;
    }
    return Forwarded;
  }

  /**
   * Ten calls from one address within one second are admitted, the eleventh
   * in the same minute is refused, and a call once the minute has passed is
   * admitted again.
   */
  method BurstThenRecover(ip: Address, t0: Time) returns (burst: seq<bool>, eleventh: bool, later: bool)
    ensures burst == seq(10, _ => true)
    ensures !eleventh
    ensures later
  {
    var limiter := new RateLimiter();
    burst := [];
    var i := 0;
    while i < 10
      invariant 0 <= i <= 10
      invariant burst == seq(i, _ => true)
      invariant i > 0 ==> ip in limiter.windows
      invariant |Stored(limiter.windows, ip)| == i
      invariant forall k | 0 <= k < i :: t0 <= Stored(limiter.windows, ip)[k] <= t0 + 900
    {
      var ts := Stored(limiter.windows, ip);
      RecentKeepsAll(ts, t0 + 100 * i - WindowMs);
      var ok := limiter.Check(ip, t0 + 100 * i);
      burst := burst + [ok];
      i := i + 1;
    }
    RecentKeepsAll(Stored(limiter.windows, ip), t0 + 999 - WindowMs);
    eleventh := limiter.Check(ip, t0 + 999);
    RecentDropsAll(Stored(limiter.windows, ip), t0 + 61000 - WindowMs);
    later := limiter.Check(ip, t0 + 61000);
  }
}
