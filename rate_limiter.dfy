/** The sliding-window rate limiter of blusky_api/rate_limiter.py: per endpoint,
    the times of the requests made in the last `windowMinutes` minutes. Times are
    whole seconds; the clock readings and the wrapped call's outcome are inputs,
    and the time to sleep is returned instead of slept. */
module RateLimiting {
  import opened Common

  /** Timestamps in non-decreasing order. */
  ghost predicate Sorted(ts: seq<int>)
  {
    forall i, j :: 0 <= i <= j < |ts| ==> ts[i] <= ts[j]
  }

  /** The timestamps strictly after the window start, in their order. */
  function Recent(ts: seq<int>, windowStart: int): (r: seq<int>)
    ensures |r| <= |ts|
    ensures forall i :: 0 <= i < |r| ==> r[i] > windowStart && r[i] in ts
    ensures forall i :: 0 <= i < |ts| && ts[i] > windowStart ==> ts[i] in r
  {
    Filter(ts, t => t > windowStart)
  }

  lemma {:induction false} RecentSorted(ts: seq<int>, windowStart: int)
    requires Sorted(ts)
    ensures Sorted(Recent(ts, windowStart))
  {
    if ts != [] {
      var tail := ts[1..];
      assert Sorted(tail) by {
        forall i, j | 0 <= i <= j < |tail| ensures tail[i] <= tail[j] {
          assert tail[i] == ts[i + 1] && tail[j] == ts[j + 1];
        }
      }
      RecentSorted(tail, windowStart);
      var rest := Recent(tail, windowStart);
      var r := Recent(ts, windowStart);
      if ts[0] > windowStart {
        assert r == [ts[0]] + rest;
        forall i, j | 0 <= i <= j < |r| ensures r[i] <= r[j] {
          assert r[j] == ts[0] || r[j] == rest[j - 1];
          if i == 0 && j > 0 {
            var m :| 0 <= m < |tail| && tail[m] == rest[j - 1];
            assert ts[m + 1] == rest[j - 1];
          } else if i > 0 {
            assert r[i] == rest[i - 1];
          }
        }
      } else {
        assert r == rest;
      }
    }
  }

  /** Sorted, and no timestamp after `now`. */
  ghost predicate SortedUpTo(ts: seq<int>, now: int)
  {
    Sorted(ts) && forall i :: 0 <= i < |ts| ==> ts[i] <= now
  }

  /** Every list of the table is sorted and none holds a time after `now`. */
  ghost predicate TableOrdered(m: map<string, seq<int>>, now: int)
  {
    forall e :: e in m ==> SortedUpTo(m[e], now)
  }

  lemma RecentSortedUpTo(ts: seq<int>, windowStart: int, now: int)
    requires SortedUpTo(ts, now)
    ensures SortedUpTo(Recent(ts, windowStart), now)
  {
    RecentSorted(ts, windowStart);
    var r := Recent(ts, windowStart);
    forall i | 0 <= i < |r| ensures r[i] <= now {
      assert r[i] in ts;
    }
  }

  lemma TableUpdate(m: map<string, seq<int>>, endpoint: string, ts: seq<int>, now: int)
    requires TableOrdered(m, now) && SortedUpTo(ts, now)
    ensures TableOrdered(m[endpoint := ts], now)
  {
  }

  /** A sorted list keeps its sortedness when a timestamp no earlier than any of
      its entries is appended. */
  lemma AppendSorted(ts: seq<int>, t: int)
    requires Sorted(ts)
    requires forall i :: 0 <= i < |ts| ==> ts[i] <= t
    ensures Sorted(ts + [t])
  {
  }

  /** A request recorded inside the window counts once more. */
  lemma RecentAppend(ts: seq<int>, t: int, windowStart: int)
    requires t > windowStart
    ensures |Recent(ts + [t], windowStart)| == |Recent(ts, windowStart)| + 1
  {
    FilterAppend(ts, [t], u => u > windowStart);
  }

  const IndexError: string := "IndexError: list index out of range"

  class RateLimiter {
    const maxRequests: int
    const windowMinutes: int
    var requestTimestamps: map<string, seq<int>>

    constructor (maxRequests: int, windowMinutes: int)
      ensures this.maxRequests == maxRequests && this.windowMinutes == windowMinutes
      ensures requestTimestamps == map[]
    {
      this.maxRequests := maxRequests;
      this.windowMinutes := windowMinutes;
      requestTimestamps := map[];
    }

    /** The limiter the services use: 50 requests per 15 minutes. */
    constructor Default()
      ensures maxRequests == 50 && windowMinutes == 15
      ensures requestTimestamps == map[]
    {
      maxRequests := 50;
      windowMinutes := 15;
      requestTimestamps := map[];
    }

    function WindowSeconds(): int
    {
      windowMinutes * 60
    }

    /** The table after `_wait_if_needed`: an unseen endpoint gets an empty list,
        a known one keeps only the timestamps after `now - window`. */
    function Pruned(m: map<string, seq<int>>, endpoint: string, now: int): (r: map<string, seq<int>>)
      ensures r.Keys == m.Keys + {endpoint}
      ensures forall e :: e in m && e != endpoint ==> r[e] == m[e]
      ensures endpoint !in m ==> r[endpoint] == []
      ensures endpoint in m ==> r[endpoint] == Recent(m[endpoint], now - WindowSeconds())
    {
      if endpoint !in m then m[endpoint := []]
      else m[endpoint := Recent(m[endpoint], now - WindowSeconds())]
    }

    /** The sleep `_wait_if_needed` issues: none for an unseen endpoint or below
        the limit; at the limit, until the oldest request leaves the window,
        skipped when that is not in the future. An empty list at the limit (a
        limit of 0 or less) fails when the oldest entry is read. */
    function WaitOf(m: map<string, seq<int>>, endpoint: string, now: int): (r: Result<int>)
      ensures r.Ok? ==> r.value >= 0
      ensures endpoint !in m ==> r == Ok(0)
      ensures endpoint in m && |Recent(m[endpoint], now - WindowSeconds())| < maxRequests ==> r == Ok(0)
      ensures r.Err? <==> endpoint in m && maxRequests <= 0 && Recent(m[endpoint], now - WindowSeconds()) == []
      ensures r.Ok? && r.value > 0 ==>
                r.value == Recent(m[endpoint], now - WindowSeconds())[0] + WindowSeconds() - now
    {
      if endpoint !in m then Ok(0)
      else
        var pruned := Recent(m[endpoint], now - WindowSeconds());
        if |pruned| < maxRequests then Ok(0)
        else if pruned == [] then Err(IndexError)
        else
          var w := pruned[0] + WindowSeconds() - now;
          Ok(if w > 0 then w else 0)
    }

    /** `_wait_if_needed`. */
    method WaitIfNeeded(endpoint: string, now: int) returns (r: Result<int>)
      modifies this
      ensures requestTimestamps == Pruned(old(requestTimestamps), endpoint, now)
      ensures r == WaitOf(old(requestTimestamps), endpoint, now)
    {
      if endpoint !in requestTimestamps {
        requestTimestamps := requestTimestamps[endpoint := []];
        return Ok(0);
      }
      var windowStart := now - WindowSeconds();
      var pruned := Recent(requestTimestamps[endpoint], windowStart);
      requestTimestamps := requestTimestamps[endpoint := pruned];
      if |pruned| >= maxRequests {
        if pruned == [] {
          return Err(IndexError);
        }
        var waitSeconds := pruned[0] + WindowSeconds() - now;
        if waitSeconds > 0 {
          return Ok(waitSeconds);
        }
      }
      r := Ok(0);
    }

    /** `_record_request`: one timestamp appended to the endpoint's list. */
    method RecordRequest(endpoint: string, now: int)
      modifies this
      ensures endpoint in requestTimestamps
      ensures requestTimestamps ==
                old(requestTimestamps)[endpoint := (if endpoint in old(requestTimestamps)
                                                   then old(requestTimestamps)[endpoint] else []) + [now]]
    {
      var ts := if endpoint in requestTimestamps then requestTimestamps[endpoint] else [];
      requestTimestamps := requestTimestamps[endpoint := ts + [now]];
    }

    /** The `limit_request` wrapper: wait, then the call, then record. A failing
        wait or call records nothing; a successful call records exactly once, at
        the clock reading taken after it. */
    method LimitRequest<T>(endpoint: string, nowBefore: int, call: Result<T>, nowAfter: int)
      returns (slept: int, r: Result<T>)
      modifies this
      ensures WaitOf(old(requestTimestamps), endpoint, nowBefore).Err? ==>
                r == Err(WaitOf(old(requestTimestamps), endpoint, nowBefore).error) && slept == 0
      ensures WaitOf(old(requestTimestamps), endpoint, nowBefore).Ok? ==>
                slept == WaitOf(old(requestTimestamps), endpoint, nowBefore).value && r == call
      ensures r.Err? ==> requestTimestamps == Pruned(old(requestTimestamps), endpoint, nowBefore)
      ensures r.Ok? ==>
                var p := Pruned(old(requestTimestamps), endpoint, nowBefore);
                requestTimestamps == p[endpoint := p[endpoint] + [nowAfter]]
    {
      var wait := WaitIfNeeded(endpoint, nowBefore);
      if wait.Err? {
        return 0, Err(wait.error);
      }
      slept := wait.value;
      if call.Err? {
        return slept, call;
      }
      RecordRequest(endpoint, nowAfter);
      r := call;
    }

    /** `get_remaining_requests`, reading the table only. */
    function RemainingRequests(endpoint: string, now: int): (r: int)
      reads this
      ensures endpoint !in requestTimestamps ==> r == maxRequests
      ensures endpoint in requestTimestamps ==>
                r == Max(0, maxRequests - |Recent(requestTimestamps[endpoint], now - WindowSeconds())|)
    {
      if endpoint !in requestTimestamps then maxRequests
      else Max(0, maxRequests - |Recent(requestTimestamps[endpoint], now - WindowSeconds())|)
    }

    /** `reset_limits`: a truthy endpoint is forgotten and the others are kept;
        no endpoint (or the empty name) clears the table. */
    method ResetLimits(endpoint: Option<string>)
      modifies this
      ensures Truthy(endpoint) ==> requestTimestamps == old(requestTimestamps) - {endpoint.value}
      ensures !Truthy(endpoint) ==> requestTimestamps == map[]
    {
      if Truthy(endpoint) {
        requestTimestamps := requestTimestamps - {endpoint.value};
      } else {
        requestTimestamps := map[];
      }
    }

    /** Every list is sorted and no entry lies after `now`. */
    ghost predicate Ordered(now: int)
      reads this
    {
      TableOrdered(requestTimestamps, now)
    }

    /** With clock readings that never go back, the wrapper keeps every list
        sorted, so that index 0 is always the oldest request. */
    method LimitRequestOrdered<T>(endpoint: string, nowBefore: int, call: Result<T>, nowAfter: int)
      returns (slept: int, r: Result<T>)
      requires Ordered(nowBefore) && nowBefore <= nowAfter
      modifies this
      ensures Ordered(nowAfter)
      ensures r == (if WaitOf(old(requestTimestamps), endpoint, nowBefore).Err?
                    then Err(WaitOf(old(requestTimestamps), endpoint, nowBefore).error) else call)
    {
      ghost var before := requestTimestamps;
      PrunedOrdered(before, endpoint, nowBefore);
      slept, r := LimitRequest(endpoint, nowBefore, call, nowAfter);
      var p := Pruned(before, endpoint, nowBefore);
      forall e | e in requestTimestamps ensures SortedUpTo(requestTimestamps[e], nowAfter) {
        assert SortedUpTo(p[e], nowBefore);
        if r.Ok? && e == endpoint {
          AppendSorted(p[endpoint], nowAfter);
        }
      }
    }

    lemma PrunedOrdered(m: map<string, seq<int>>, endpoint: string, now: int)
      requires TableOrdered(m, now)
      ensures TableOrdered(Pruned(m, endpoint, now), now)
    {
      if endpoint in m {
        RecentSortedUpTo(m[endpoint], now - WindowSeconds(), now);
        TableUpdate(m, endpoint, Recent(m[endpoint], now - WindowSeconds()), now);
      } else {
        TableUpdate(m, endpoint, [], now);
      }
    }

    /** At the limit the sleep is always positive: the oldest kept request is
        inside the window, so it leaves the window strictly later than `now`. */
    lemma FullMeansWait(m: map<string, seq<int>>, endpoint: string, now: int)
      requires endpoint in m
      requires |Recent(m[endpoint], now - WindowSeconds())| >= maxRequests
      requires Recent(m[endpoint], now - WindowSeconds()) != []
      ensures WaitOf(m, endpoint, now).Ok? && WaitOf(m, endpoint, now).value > 0
    {
      var pruned := Recent(m[endpoint], now - WindowSeconds());
      assert pruned[0] > now - WindowSeconds();
    }

    /** After sleeping the returned time, the oldest request has left the
        window: at the wake-up time strictly fewer requests count. */
    lemma WaitFreesASlot(m: map<string, seq<int>>, endpoint: string, now: int)
      requires endpoint in m
      requires WaitOf(m, endpoint, now).Ok? && WaitOf(m, endpoint, now).value > 0
      ensures var pruned := Recent(m[endpoint], now - WindowSeconds());
              var wake := now + WaitOf(m, endpoint, now).value;
              |Recent(pruned, wake - WindowSeconds())| < |pruned|
    {
      var pruned := Recent(m[endpoint], now - WindowSeconds());
      var wake := now + WaitOf(m, endpoint, now).value;
      FilterDrops(pruned, t => t > wake - WindowSeconds(), 0);
    }

    /** A recorded request uses up one of the remaining requests while any are left. */
    lemma RecordUsesUpOne(endpoint: string, now: int)
      requires endpoint in requestTimestamps
      requires WindowSeconds() > 0
      requires RemainingRequests(endpoint, now) > 0
      ensures var ts := requestTimestamps[endpoint] + [now];
              Max(0, maxRequests - |Recent(ts, now - WindowSeconds())|) == RemainingRequests(endpoint, now) - 1
    {
      RecentAppend(requestTimestamps[endpoint], now, now - WindowSeconds());
    }
  }
}
