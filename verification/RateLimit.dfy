/**
 The two sliding-window limiters: the filter-the-list form of `api/main.py`
 and the pop-the-deque form of `api/export_router.py`.
 */
module RateLimit {
  import opened SlidingWindow

  /** An admission is its own time. */
  function At(t: real): real { t }

  /** The two forms disagree at most about an admission exactly one window old. */
  lemma {:induction false} FormsAgree(s: seq<real>, now: real, window: real)
    requires forall i :: 0 <= i < |s| ==> now - s[i] != window
    ensures Recent(Open, At, s, now, window) == Recent(Closed, At, s, now, window)
  {
    if s != [] {
      FormsAgree(s[1..], now, window);
    }
  }

  // ---------------------------------------------------------------- what a limiter admits

  /** Each admission found fewer than `cap` earlier ones in its trailing window. */
  ghost predicate Paced(edge: Edge, hist: seq<real>, cap: int, window: real) {
    && Sorted(At, hist)
    && forall j :: 0 <= j < |hist| ==> |Recent(edge, At, hist[..j], hist[j], window)| < cap
  }

  /** Admissions in the interval of one window length starting at `lo`. */
  function CountFrom(edge: Edge, s: seq<real>, lo: real, window: real): nat {
    if s == [] then 0
    else
      CountFrom(edge, s[..|s| - 1], lo, window)
      + (if lo <= s[|s| - 1] && Keeps(edge, s[|s| - 1] - lo, window) then 1 else 0)
  }

  /** Whatever fell into the interval before `now` still counts at `now`. */
  lemma {:induction false} IntervalIsRecent(edge: Edge, s: seq<real>, lo: real, now: real, window: real)
    requires UpTo(At, s, now) && Keeps(edge, now - lo, window)
    ensures CountFrom(edge, s, lo, window) <= |Recent(edge, At, s, now, window)|
  {
    if s != [] {
      var (front, last) := (s[..|s| - 1], s[|s| - 1]);
      IntervalIsRecent(edge, front, lo, now, window);
      RecentAppend(edge, At, front, [last], now, window);
      assert front + [last] == s && [last][1..] == [];
    }
  }

  /** Main bound: no interval of one window length holds more than `cap` admissions. */
  lemma {:induction false} WindowHoldsAtMostCap(edge: Edge, hist: seq<real>, cap: int, window: real, lo: real)
    requires Paced(edge, hist, cap, window) && cap >= 0
    ensures CountFrom(edge, hist, lo, window) <= cap
  {
    if hist != [] {
      var (front, last) := (hist[..|hist| - 1], hist[|hist| - 1]);
      assert Paced(edge, front, cap, window) by {
        forall j | 0 <= j < |front| ensures |Recent(edge, At, front[..j], front[j], window)| < cap {
          assert front[..j] == hist[..j];
        }
      }
      WindowHoldsAtMostCap(edge, front, cap, window, lo);
      if lo <= last && Keeps(edge, last - lo, window) {
        IntervalIsRecent(edge, front, lo, last, window);
        assert hist[..|hist| - 1] == front;
      }
    }
  }

  lemma PacedExtends(edge: Edge, hist: seq<real>, cap: int, window: real, now: real)
    requires Paced(edge, hist, cap, window) && UpTo(At, hist, now) && |Recent(edge, At, hist, now, window)| < cap
    ensures Paced(edge, hist + [now], cap, window)
  {
    var all := hist + [now];
    forall j | 0 <= j < |all| ensures |Recent(edge, At, all[..j], all[j], window)| < cap {
      assert all[..j] == if j < |hist| then hist[..j] else hist;
    }
  }

  // ---------------------------------------------------------------- whole request sequences of one client

  /**
   The specification of both limiters: a request is admitted exactly when the
   window trailing it holds fewer than `cap` of the admissions before it.
   */
  ghost function Admissions(edge: Edge, reqs: seq<real>, cap: int, window: real): seq<real> {
    if reqs == [] then []
    else
      var now := reqs[|reqs| - 1];
      var hist := Admissions(edge, reqs[..|reqs| - 1], cap, window);
      if |Recent(edge, At, hist, now, window)| < cap then hist + [now] else hist
  }

  lemma {:induction false} AdmissionsArePaced(edge: Edge, reqs: seq<real>, cap: int, window: real, now: real)
    requires Sorted(At, reqs) && UpTo(At, reqs, now)
    ensures Paced(edge, Admissions(edge, reqs, cap, window), cap, window)
    ensures UpTo(At, Admissions(edge, reqs, cap, window), now)
    ensures forall t :: t in Admissions(edge, reqs, cap, window) ==> t in reqs
  {
    if reqs != [] {
      var (front, last) := (reqs[..|reqs| - 1], reqs[|reqs| - 1]);
      AdmissionsArePaced(edge, front, cap, window, last);
      var hist := Admissions(edge, front, cap, window);
      if |Recent(edge, At, hist, last, window)| < cap {
        PacedExtends(edge, hist, cap, window, last);
      }
    }
  }

  /** For every request sequence, one window length holds at most `cap` admissions. */
  lemma AnyWindowHoldsAtMostCap(edge: Edge, reqs: seq<real>, cap: int, window: real, lo: real)
    requires Sorted(At, reqs) && cap >= 0
    ensures CountFrom(edge, Admissions(edge, reqs, cap, window), lo, window) <= cap
  {
    if reqs == [] {
      WindowHoldsAtMostCap(edge, [], cap, window, lo);
    } else {
      AdmissionsArePaced(edge, reqs, cap, window, reqs[|reqs| - 1]);
      WindowHoldsAtMostCap(edge, Admissions(edge, reqs, cap, window), cap, window, lo);
    }
  }

  /** Up to the edge convention the two limiters take every decision alike. */
  lemma {:induction false} LimitersAgree(reqs: seq<real>, cap: int, window: real)
    requires Sorted(At, reqs)
    requires forall i, j :: 0 <= i < j < |reqs| ==> reqs[j] - reqs[i] != window
    ensures Admissions(Open, reqs, cap, window) == Admissions(Closed, reqs, cap, window)
  {
    if reqs != [] {
      var (front, last) := (reqs[..|reqs| - 1], reqs[|reqs| - 1]);
      LimitersAgree(front, cap, window);
      var hist := Admissions(Open, front, cap, window);
      AdmissionsArePaced(Open, front, cap, window, last);
      forall i | 0 <= i < |hist| ensures last - hist[i] != window {
        assert hist[i] in front;
        var k :| 0 <= k < |front| && front[k] == hist[i];
        assert reqs[k] == hist[i];
      }
      FormsAgree(hist, last, window);
    }
  }

  /** The edge convention does show: at exactly one window's distance only the list admits again. */
  lemma LimitersDifferAtTheEdge(t: real, window: real)
    ensures Admissions(Open, [t, t + window], 1, window) == [t, t + window]
    ensures Admissions(Closed, [t, t + window], 1, window) == [t]
  {
    var reqs := [t, t + window];
    assert reqs[..|reqs| - 1] == [t] && [t][..0] == [] && [t][1..] == [];
    forall edge: Edge ensures Admissions(edge, [t], 1, window) == [t] {
      assert Recent(edge, At, Admissions(edge, [], 1, window), t, window) == [];
    }
    assert Recent(Open, At, [t], t + window, window) == [];
    assert Recent(Closed, At, [t], t + window, window) == [t];
  }

  // ---------------------------------------------------------------- the stored buckets

  function Of(m: map<string, seq<real>>, client: string): seq<real> { if client in m then m[client] else [] }

  /**
   At any later time the stored bucket and the full history of admissions have
   the same recent part.
   */
  ghost predicate ClientOk(edge: Edge, bucket: seq<real>, reqs: seq<real>, cap: int, window: real, now: real) {
    && Sorted(At, reqs) && UpTo(At, reqs, now)
    && Sorted(At, bucket) && UpTo(At, bucket, now)
    && forall later :: now <= later ==>
         Recent(edge, At, bucket, later, window) == Recent(edge, At, Admissions(edge, reqs, cap, window), later, window)
  }

  ghost predicate AllOk(edge: Edge, buckets: map<string, seq<real>>, requests: map<string, seq<real>>, cap: int, window: real, now: real) {
    forall client :: ClientOk(edge, Of(buckets, client), Of(requests, client), cap, window, now)
  }

  /** What a request leaves in the client's bucket. */
  function Served(edge: Edge, bucket: seq<real>, cap: int, window: real, now: real): seq<real> {
    var kept := Recent(edge, At, bucket, now, window);
    if |kept| < cap then kept + [now] else kept
  }

  /** The bucket may be cut down, and cut down and extended together with the history. */
  lemma BucketStandsFor(edge: Edge, bucket: seq<real>, hist: seq<real>, window: real, now: real, later: real)
    requires Recent(edge, At, bucket, later, window) == Recent(edge, At, hist, later, window) && now <= later
    ensures var kept := Recent(edge, At, bucket, now, window);
      && Recent(edge, At, kept, later, window) == Recent(edge, At, hist, later, window)
      && Recent(edge, At, kept + [now], later, window) == Recent(edge, At, hist + [now], later, window)
  {
    var kept := Recent(edge, At, bucket, now, window);
    RecentTwice(edge, At, bucket, now, later, window);
    RecentAppend(edge, At, kept, [now], later, window);
    RecentAppend(edge, At, hist, [now], later, window);
  }

  lemma AdmissionsStep(edge: Edge, reqs: seq<real>, cap: int, window: real, now: real)
    ensures var hist := Admissions(edge, reqs, cap, window);
      Admissions(edge, reqs + [now], cap, window) == if |Recent(edge, At, hist, now, window)| < cap then hist + [now] else hist
  {
  }

  /** Evict, and admit if there is room: the bucket still stands for the whole history. */
  lemma RequestKeepsClient(edge: Edge, bucket: seq<real>, reqs: seq<real>, cap: int, window: real, before: real, now: real)
    requires ClientOk(edge, bucket, reqs, cap, window, before) && before <= now
    ensures Sorted(At, bucket)
    ensures Recent(edge, At, bucket, now, window) == Recent(edge, At, Admissions(edge, reqs, cap, window), now, window)
    ensures ClientOk(edge, Served(edge, bucket, cap, window, now), reqs + [now], cap, window, now)
  {
    var hist := Admissions(edge, reqs, cap, window);
    var hist' := Admissions(edge, reqs + [now], cap, window);
    var served := Served(edge, bucket, cap, window, now);
    RecentKeepsOrder(edge, At, bucket, now, window, now);
    AdmissionsStep(edge, reqs, cap, window, now);
    hide Recent, Admissions;
    forall later | now <= later ensures Recent(edge, At, served, later, window) == Recent(edge, At, hist', later, window) {
      BucketStandsFor(edge, bucket, hist, window, now, later);
    }
  }

  lemma ClientLater(edge: Edge, bucket: seq<real>, reqs: seq<real>, cap: int, window: real, before: real, now: real)
    requires ClientOk(edge, bucket, reqs, cap, window, before) && before <= now
    ensures ClientOk(edge, bucket, reqs, cap, window, now)
  {
  }

  lemma RequestKeepsAll(edge: Edge, buckets: map<string, seq<real>>, requests: map<string, seq<real>>, client: string,
                        cap: int, window: real, before: real, now: real)
    requires AllOk(edge, buckets, requests, cap, window, before) && before <= now
    ensures Sorted(At, Of(buckets, client))
    ensures Recent(edge, At, Of(buckets, client), now, window)
         == Recent(edge, At, Admissions(edge, Of(requests, client), cap, window), now, window)
    ensures AllOk(edge, buckets[client := Served(edge, Of(buckets, client), cap, window, now)],
                  requests[client := Of(requests, client) + [now]], cap, window, now)
  {
    hide ClientOk, Recent, Admissions, Served;
    var served := Served(edge, Of(buckets, client), cap, window, now);
    RequestKeepsClient(edge, Of(buckets, client), Of(requests, client), cap, window, before, now);
    var (buckets', requests') := (buckets[client := served], requests[client := Of(requests, client) + [now]]);
    forall c ensures ClientOk(edge, Of(buckets', c), Of(requests', c), cap, window, now) {
      if c != client {
        assert Of(buckets', c) == Of(buckets, c) && Of(requests', c) == Of(requests, c);
        ClientLater(edge, Of(buckets, c), Of(requests, c), cap, window, before, now);
      }
    }
  }

  // ---------------------------------------------------------------- api/main.py

  class ListLimiter {
    var buckets: map<string, seq<real>>
    const maxRequests: int
    const window: real
    ghost var requests: map<string, seq<real>>  // every request ever made, per client
    ghost var clock: real

    ghost predicate Valid()
      reads this
    {
      AllOk(Open, buckets, requests, maxRequests, window, clock)
    }

    constructor (maxRequests: int, window: real, ghost start: real)
      ensures Valid() && requests == map[] && clock == start
      ensures this.maxRequests == maxRequests && this.window == window
    {
      this.maxRequests := maxRequests;
      this.window := window;
      buckets, requests, clock := map[], map[], start;
    }

    /** `_check_sliding_window_rate_limit`; not ok is HTTP 429. */
    method Check(client: string, now: real) returns (ok: bool)
      requires Valid() && clock <= now
      modifies this
      ensures Valid() && clock == now
      ensures requests == old(requests)[client := Of(old(requests), client) + [now]]
      ensures ok <==> |Recent(Open, At, Admissions(Open, Of(old(requests), client), maxRequests, window), now, window)| < maxRequests
    {
      hide AllOk, Admissions, Recent;
      RequestKeepsAll(Open, buckets, requests, client, maxRequests, window, clock, now);
      var kept := Recent(Open, At, Of(buckets, client), now, window);
      var evicted := buckets[client := kept];
      ok := |kept| < maxRequests;
      ghost var final := buckets[client := Served(Open, Of(buckets, client), maxRequests, window, now)];
      buckets := evicted;
      if ok {
        buckets := buckets[client := kept + [now]];
      }
      assert buckets == final;
      requests := requests[client := Of(requests, client) + [now]];
      clock := now;
    }
  }

  // ---------------------------------------------------------------- api/export_router.py

  class DequeLimiter {
    var store: map<string, seq<real>>
    const limit: int
    const window: real
    ghost var requests: map<string, seq<real>>
    ghost var clock: real

    ghost predicate Valid()
      reads this
    {
      AllOk(Closed, store, requests, limit, window, clock)
    }

    constructor (limit: int, window: real, ghost start: real)
      ensures Valid() && requests == map[] && clock == start
      ensures this.limit == limit && this.window == window
    {
      this.limit := limit;
      this.window := window;
      store, requests, clock := map[], map[], start;
    }

    /** `_check_rate_limit`; not ok is HTTP 429. */
    method Check(key: string, now: real) returns (ok: bool)
      requires Valid() && clock <= now
      modifies this
      ensures Valid() && clock == now
      ensures requests == old(requests)[key := Of(old(requests), key) + [now]]
      ensures ok <==> |Recent(Closed, At, Admissions(Closed, Of(old(requests), key), limit, window), now, window)| < limit
    {
      hide AllOk, Admissions, Recent;
      RequestKeepsAll(Closed, store, requests, key, limit, window, clock, now);
      var dq := PopOld(At, Of(store, key), now, window);
      ok := |dq| < limit;
      ghost var final := store[key := Served(Closed, Of(store, key), limit, window, now)];
      store := store[key := dq];
      if ok {
        store := store[key := dq + [now]];
      }
      assert store == final;
      requests := requests[key := Of(requests, key) + [now]];
      clock := now;
    }
  }
}
