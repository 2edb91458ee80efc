/**
 What the sliding windows of the limiters and of the key-cycling detector count,
 in terms of requests and times alone.
 */
module WindowCounts {
  import opened SlidingWindow
  import opened RateLimit
  import opened KeyCycling

  // ---------------------------------------------------------------- counting

  /** Positions whose item still counts at `now`. */
  ghost function Counting<T>(edge: Edge, time: T -> real, s: seq<T>, now: real, window: real): set<nat> {
    set i: nat | i < |s| && (if edge == Open then now < time(s[i]) + window else now <= time(s[i]) + window)
  }

  lemma CountingExtends<T>(edge: Edge, time: T -> real, s: seq<T>, now: real, window: real)
    requires s != []
    ensures var (last, before) := (|s| - 1, Counting(edge, time, s[..|s| - 1], now, window));
      |Counting(edge, time, s, now, window)| == |before| + (if Keeps(edge, now - time(s[last]), window) then 1 else 0)
  {
    var last := |s| - 1;
    var (all, before) := (Counting(edge, time, s, now, window), Counting(edge, time, s[..last], now, window));
    assert all == if last in all then before + {last} else before;
  }

  /** The filter keeps as many items as count. */
  lemma {:induction false} RecentIsCounting<T>(edge: Edge, time: T -> real, s: seq<T>, now: real, window: real)
    ensures |Recent(edge, time, s, now, window)| == |Counting(edge, time, s, now, window)|
  {
    if s != [] {
      var (front, last) := (s[..|s| - 1], s[|s| - 1]);
      CountingExtends(edge, time, s, now, window);
      RecentIsCounting(edge, time, front, now, window);
      assert [last][1..] == [] && Recent(edge, time, [], now, window) == [];
      assert Recent(edge, time, [last], now, window) == if Keeps(edge, now - time(last), window) then [last] else [];
      hide Counting, Keeps, Recent;
      RecentAppend(edge, time, front, [last], now, window);
      assert s == front + [last];
    }
  }

  /** Positions of the times from `lo` on that are less (or no more) than a window later. */
  ghost function Within(edge: Edge, s: seq<real>, lo: real, window: real): set<nat> {
    set i: nat | i < |s| && lo <= s[i] && (if edge == Open then s[i] < lo + window else s[i] <= lo + window)
  }

  lemma {:induction false} CountFromIsWithin(edge: Edge, s: seq<real>, lo: real, window: real)
    ensures CountFrom(edge, s, lo, window) == |Within(edge, s, lo, window)|
  {
    if s != [] {
      var last := |s| - 1;
      CountFromIsWithin(edge, s[..last], lo, window);
      var (all, before) := (Within(edge, s, lo, window), Within(edge, s[..last], lo, window));
      assert all == if last in all then before + {last} else before;
    }
  }

  // ---------------------------------------------------------------- the limiters

  /** A request is admitted exactly when fewer than `cap` admissions lie in the window that ends with it. */
  lemma AdmittedIff(edge: Edge, reqs: seq<real>, cap: int, window: real, now: real)
    ensures var hist := Admissions(edge, reqs, cap, window);
      Admissions(edge, reqs + [now], cap, window)
      == if |Counting(edge, At, hist, now, window)| < cap then hist + [now] else hist
  {
    AdmissionsStep(edge, reqs, cap, window, now);
    RecentIsCounting(edge, At, Admissions(edge, reqs, cap, window), now, window);
  }

  /** For every request sequence, no interval of one window length holds more than `cap` admissions, wherever it starts. */
  lemma NoIntervalHoldsMore(edge: Edge, reqs: seq<real>, cap: int, window: real, lo: real)
    requires Sorted(At, reqs) && cap >= 0
    ensures |Within(edge, Admissions(edge, reqs, cap, window), lo, window)| <= cap
  {
    AnyWindowHoldsAtMostCap(edge, reqs, cap, window, lo);
    CountFromIsWithin(edge, Admissions(edge, reqs, cap, window), lo, window);
  }

  /** `n` requests at one time. */
  function Burst(t: real, n: nat): (r: seq<real>)
    ensures |r| == n && forall i :: 0 <= i < n ==> r[i] == t
  {
    if n == 0 then [] else Burst(t, n - 1) + [t]
  }

  /** The cap is reached: of a burst exactly `cap` requests are admitted. */
  lemma {:induction false} CapIsReached(edge: Edge, t: real, cap: nat, window: real, n: nat)
    requires window > 0.0
    ensures Admissions(edge, Burst(t, n), cap, window) == Burst(t, if n <= cap then n else cap)
  {
    hide Admissions, Recent, Burst;
    if n == 0 {
      BurstStarts(edge, t, cap, window);
    } else {
      CapIsReached(edge, t, cap, window, n - 1);
      var k := if n - 1 <= cap then n - 1 else cap;
      BurstGrows(t, n - 1);
      BurstGrows(t, k);
      AdmissionsStep(edge, Burst(t, n - 1), cap, window, t);
      AllRecent(edge, Burst(t, k), t, window);
    }
  }

  lemma BurstStarts(edge: Edge, t: real, cap: nat, window: real)
    ensures Admissions(edge, Burst(t, 0), cap, window) == [] == Burst(t, 0)
  {
  }

  lemma BurstGrows(t: real, n: nat)
    ensures Burst(t, n + 1) == Burst(t, n) + [t]
  {
  }

  lemma {:induction false} AllRecent(edge: Edge, s: seq<real>, t: real, window: real)
    requires window > 0.0 && forall i :: 0 <= i < |s| ==> s[i] == t
    ensures Recent(edge, At, s, t, window) == s
  {
    if s != [] {
      AllRecent(edge, s[1..], t, window);
    }
  }

  // ---------------------------------------------------------------- the detector

  /** `at` lists presentations of the last window with pairwise different fingerprints. */
  ghost predicate Differ(h: seq<Stamped>, fp: string -> string, now: real, window: real, at: seq<nat>) {
    && (forall k :: 0 <= k < |at| ==> at[k] < |h| && now <= h[at[k]].time + window)
    && (forall j, k :: 0 <= j < k < |at| ==> fp(h[at[j]].item) != fp(h[at[k]].item))
  }

  lemma {:induction false} RecentMembers(h: seq<Stamped>, now: real, window: real)
    ensures forall x :: x in Recent(Closed, TimeOf, h, now, window) <==> x in h && now <= x.time + window
  {
    if h != [] {
      RecentMembers(h[1..], now, window);
      assert h == [h[0]] + h[1..];
    }
  }

  /** The fingerprints the detector counts are those presented in the last window. */
  lemma CountedPrints(h: seq<Stamped>, fp: string -> string, now: real, window: real, p: string)
    ensures p in Items(Prints(Recent(Closed, TimeOf, h, now, window), fp))
      <==> exists i :: 0 <= i < |h| && now <= h[i].time + window && fp(h[i].item) == p
  {
    var kept := Recent(Closed, TimeOf, h, now, window);
    RecentMembers(h, now, window);
    var ps := Prints(kept, fp);
    if p in Items(ps) {
      var k :| 0 <= k < |ps| && ps[k].item == p;
      assert kept[k] in h;
      var i :| 0 <= i < |h| && h[i] == kept[k];
    }
    if i :| 0 <= i < |h| && now <= h[i].time + window && fp(h[i].item) == p {
      assert h[i] in kept;
      var k :| 0 <= k < |kept| && kept[k] == h[i];
      assert ps[k].item == p;
    }
  }

  lemma {:induction false} Chosen(h: seq<Stamped>, fp: string -> string, now: real, window: real, prints: set<string>)
    returns (at: seq<nat>)
    requires forall p :: p in prints ==> exists i :: 0 <= i < |h| && now <= h[i].time + window && fp(h[i].item) == p
    ensures |at| == |prints| && Differ(h, fp, now, window, at)
    ensures forall k :: 0 <= k < |at| ==> fp(h[at[k]].item) in prints
    decreases |prints|
  {
    if prints == {} {
      at := [];
    } else {
      var p :| p in prints;
      var rest := Chosen(h, fp, now, window, prints - {p});
      var i :| 0 <= i < |h| && now <= h[i].time + window && fp(h[i].item) == p;
      at := rest + [i];
    }
  }

  lemma {:induction false} DistinctFit(names: seq<string>, all: set<string>)
    requires (forall k :: 0 <= k < |names| ==> names[k] in all)
    requires forall j, k :: 0 <= j < k < |names| ==> names[j] != names[k]
    ensures |names| <= |all|
  {
    if names != [] {
      var last := |names| - 1;
      DistinctFit(names[..last], all - {names[last]});
    }
  }

  /**
   The verdict, from the presentations alone: abusive if and only if `threshold`
   presentations of the last window have pairwise different fingerprints.
   */
  lemma AbusiveIff(h: seq<Stamped>, fp: string -> string, now: real, window: real, threshold: nat)
    ensures |Items(Prints(Recent(Closed, TimeOf, h, now, window), fp))| >= threshold
      <==> exists at: seq<nat> :: |at| == threshold && Differ(h, fp, now, window, at)
  {
    var all := Items(Prints(Recent(Closed, TimeOf, h, now, window), fp));
    forall p ensures p in all <==> exists i :: 0 <= i < |h| && now <= h[i].time + window && fp(h[i].item) == p {
      CountedPrints(h, fp, now, window, p);
    }
    hide Items, Recent;
    if |all| >= threshold {
      var at := Chosen(h, fp, now, window, all);
      assert Differ(h, fp, now, window, at[..threshold]);
    }
    if at: seq<nat> :| |at| == threshold && Differ(h, fp, now, window, at) {
      var names := seq(|at|, k requires 0 <= k < |at| => fp(h[at[k]].item));
      forall k | 0 <= k < |names| ensures names[k] in all {
        assert now <= h[at[k]].time + window;
      }
      DistinctFit(names, all);
    }
  }
}
