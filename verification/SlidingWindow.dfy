/** Time-stamped sequences cut down to the latest window, for any kind of item. */
module SlidingWindow {
  /**
   Whether an item exactly one window old still counts.  The list limiter drops
   it (`now - t < window` keeps); the deque limiter and the key-cycling detector
   keep it (`t < now - window` drops).
   */
  datatype Edge = Open | Closed

  predicate Keeps(edge: Edge, age: real, window: real) {
    match edge
    case Open => age < window
    case Closed => age <= window
  }

  /** The items that still count at `now`. */
  function Recent<T>(edge: Edge, time: T -> real, s: seq<T>, now: real, window: real): seq<T> {
    if s == [] then []
    else if Keeps(edge, now - time(s[0]), window) then [s[0]] + Recent(edge, time, s[1..], now, window)
    else Recent(edge, time, s[1..], now, window)
  }

  predicate Sorted<T>(time: T -> real, s: seq<T>) { forall i, j :: 0 <= i < j < |s| ==> time(s[i]) <= time(s[j]) }

  predicate UpTo<T>(time: T -> real, s: seq<T>, now: real) { forall i :: 0 <= i < |s| ==> time(s[i]) <= now }

  lemma {:induction false} RecentAppend<T>(edge: Edge, time: T -> real, a: seq<T>, b: seq<T>, now: real, window: real)
    ensures Recent(edge, time, a + b, now, window) == Recent(edge, time, a, now, window) + Recent(edge, time, b, now, window)
  {
    if a == [] {
      assert a + b == b;
    } else {
      assert (a + b)[1..] == a[1..] + b;
      RecentAppend(edge, time, a[1..], b, now, window);
      var (x, y) := (Recent(edge, time, a[1..], now, window), Recent(edge, time, b, now, window));
      assert [a[0]] + (x + y) == ([a[0]] + x) + y;
    }
  }

  /** Evicting early makes no difference later. */
  lemma {:induction false} RecentTwice<T>(edge: Edge, time: T -> real, s: seq<T>, now: real, later: real, window: real)
    requires now <= later
    ensures Recent(edge, time, Recent(edge, time, s, now, window), later, window) == Recent(edge, time, s, later, window)
  {
    if s != [] {
      RecentTwice(edge, time, s[1..], now, later, window);
      var rest := Recent(edge, time, s[1..], now, window);
      assert ([s[0]] + rest)[1..] == rest;
    }
  }

  lemma {:induction false} RecentKeepsOrder<T>(edge: Edge, time: T -> real, s: seq<T>, now: real, window: real, bound: real)
    requires Sorted(time, s) && UpTo(time, s, bound)
    ensures Sorted(time, Recent(edge, time, s, now, window)) && UpTo(time, Recent(edge, time, s, now, window), bound)
    ensures forall t :: t in Recent(edge, time, s, now, window) ==> t in s
  {
    if s != [] {
      RecentKeepsOrder(edge, time, s[1..], now, window, bound);
      var rest := Recent(edge, time, s[1..], now, window);
      forall i | 0 <= i < |rest| ensures time(s[0]) <= time(rest[i]) {
        assert rest[i] in s[1..];
      }
    }
  }

  /** A sorted deque whose front is in the window needs no popping. */
  lemma {:induction false} PoppedIsRecent<T>(time: T -> real, dq: seq<T>, now: real, window: real)
    requires Sorted(time, dq) && (dq != [] ==> now - time(dq[0]) <= window)
    ensures Recent(Closed, time, dq, now, window) == dq
  {
    if dq != [] {
      if |dq| > 1 {
        assert dq[1..][0] == dq[1];
      }
      PoppedIsRecent(time, dq[1..], now, window);
    }
  }

  /** The `popleft` loop: on a sorted deque it computes the filter. */
  method PopOld<T>(time: T -> real, dq0: seq<T>, now: real, window: real) returns (dq: seq<T>)
    requires Sorted(time, dq0)
    ensures dq == Recent(Closed, time, dq0, now, window)
  {
    dq := dq0;
    while dq != [] && time(dq[0]) < now - window
      invariant Sorted(time, dq) && Recent(Closed, time, dq, now, window) == Recent(Closed, time, dq0, now, window)
      decreases |dq|
    {
      dq := dq[1..];
    }
    PoppedIsRecent(time, dq, now, window);
  }
}
