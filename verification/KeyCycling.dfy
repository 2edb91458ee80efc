/** `KeyCyclingDetector` of `api/policy.py`: many distinct API keys from one range. */
module KeyCycling {
  import opened IpRange
  import opened SlidingWindow

  datatype Stamped = Stamped(time: real, item: string)

  /** The default of `_alerted.get`: a time before any clock reading. */
  const NEVER: real := -1000000000000000000.0

  function Of(m: map<string, seq<Stamped>>, range: string): seq<Stamped> { if range in m then m[range] else [] }

  function AlertsOf(m: map<string, seq<real>>, range: string): seq<real> { if range in m then m[range] else [] }

  function LastAlert(m: map<string, real>, range: string): real { if range in m then m[range] else NEVER }

  function TimeOf(x: Stamped): real { x.time }

  function Items(s: seq<Stamped>): set<string> { set i | 0 <= i < |s| :: s[i].item }

  /** The deque stores fingerprints (blake2b, eight bytes) instead of keys. */
  function Prints(h: seq<Stamped>, fp: string -> string): (r: seq<Stamped>)
    ensures |r| == |h| && forall i :: 0 <= i < |h| ==> r[i] == Stamped(h[i].time, fp(h[i].item))
  {
    if h == [] then [] else [Stamped(h[0].time, fp(h[0].item))] + Prints(h[1..], fp)
  }

  // ---------------------------------------------------------------- the window

  lemma {:induction false} RecentPrints(h: seq<Stamped>, fp: string -> string, now: real, window: real)
    ensures Recent(Closed, TimeOf, Prints(h, fp), now, window) == Prints(Recent(Closed, TimeOf, h, now, window), fp)
  {
    if h != [] {
      RecentPrints(h[1..], fp, now, window);
      assert Prints(h, fp)[1..] == Prints(h[1..], fp);
      var rest := Recent(Closed, TimeOf, h[1..], now, window);
      assert now - h[0].time <= window ==> ([h[0]] + rest)[1..] == rest;
    }
  }

  // ---------------------------------------------------------------- fingerprints

  function Image(s: set<string>, fp: string -> string): set<string> { set k | k in s :: fp(k) }

  lemma {:induction false} ImageIsNoLarger(s: set<string>, fp: string -> string)
    ensures |Image(s, fp)| <= |s|
    decreases |s|
  {
    if s != {} {
      var k :| k in s;
      var rest := s - {k};
      ImageIsNoLarger(rest, fp);
      assert Image(s, fp) == Image(rest, fp) + {fp(k)};
    }
  }

  lemma {:induction false} InjectiveImage(s: set<string>, fp: string -> string)
    requires forall x, y :: x in s && y in s && fp(x) == fp(y) ==> x == y
    ensures |Image(s, fp)| == |s|
    decreases |s|
  {
    if s != {} {
      var k :| k in s;
      var rest := s - {k};
      InjectiveImage(rest, fp);
      assert fp(k) !in Image(rest, fp);
      assert Image(s, fp) == Image(rest, fp) + {fp(k)};
    }
  }

  lemma PrintsImage(h: seq<Stamped>, fp: string -> string)
    ensures Items(Prints(h, fp)) == Image(Items(h), fp)
  {
  }

  /**
   Fingerprint collisions can hide a key and never invent one: an abusive
   verdict always rests on that many distinct keys, and is missed only when two
   keys in the window collide.
   */
  lemma DistinctKeys(h: seq<Stamped>, fp: string -> string, threshold: int)
    ensures |Items(Prints(h, fp))| >= threshold ==> |Items(h)| >= threshold
    ensures (forall x, y :: x in Items(h) && y in Items(h) && fp(x) == fp(y) ==> x == y) ==>
              (|Items(Prints(h, fp))| >= threshold <==> |Items(h)| >= threshold)
  {
    PrintsImage(h, fp);
    ImageIsNoLarger(Items(h), fp);
    if forall x, y :: x in Items(h) && y in Items(h) && fp(x) == fp(y) ==> x == y {
      InjectiveImage(Items(h), fp);
    }
  }

  // ---------------------------------------------------------------- invariant

  /** The deque is the whole history, cut down at the latest observation of its range. */
  ghost predicate RangeOk(dq: seq<Stamped>, hist: seq<Stamped>, fp: string -> string, window: real, now: real) {
    && Sorted(TimeOf, hist) && UpTo(TimeOf, hist, now)
    && dq == if hist == [] then [] else Prints(Recent(Closed, TimeOf, hist, hist[|hist| - 1].time, window), fp)
  }

  /** Alerts of one range are more than a window apart, and the latest is remembered. */
  ghost predicate AlertsOk(last: real, alerts: seq<real>, window: real, now: real) {
    && (forall i, j :: 0 <= i < j < |alerts| ==> alerts[i] <= alerts[j] && alerts[j] - alerts[i] > window)
    && (forall i :: 0 <= i < |alerts| ==> alerts[i] <= now)
    && last == if alerts == [] then NEVER else alerts[|alerts| - 1]
  }

  ghost predicate AllRangesOk(seen: map<string, seq<Stamped>>, history: map<string, seq<Stamped>>,
                              fp: string -> string, window: real, now: real) {
    forall range :: RangeOk(Of(seen, range), Of(history, range), fp, window, now)
  }

  ghost predicate AllAlertsOk(alerted: map<string, real>, alerts: map<string, seq<real>>, window: real, now: real) {
    forall range :: AlertsOk(LastAlert(alerted, range), AlertsOf(alerts, range), window, now)
  }

  lemma PrintsAppend(a: seq<Stamped>, x: Stamped, fp: string -> string)
    ensures Prints(a + [x], fp) == Prints(a, fp) + [Stamped(x.time, fp(x.item))]
  {
  }

  /** What the deque was cut down to earlier is all that can count now. */
  lemma DequeIsEnough(dq: seq<Stamped>, hist: seq<Stamped>, fp: string -> string, window: real, before: real, now: real)
    returns (kept: seq<Stamped>)
    requires RangeOk(dq, hist, fp, window, before) && before <= now
    ensures dq == Prints(kept, fp) && Sorted(TimeOf, kept) && UpTo(TimeOf, kept, now)
    ensures Recent(Closed, TimeOf, kept, now, window) == Recent(Closed, TimeOf, hist, now, window)
  {
    kept := [];
    if hist != [] {
      var last := hist[|hist| - 1].time;
      kept := Recent(Closed, TimeOf, hist, last, window);
      RecentKeepsOrder(Closed, TimeOf, hist, last, window, now);
      RecentTwice(Closed, TimeOf, hist, last, now, window);
      forall i | 0 <= i < |kept| ensures kept[i].time <= now {
        assert kept[i] in hist;
      }
    }
  }

  /** One observation: append, then cut down. */
  lemma ObservationKeepsRange(dq: seq<Stamped>, hist: seq<Stamped>, key: string, fp: string -> string,
                              window: real, before: real, now: real)
    requires RangeOk(dq, hist, fp, window, before) && before <= now
    ensures Sorted(TimeOf, dq + [Stamped(now, fp(key))])
    ensures Recent(Closed, TimeOf, dq + [Stamped(now, fp(key))], now, window)
         == Prints(Recent(Closed, TimeOf, hist + [Stamped(now, key)], now, window), fp)
  {
    var x := Stamped(now, key);
    var kept := DequeIsEnough(dq, hist, fp, window, before, now);
    PrintsAppend(kept, x, fp);
    RecentPrints(kept + [x], fp, now, window);
    RecentAppend(Closed, TimeOf, kept, [x], now, window);
    RecentAppend(Closed, TimeOf, hist, [x], now, window);
  }

  lemma HistoryGrows(hist: seq<Stamped>, key: string, fp: string -> string, window: real, now: real)
    requires Sorted(TimeOf, hist) && UpTo(TimeOf, hist, now)
    ensures RangeOk(Prints(Recent(Closed, TimeOf, hist + [Stamped(now, key)], now, window), fp), hist + [Stamped(now, key)], fp, window, now)
  {
  }

  lemma RangeLater(dq: seq<Stamped>, hist: seq<Stamped>, fp: string -> string, window: real, before: real, now: real)
    requires RangeOk(dq, hist, fp, window, before) && before <= now
    ensures RangeOk(dq, hist, fp, window, now)
  {
  }

  lemma ObservationKeepsRanges(seen: map<string, seq<Stamped>>, history: map<string, seq<Stamped>>, range: string,
                               hist: seq<Stamped>, dq: seq<Stamped>, fp: string -> string,
                               window: real, before: real, now: real)
    requires AllRangesOk(seen, history, fp, window, before) && before <= now
    requires RangeOk(dq, hist, fp, window, now)
    ensures AllRangesOk(seen[range := dq], history[range := hist], fp, window, now)
  {
    hide RangeOk;
    var (seen', history') := (seen[range := dq], history[range := hist]);
    forall r ensures RangeOk(Of(seen', r), Of(history', r), fp, window, now) {
      if r != range {
        assert Of(seen', r) == Of(seen, r) && Of(history', r) == Of(history, r);
        RangeLater(Of(seen, r), Of(history, r), fp, window, before, now);
      }
    }
  }

  lemma Observed(seen: map<string, seq<Stamped>>, history: map<string, seq<Stamped>>, range: string, key: string,
                 fp: string -> string, window: real, before: real, now: real)
    requires AllRangesOk(seen, history, fp, window, before) && before <= now
    ensures var (all, hist) := (Of(seen, range) + [Stamped(now, fp(key))], Of(history, range) + [Stamped(now, key)]);
      && Sorted(TimeOf, all) && Recent(Closed, TimeOf, all, now, window) == Prints(Recent(Closed, TimeOf, hist, now, window), fp)
      && AllRangesOk(seen[range := Recent(Closed, TimeOf, all, now, window)], history[range := hist], fp, window, now)
  {
    var (dq, hist) := (Of(seen, range), Of(history, range));
    assert RangeOk(dq, hist, fp, window, before);
    ObservationKeepsRange(dq, hist, key, fp, window, before, now);
    HistoryGrows(hist, key, fp, window, now);
    ObservationKeepsRanges(seen, history, range, hist + [Stamped(now, key)],
                           Recent(Closed, TimeOf, dq + [Stamped(now, fp(key))], now, window), fp, window, before, now);
  }

  lemma AlertExtends(last: real, alerts: seq<real>, window: real, before: real, now: real)
    requires AlertsOk(last, alerts, window, before) && before <= now && now - last > window
    ensures AlertsOk(now, alerts + [now], window, now)
  {
  }

  lemma AlertKeepsSpacing(alerted: map<string, real>, alerts: map<string, seq<real>>, range: string,
                          sent: seq<real>, window: real, before: real, now: real)
    requires AllAlertsOk(alerted, alerts, window, before) && before <= now
    requires AlertsOk(now, sent, window, now)
    ensures AllAlertsOk(alerted[range := now], alerts[range := sent], window, now)
  {
    var (alerted', alerts') := (alerted[range := now], alerts[range := sent]);
    forall r ensures AlertsOk(LastAlert(alerted', r), AlertsOf(alerts', r), window, now) {
      if r != range {
        assert LastAlert(alerted', r) == LastAlert(alerted, r) && AlertsOf(alerts', r) == AlertsOf(alerts, r);
      }
    }
  }

  /** The alert branch: what is due, and what the alerts are afterwards. */
  lemma Alerted(alerted: map<string, real>, alerts: map<string, seq<real>>, range: string,
                window: real, before: real, now: real)
    requires AllAlertsOk(alerted, alerts, window, before) && before <= now
    ensures AllAlertsOk(alerted, alerts, window, now)
    ensures now - LastAlert(alerted, range) > window ==>
              AllAlertsOk(alerted[range := now], alerts[range := AlertsOf(alerts, range) + [now]], window, now)
    ensures now - NEVER > window && now - LastAlert(alerted, range) <= window ==>
              var sent := AlertsOf(alerts, range);
              sent != [] && now - sent[|sent| - 1] <= window
  {
    var (last, sent) := (LastAlert(alerted, range), AlertsOf(alerts, range));
    assert AlertsOk(last, sent, window, before);
    forall r ensures AlertsOk(LastAlert(alerted, r), AlertsOf(alerts, r), window, now) {
      assert AlertsOk(LastAlert(alerted, r), AlertsOf(alerts, r), window, before);
    }
    if now - last > window {
      AlertExtends(last, sent, window, before, now);
      AlertKeepsSpacing(alerted, alerts, range, sent + [now], window, before, now);
    }
  }

  // ---------------------------------------------------------------- the detector

  class KeyCyclingDetector {
    const threshold: int
    const window: real
    const fp: string -> string
    var seen: map<string, seq<Stamped>>
    var alerted: map<string, real>
    // history since construction or the last reset
    ghost var history: map<string, seq<Stamped>>  // every key presented, per range
    ghost var alerts: map<string, seq<real>>      // every alert emitted, per range
    ghost var clock: real

    ghost predicate Valid()
      reads this
    {
      && AllRangesOk(seen, history, fp, window, clock)
      && AllAlertsOk(alerted, alerts, window, clock)
    }

    constructor (threshold: int, window: real, fp: string -> string, ghost start: real)
      ensures Valid() && history == map[] && alerts == map[] && clock == start
      ensures this.threshold == threshold && this.window == window && this.fp == fp
    {
      this.threshold, this.window, this.fp := threshold, window, fp;
      seen, alerted, history, alerts, clock := map[], map[], map[], map[], start;
    }

    /**
     Record one presentation.  `abusive` is the returned flag, `alert` whether
     `emit_security_alert` was called.
     */
    method Observe(ip: string, key: string, now: real) returns (abusive: bool, alert: bool)
      requires Valid() && clock <= now
      modifies this
      ensures Valid()
      ensures key == "" ==> !abusive && !alert && unchanged(this)
      ensures key != "" ==>
        var range := RangeOf(ip);
        && clock == now
        && history == old(history)[range := Of(old(history), range) + [Stamped(now, key)]]
        && (abusive <==> |Items(Prints(Recent(Closed, TimeOf, history[range], now, window), fp))| >= threshold)
        && (alert <==> abusive && now - LastAlert(old(alerted), range) > window)
        && alerts == if alert then old(alerts)[range := AlertsOf(old(alerts), range) + [now]] else old(alerts)
      // an abusive range never goes a window without an alert
      ensures abusive && window >= 0.0 && now - NEVER > window ==>
        var sent := AlertsOf(alerts, RangeOf(ip));
        sent != [] && now - sent[|sent| - 1] <= window
    {
      hide RangeOk, AlertsOk, Prints, Recent;
      abusive, alert := false, false;
      if key == "" {
        return;
      }
      var range := RangeOf(ip);
      ghost var hist := Of(history, range) + [Stamped(now, key)];
      Observed(seen, history, range, key, fp, window, clock, now);
      Alerted(alerted, alerts, range, window, clock, now);
      var dq := PopOld(TimeOf, Of(seen, range) + [Stamped(now, fp(key))], now, window);
      seen := seen[range := dq];
      history := history[range := hist];
      abusive := |Items(dq)| >= threshold;
      if abusive {
        alert := now - LastAlert(alerted, range) > window;
        if alert {
          alerted := alerted[range := now];
          alerts := alerts[range := AlertsOf(alerts, range) + [now]];
        }
      }
      clock := now;
    }

    method Reset()
      modifies this
      ensures Valid() && history == map[] && alerts == map[] && clock == old(clock)
    {
      seen, alerted, history, alerts := map[], map[], map[], map[];
    }
  }
}
