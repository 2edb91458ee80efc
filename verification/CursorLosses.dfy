/**
 When the streaming loop of `run_pipeline.py` loses trades, and when it cannot:
 connections at "now", rejected cursors, replay windows and shared dedup marks.
 */
module CursorLosses {
  import opened Wrappers
  import opened CursorStream

  predicate NoReject(acts: seq<Action>) { forall i :: 0 <= i < |acts| ==> !acts[i].Reject? }

  // ---------------------------------------------------------------- connections at "now"

  /** Trades are jumped over exactly by a later start without a cursor, an early reconnect or a rejection. */
  lemma JumpsOnlyAtNow(cfg: Config, s: State, a: Action, s': State)
    requires Step(cfg, s, a) == Some(s')
    ensures s'.jumps != s.jumps <==>
      || (a.Start? && s.begun && !HasCursor(s))
      || (a.Reconnect? && s.session.Some? && s.session.value.stream == Now)
      || a.Reject?
  {
  }

  /** While no cursor was rejected, the cursors of a session are as real as the one on file. */
  predicate Steady(s: State) {
    s.session.Some? ==>
      var ss := s.session.value;
      (ss.last.From? ==> ss.stream.From?) && (HasCursor(s) ==> ss.last.From?)
  }

  lemma StepKeepsSteady(cfg: Config, s: State, a: Action, s': State)
    requires Step(cfg, s, a) == Some(s') && Steady(s) && !a.Reject?
    ensures Steady(s')
  {
  }

  lemma StepKeepsCursor(cfg: Config, s: State, a: Action, s': State)
    requires Step(cfg, s, a) == Some(s') && Inv(cfg, s) && Steady(s) && !a.Reject? && HasCursor(s)
    ensures HasCursor(s') && s'.jumps == s.jumps && s.file.value.next <= s'.file.value.next
    ensures Quiet(cfg) ==> s'.dropped <= s.dropped
  {
    hide PositionCovered, LastCovered, Covered, SizeOk;
  }

  lemma {:induction false} RunKeepsSteady(cfg: Config, s: State, acts: seq<Action>, s': State)
    requires Steady(s) && NoReject(acts) && Run(cfg, s, acts) == Some(s')
    ensures Steady(s')
    decreases |acts|
  {
    hide Steady, Step;
    if acts != [] {
      var next := Step(cfg, s, acts[0]).value;
      StepKeepsSteady(cfg, s, acts[0], next);
      RunKeepsSteady(cfg, next, acts[1..], s');
    }
  }

  /**
   Once a real cursor is on file, and as long as the source rejects none, it
   stays there and only moves forward, no connection jumps over trades, and a
   source that withholds none loses none.
   */
  lemma {:induction false} CursorNeverMovesBack(cfg: Config, s: State, acts: seq<Action>, s': State)
    requires Inv(cfg, s) && Steady(s) && HasCursor(s) && NoReject(acts) && Run(cfg, s, acts) == Some(s')
    ensures HasCursor(s') && s'.jumps == s.jumps && s.file.value.next <= s'.file.value.next
    ensures Quiet(cfg) ==> s'.dropped <= s.dropped
    decreases |acts|
  {
    hide Inv, Step, Steady;
    if acts != [] {
      var next := Step(cfg, s, acts[0]).value;
      StepKeepsInv(cfg, s, acts[0], next);
      StepKeepsSteady(cfg, s, acts[0], next);
      StepKeepsCursor(cfg, s, acts[0], next);
      CursorNeverMovesBack(cfg, next, acts[1..], s');
    }
  }

  // ---------------------------------------------------------------- lost for good

  predicate Above(c: Cursor, n: nat) { c.From? ==> c.next > n }

  /** An unsaved trade that is not in hand and that every cursor has passed. */
  predicate Lost(s: State, n: nat) {
    && n < s.head && n !in s.saved && s.begun && (s.file.Some? ==> Above(s.file.value, n))
    && (s.session.Some? ==>
          var ss := s.session.value;
          && n < ss.pos && Above(ss.stream, n) && Above(ss.last, n) && n !in ss.buffer && ss.stage != Fetched(n))
  }

  lemma LostStays(cfg: Config, s: State, a: Action, s': State, n: nat)
    requires Step(cfg, s, a) == Some(s') && Lost(s, n)
    ensures Lost(s', n)
  {
  }

  /** ... is never scored, whatever happens later. */
  lemma {:induction false} LostForever(cfg: Config, s: State, acts: seq<Action>, s': State, n: nat)
    requires Lost(s, n) && Run(cfg, s, acts) == Some(s')
    ensures n !in s'.saved
    decreases |acts|
  {
    if acts != [] {
      hide Step, Lost;
      var next := Step(cfg, s, acts[0]).value;
      LostStays(cfg, s, acts[0], next, n);
      LostForever(cfg, next, acts[1..], s', n);
    }
  }

  /**
   Stopping before the first real cursor is on file loses whatever is unsaved:
   the restart connects at "now".
   */
  lemma StopBeforeFirstCursorLoses(cfg: Config, s: State, n: nat, now: real) returns (stopped: State, again: State)
    requires Inv(cfg, s) && s.session.Some? && !HasCursor(s) && s.origin <= n < s.session.value.pos && n !in s.saved
    ensures Step(cfg, s, Stop) == Some(stopped) && Step(cfg, stopped, Start(now)) == Some(again)
    ensures Lost(again, n) && n in again.dropped
  {
    stopped := End(cfg, s);
    again := Connect(stopped, now);
  }

  /** Some continuation without a rejected cursor passes the trade over. */
  ghost predicate CanLose(cfg: Config, s: State, n: nat) {
    exists acts :: NoReject(acts) && Run(cfg, s, acts).Some? && n in Run(cfg, s, acts).value.dropped
  }

  /**
   Where the source rejects no cursor and withholds no trade, an unsaved trade
   that a session has passed can still be lost if and only if no real cursor is
   on file.
   */
  lemma LossIffNoCursor(cfg: Config, start: nat, acts: seq<Action>, s: State, n: nat)
    requires Run(cfg, Init(start), acts) == Some(s) && NoReject(acts) && Quiet(cfg)
    requires s.session.Some? && s.origin <= n < s.session.value.pos && n !in s.saved && n !in s.dropped
    ensures CanLose(cfg, s, n) <==> !HasCursor(s)
  {
    RunKeepsInv(cfg, Init(start), acts, s);
    RunKeepsSteady(cfg, Init(start), acts, s);
    if HasCursor(s) {
      forall more | NoReject(more) && Run(cfg, s, more).Some? ensures n !in Run(cfg, s, more).value.dropped {
        CursorNeverMovesBack(cfg, s, more, Run(cfg, s, more).value);
      }
    } else {
      var stopped, again := StopBeforeFirstCursorLoses(cfg, s, n, 0.0);
      hide Step;
      assert Run(cfg, s, []) == Some(s);
      Extend(cfg, s, [], s, Stop, stopped);
      Extend(cfg, s, [] + [Stop], stopped, Start(0.0), again);
      assert NoReject([] + [Stop] + [Start(0.0)]);
    }
  }

  lemma {:induction false} Extend(cfg: Config, s: State, acts: seq<Action>, t: State, a: Action, u: State)
    requires Run(cfg, s, acts) == Some(t) && Step(cfg, t, a) == Some(u)
    ensures Run(cfg, s, acts + [a]) == Some(u)
    decreases |acts|
  {
    var all := acts + [a];
    if acts == [] {
      assert all[1..] == [];
    } else {
      assert all[1..] == acts[1..] + [a];
      Extend(cfg, Step(cfg, s, acts[0]).value, acts[1..], t, a, u);
    }
  }

  // ---------------------------------------------------------------- runs that lose

  /** The interrupt handler saves the buffer and then writes the cursor. */
  lemma InterruptFlushes(cfg: Config, s: State, acts: seq<Action>, t: State) returns (acts': seq<Action>, t': State)
    requires Run(cfg, s, acts) == Some(t) && t.session.Some? && t.session.value.stage == Advanced
    requires t.session.value.buffer != []
    ensures Run(cfg, s, acts') == Some(t')
    ensures t' == End(cfg, t.(saved := t.saved + Items(t.session.value.buffer), file := Some(t.session.value.last)))
  {
    hide Run;
    var ss := t.session.value;
    var t1 := In(t, ss.(stage := Flushing(true, 0.0)));
    Extend(cfg, s, acts, t, Interrupt(0.0), t1);
    var t2 := In(t1, ss.(stage := Saved(true, 0.0))).(saved := t.saved + Items(ss.buffer));
    Extend(cfg, s, acts + [Interrupt(0.0)], t1, Save, t2);
    t' := End(cfg, t2.(file := Some(ss.last)));
    Extend(cfg, s, acts + [Interrupt(0.0)] + [Save], t2, Persist, t');
    acts' := acts + [Interrupt(0.0)] + [Save] + [Persist];
  }

  /** A session reads one new trade and is then interrupted, which flushes it. */
  lemma ReadAndInterrupt(cfg: Config, s: State, acts: seq<Action>, t: State) returns (acts': seq<Action>, t': State)
    requires Run(cfg, s, acts) == Some(t) && t.session.Some? && t.session.value.stage == Reading
    requires t.session.value.pos < t.head && t.session.value.pos !in t.marked
    ensures Run(cfg, s, acts') == Some(t')
    ensures var (n, buffer) := (t.session.value.pos, t.session.value.buffer);
      && t' == t.(file := Some(From(n + 1)), saved := t'.saved, dropped := t.dropped - {n}, marked := t'.marked, session := None)
      && t'.saved == t.saved + Items(buffer) + {n}
      && (cfg.dedup == Shared ==> t'.marked == t.marked + {n})
  {
    hide Run;
    var (ss, n) := (t.session.value, t.session.value.pos);
    var t1 := Next(cfg, t, ss, true, 0.0);
    Extend(cfg, s, acts, t, Fetch(true, 0.0), t1);
    var ss2 := t1.session.value.(buffer := ss.buffer + [n], stage := Appended);
    var t2 := In(t1, ss2).(dropped := t.dropped - {n});
    Extend(cfg, s, acts + [Fetch(true, 0.0)], t1, Append, t2);
    var t3 := In(t2, ss2.(last := From(n + 1), stage := Advanced));
    Extend(cfg, s, acts + [Fetch(true, 0.0)] + [Append], t2, Advance, t3);
    acts', t' := InterruptFlushes(cfg, s, acts + [Fetch(true, 0.0)] + [Append] + [Advance], t3);
    assert Items(ss.buffer + [n]) == Items(ss.buffer) + {n};
  }

  /**
   A rejected cursor loses every trade not yet read for good: the next trade's
   cursor is persisted past them.
   */
  lemma RejectionLoses(cfg: Config, s: State, n: nat) returns (acts: seq<Action>, s': State)
    requires Inv(cfg, s) && s.session.Some? && s.session.value.stage == Reading && s.session.value.stream.From? && s.begun
    requires s.session.value.pos <= n < s.head && n !in s.saved && n !in s.session.value.buffer
    ensures Run(cfg, s, acts) == Some(s') && Lost(s', n)
  {
    assert Run(cfg, s, []) == Some(s);
    hide Run, SizeOk, PositionCovered, LastCovered;
    var s1 := Place(s, s.session.value, Now);
    Extend(cfg, s, [], s, Reject, s1);
    var s2 := s1.(head := s.head + 1);
    Extend(cfg, s, [] + [Reject], s1, Occur, s2);
    acts, s' := ReadAndInterrupt(cfg, s, [] + [Reject] + [Occur], s2);
  }

  /** A trade is fetched, the process stops, and after the restart the source withholds it. */
  lemma StopWithMark(cfg: Config, s: State, acts: seq<Action>, t: State) returns (acts': seq<Action>, t': State)
    requires Run(cfg, s, acts) == Some(t) && cfg.dedup == Shared && t.begun && t.session.None? && HasCursor(t)
    requires t.file.value.next < t.head && t.file.value.next !in t.marked && t.file.value.next !in t.saved
    ensures Run(cfg, s, acts') == Some(t')
    ensures var n := t.file.value.next;
      && t'.session == Some(Session(n + 1, From(n + 1), From(n), [], 0.0, Reading))
      && t' == t.(marked := t.marked + {n}, dropped := t.dropped + {n}, session := t'.session)
  {
    hide Run;
    var t1 := Connect(t, 0.0);
    Extend(cfg, s, acts, t, Start(0.0), t1);
    var t2 := Next(cfg, t1, t1.session.value, true, 0.0);
    Extend(cfg, s, acts + [Start(0.0)], t1, Fetch(true, 0.0), t2);
    var t3 := End(cfg, t2);
    Extend(cfg, s, acts + [Start(0.0)] + [Fetch(true, 0.0)], t2, Stop, t3);
    var t4 := Connect(t3, 0.0);
    Extend(cfg, s, acts + [Start(0.0)] + [Fetch(true, 0.0)] + [Stop], t3, Start(0.0), t4);
    t' := Next(cfg, t4, t4.session.value, true, 0.0);
    Extend(cfg, s, acts + [Start(0.0)] + [Fetch(true, 0.0)] + [Stop] + [Start(0.0)], t4, Fetch(true, 0.0), t');
    acts' := acts + [Start(0.0)] + [Fetch(true, 0.0)] + [Stop] + [Start(0.0)] + [Fetch(true, 0.0)];
  }

  /** A first session with three trades waiting. */
  lemma Begins(cfg: Config, start: nat) returns (acts: seq<Action>, s: State)
    ensures Run(cfg, Init(start), acts) == Some(s)
    ensures s == Init(start).(begun := true, head := start + 3, session := Some(Session(start, Now, Now, [], 0.0, Reading)))
  {
    var i := Init(start);
    assert Run(cfg, i, []) == Some(i);
    hide Run;
    var c := Connect(i, 0.0);
    Extend(cfg, i, [], i, Start(0.0), c);
    Extend(cfg, i, [] + [Start(0.0)], c, Occur, c.(head := start + 1));
    Extend(cfg, i, [] + [Start(0.0)] + [Occur], c.(head := start + 1), Occur, c.(head := start + 2));
    s := c.(head := start + 3);
    Extend(cfg, i, [] + [Start(0.0)] + [Occur] + [Occur], c.(head := start + 2), Occur, s);
    acts := [] + [Start(0.0)] + [Occur] + [Occur] + [Occur];
  }

  // ---------------------------------------------------------------- at least once

  /** Every trade since the origin and before the persisted cursor is saved. */
  predicate FileIsSaved(s: State) {
    HasCursor(s) ==> forall n :: s.origin <= n < s.file.value.next ==> n in s.saved
  }

  /** In every run whose only connection at "now" is the first. */
  ghost predicate AtLeastOnce(cfg: Config, start: nat) {
    forall acts :: Run(cfg, Init(start), acts).Some? && Run(cfg, Init(start), acts).value.jumps == 0 ==>
      FileIsSaved(Run(cfg, Init(start), acts).value)
  }

  lemma SharedMarksLose(cfg: Config, start: nat) returns (acts: seq<Action>, s: State)
    requires cfg.dedup == Shared
    ensures Run(cfg, Init(start), acts) == Some(s) && s.jumps == 0 && !FileIsSaved(s)
  {
    var acts0, s0 := Begins(cfg, start);
    hide Run;
    var acts1, s1 := ReadAndInterrupt(cfg, Init(start), acts0, s0);
    var acts2, s2 := StopWithMark(cfg, Init(start), acts1, s1);
    acts, s := ReadAndInterrupt(cfg, Init(start), acts2, s2);
    assert s.origin <= start + 1 < s.file.value.next && start + 1 !in s.saved;
  }

  /** With dedup on and a replay window, a trade that is too old when it is fetched is skipped and passed. */
  lemma ReplayWindowLoses(cfg: Config, start: nat) returns (acts: seq<Action>, s: State)
    requires cfg.dedup != Off && cfg.replayWindow > 0.0
    ensures Run(cfg, Init(start), acts) == Some(s) && s.jumps == 0 && !FileIsSaved(s)
  {
    var acts0, s0 := Begins(cfg, start);
    hide Run;
    var late := Fetch(true, cfg.replayWindow + 1.0);
    var s1 := Next(cfg, s0, s0.session.value, true, cfg.replayWindow + 1.0);
    Extend(cfg, Init(start), acts0, s0, late, s1);
    acts, s := ReadAndInterrupt(cfg, Init(start), acts0 + [late], s1);
    assert s.origin <= start < s.file.value.next && start !in s.saved;
  }

  /**
   At-least-once up to the persisted cursor holds in all such runs if and only
   if dedup is off, or its marks die with the process and there is no replay
   window.
   */
  lemma AtLeastOnceExact(cfg: Config, start: nat)
    ensures AtLeastOnce(cfg, start) <==>
      cfg.dedup == Off || (cfg.dedup == InProcess && cfg.replayWindow <= 0.0)
  {
    if cfg.dedup == Shared {
      var acts, s := SharedMarksLose(cfg, start);
    } else if cfg.dedup == InProcess && cfg.replayWindow > 0.0 {
      var acts, s := ReplayWindowLoses(cfg, start);
    } else {
      forall acts | Run(cfg, Init(start), acts).Some? && Run(cfg, Init(start), acts).value.jumps == 0
        ensures FileIsSaved(Run(cfg, Init(start), acts).value)
      {
        var s := Run(cfg, Init(start), acts).value;
        if HasCursor(s) {
          PersistedCursorIsCovered(cfg, start, acts, s, s.file.value.next);
        }
      }
    }
  }
}
