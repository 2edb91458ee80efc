/**
 The slots `api/batch_router.py` never gives back: a request whose insertion
 raises, and a task whose first update raises, end with their slot still taken.
 */
module BatchLeaks {
  import opened Wrappers
  import opened BatchJobs

  function LeakedOf(s: State, p: nat): set<JobId> { set j | j in s.leaked && s.leaked[j] == p }

  /** The step is such an error in process `p`. */
  predicate Fails(s: State, a: Action, p: nat) {
    || (a.Ask? && a.op.DatabaseError? && a.call in s.calls && s.calls[a.call].phase.Reserved? && s.calls[a.call].proc == p)
    || (a.TaskError? && a.failed in s.tasks && s.tasks[a.failed] == p)
  }

  /** How many of them process `p` has had since its last crash. */
  function Failures(window: real, start: real, acts: seq<Action>, p: nat): nat {
    if acts == [] then 0
    else
      var (front, a) := (acts[..|acts| - 1], acts[|acts| - 1]);
      var before := Run(window, start, front);
      if a == Crash(p) || before.None? then 0
      else Failures(window, start, front, p) + (if Fails(before.value, a, p) then 1 else 0)
  }

  /** The job whose slot the step leaks. */
  function Victim(s: State, a: Action): JobId
    requires exists p :: Fails(s, a, p)
  {
    if a.Ask? then s.calls[a.call].phase.reserved else a.failed
  }

  lemma AskLeaks(window: real, s: State, call: nat, op: Op, out: Out)
    requires call in s.calls && AskStep(window, s, call, op) == Some(out)
    ensures out.state.leaked ==
      if op.DatabaseError? && s.calls[call].phase.Reserved? then s.leaked[s.calls[call].phase.reserved := s.calls[call].proc]
      else s.leaked
  {
    hide LookedUp, TakeSlot, DropSlot, Slots, JobForKey, Purge, Store, Enqueue, Goto, Leave;
  }

  lemma FailureLeaks(window: real, s: State, a: Action, out: Out, p: nat)
    requires Step(window, s, a) == Some(out) && Fails(s, a, p)
    ensures out.state.leaked == s.leaked[Victim(s, a) := p]
  {
    hide AskStep;
    if a.Ask? {
      AskLeaks(window, s, a.call, a.op, out);
    }
  }

  /** An error of another process, or no error at all. */
  lemma OthersKeepLeaks(window: real, s: State, a: Action, out: Out, p: nat)
    requires Step(window, s, a) == Some(out) && !Fails(s, a, p)
    ensures a.Crash? ==> LeakedOf(out.state, p) == if a.proc == p then {} else LeakedOf(s, p)
    ensures !a.Crash? ==> out.state.leaked == s.leaked || exists q :: q != p && Fails(s, a, q) && out.state.leaked == s.leaked[Victim(s, a) := q]
  {
    hide AskStep, DropSlot;
    match a
    case Ask(call, op) =>
      AskLeaks(window, s, call, op, out);
      assert op.DatabaseError? && s.calls[call].phase.Reserved? ==> Fails(s, a, s.calls[call].proc);
    case TaskError(job) =>
      assert Fails(s, a, s.tasks[job]);
    case _ =>
  }

  /** The victim of an error had a request or a task as its holder. */
  lemma VictimIsNew(s: State, a: Action, q: nat)
    requires JobsOk(s) && Fails(s, a, q)
    ensures Victim(s, a) !in s.leaked
  {
    hide Story;
    var job := Victim(s, a);
    assert SlotOk(s, job);
    assert a.Ask? ==> CallHolds(s, a.call, job);
  }

  /** What a step does to the leaked slots of a process. */
  lemma StepLeaks(window: real, s: State, a: Action, out: Out, p: nat)
    requires Step(window, s, a) == Some(out) && JobsOk(s)
    ensures a == Crash(p) ==> LeakedOf(out.state, p) == {}
    ensures a != Crash(p) ==> LeakedOf(s, p) <= LeakedOf(out.state, p)
    ensures a != Crash(p) ==> |LeakedOf(out.state, p)| == |LeakedOf(s, p)| + (if Fails(s, a, p) then 1 else 0)
  {
    hide Step, JobsOk;
    if Fails(s, a, p) {
      FailureLeaks(window, s, a, out, p);
      VictimIsNew(s, a, p);
      assert LeakedOf(out.state, p) == LeakedOf(s, p) + {Victim(s, a)};
    } else {
      OthersKeepLeaks(window, s, a, out, p);
      if !a.Crash? && out.state.leaked != s.leaked {
        var q :| q != p && Fails(s, a, q) && out.state.leaked == s.leaked[Victim(s, a) := q];
        VictimIsNew(s, a, q);
        assert LeakedOf(out.state, p) == LeakedOf(s, p);
      }
    }
  }

  /** A process has leaked exactly one slot for each error since its last crash. */
  lemma {:induction false} LeaksAreFailures(window: real, start: real, acts: seq<Action>, s: State, p: nat)
    requires Run(window, start, acts) == Some(s)
    ensures |LeakedOf(s, p)| == Failures(window, start, acts, p)
  {
    if acts != [] {
      var (front, a) := (acts[..|acts| - 1], acts[|acts| - 1]);
      var before := Run(window, start, front).value;
      LeaksAreFailures(window, start, front, before, p);
      RunKeepsInv(window, start, front, before);
      hide Step;
      StepLeaks(window, before, a, Step(window, before, a).value, p);
    }
  }

  /** Nothing of the process is between reserving a slot and finishing the task. */
  predicate Idle(s: State, p: nat) {
    && (forall c :: c in s.calls && s.calls[c].proc == p ==> !s.calls[c].phase.Reserved? && !s.calls[c].phase.Stored?)
    && (forall j :: j in s.tasks ==> s.tasks[j] != p)
  }

  /**
   An idle process holds precisely the slots its errors leaked, one for each
   since its last crash: none if and only if there was none.
   */
  lemma IdleHoldsLeaks(window: real, start: real, acts: seq<Action>, s: State, p: nat)
    requires Run(window, start, acts) == Some(s) && Idle(s, p)
    ensures Slots(s, p) == LeakedOf(s, p)
    ensures |Slots(s, p)| == Failures(window, start, acts, p)
  {
    RunKeepsInv(window, start, acts, s);
    LeaksAreFailures(window, start, acts, s, p);
    forall j ensures j in Slots(s, p) <==> j in LeakedOf(s, p) {
      assert SlotOk(s, j);
    }
  }

  /** Leaked slots stay taken until the process crashes. */
  lemma {:induction false} LeaksPersist(window: real, s: State, acts: seq<Action>, s': State, p: nat)
    requires Inv(window, s) && Resume(window, s, acts) == Some(s') && forall i :: 0 <= i < |acts| ==> acts[i] != Crash(p)
    ensures Inv(window, s') && LeakedOf(s, p) <= LeakedOf(s', p)
    decreases |acts|
  {
    if acts != [] {
      var out := Step(window, s, acts[0]).value;
      StepKeepsInv(window, s, acts[0], out);
      StepLeaks(window, s, acts[0], out, p);
      hide Step, Inv, LeakedOf;
      LeaksPersist(window, out.state, acts[1..], s', p);
    }
  }

  /** After five errors every later request of the process that needs a slot is answered 429, until it crashes. */
  lemma FiveFailuresExhaust(window: real, start: real, acts: seq<Action>, s: State, p: nat,
                            more: seq<Action>, s': State, call: nat, newId: JobId, out: Out)
    requires Run(window, start, acts) == Some(s) && Failures(window, start, acts, p) == MAX_CONCURRENT
    requires Resume(window, s, more) == Some(s') && forall i :: 0 <= i < |more| ==> more[i] != Crash(p)
    requires call in s'.calls && s'.calls[call].proc == p && Step(window, s', Ask(call, Reserve(newId))) == Some(out)
    ensures out.reply == TooMany
  {
    hide Step, Run, Resume, Inv, Failures, LeakedOf, Slots;
    RunKeepsInv(window, start, acts, s);
    LeaksAreFailures(window, start, acts, s, p);
    LeaksPersist(window, s, more, s', p);
    SlotsOfLeaks(window, s', p);
    Fewer(LeakedOf(s, p), Slots(s', p));
    FullRefuses(window, s', call, newId, out);
  }

  lemma FullRefuses(window: real, s: State, call: nat, newId: JobId, out: Out)
    requires call in s.calls && |Slots(s, s.calls[call].proc)| >= MAX_CONCURRENT
    requires Step(window, s, Ask(call, Reserve(newId))) == Some(out)
    ensures out.reply == TooMany
  {
  }

  lemma SlotsOfLeaks(window: real, s: State, p: nat)
    requires Inv(window, s)
    ensures LeakedOf(s, p) <= Slots(s, p)
  {
    forall j | j in LeakedOf(s, p) ensures j in Slots(s, p) {
      assert SlotOk(s, j);
    }
  }

  // ---------------------------------------------------------------- such a run

  /** A job id no shorter one of the same kind equals. */
  function Id(n: nat): JobId { if n == 0 then "" else "j" + Id(n - 1) }

  lemma {:induction false} IdLength(n: nat)
    ensures |Id(n)| == n
  {
    if n > 0 {
      IdLength(n - 1);
    }
  }

  /** A keyless request of process `p` comes to the slot check. */
  lemma Arrives(window: real, start: real, acts: seq<Action>, s: State, p: nat) returns (acts': seq<Action>, s': State)
    requires Run(window, start, acts) == Some(s) && s.calls == map[]
    ensures Run(window, start, acts') == Some(s') && At(s', 0, Missed) && s'.calls.Keys == {0} && s'.calls[0].proc == p
    ensures s' == s.(calls := s'.calls, jobs := s'.jobs, keys := s'.keys)
    ensures Failures(window, start, acts', p) == Failures(window, start, acts, p)
  {
    hide Run, Failures, Purge;
    var s1 := s.(calls := s.calls[0 := Call(p, "", Started)]);
    Follows(window, start, acts, Begin(0, p, ""), s, Out(s1, Silent), p);
    acts' := acts + [Begin(0, p, "")];
    var s2 := Goto(Purge(s1, window, s.clock, s.clock), 0, Cleaned);
    Follows(window, start, acts', Ask(0, Expire(s.clock, s.clock)), s1, Out(s2, Silent), p);
    acts' := acts' + [Ask(0, Expire(s.clock, s.clock))];
    s' := Goto(s2, 0, Missed);
    Follows(window, start, acts', Ask(0, Lookup), s2, Out(s', Silent), p);
    acts' := acts' + [Ask(0, Lookup)];
  }

  lemma LeftBehind(s: State, p: nat, newId: JobId)
    requires s.calls.Keys == {0} && s.calls[0].proc == p
    ensures var s' := LeakSlot(Leave(TakeSlot(s, 0, newId), 0), p, newId);
      && s'.calls == map[] && s'.tasks == s.tasks
      && s'.issued == s.issued + {newId} && Slots(s', p) == Slots(s, p) + {newId}
  {
  }

  lemma ReserveThenError(window: real, s: State, p: nat, newId: JobId)
    requires At(s, 0, Missed) && s.calls[0].proc == p && |Slots(s, p)| < MAX_CONCURRENT && newId !in s.issued
    ensures Step(window, s, Ask(0, Reserve(newId))) == Some(Out(TakeSlot(s, 0, newId), Silent))
    ensures var s1 := TakeSlot(s, 0, newId);
      Step(window, s1, Ask(0, DatabaseError)) == Some(Out(LeakSlot(Leave(s1, 0), p, newId), Failed)) && Fails(s1, Ask(0, DatabaseError), p)
  {
  }

  /** It reserves a slot, and its insertion raises. */
  lemma LeakOne(window: real, start: real, acts: seq<Action>, s: State, p: nat, newId: JobId) returns (acts': seq<Action>, s': State)
    requires Run(window, start, acts) == Some(s) && s.calls == map[] && |Slots(s, p)| < MAX_CONCURRENT && newId !in s.issued
    ensures Run(window, start, acts') == Some(s') && s'.calls == map[] && s'.tasks == s.tasks
    ensures s'.issued == s.issued + {newId} && Slots(s', p) == Slots(s, p) + {newId}
    ensures Failures(window, start, acts', p) == Failures(window, start, acts, p) + 1
  {
    var acts1, s1 := Arrives(window, start, acts, s, p);
    LeftBehind(s1, p, newId);
    ReserveThenError(window, s1, p, newId);
    hide Run, Failures, Step, TakeSlot, LeakSlot, Leave;
    var s2 := TakeSlot(s1, 0, newId);
    Follows(window, start, acts1, Ask(0, Reserve(newId)), s1, Out(s2, Silent), p);
    acts' := acts1 + [Ask(0, Reserve(newId))];
    s' := LeakSlot(Leave(s2, 0), p, newId);
    Follows(window, start, acts', Ask(0, DatabaseError), s2, Out(s', Failed), p);
    acts' := acts' + [Ask(0, DatabaseError)];
  }

  lemma Follows(window: real, start: real, acts: seq<Action>, a: Action, s: State, out: Out, p: nat)
    requires Run(window, start, acts) == Some(s) && Step(window, s, a) == Some(out) && a != Crash(p)
    ensures Run(window, start, acts + [a]) == Some(out.state)
    ensures Failures(window, start, acts + [a], p) == Failures(window, start, acts, p) + (if Fails(s, a, p) then 1 else 0)
  {
    Extend(window, start, acts, a, s, out);
    var all := acts + [a];
    assert all[..|all| - 1] == acts;
  }

  /** Any number of errors up to the cap is possible, so the process can be left without a slot. */
  lemma {:induction false} LeaksHappen(window: real, start: real, p: nat, n: nat) returns (acts: seq<Action>, s: State)
    requires n <= MAX_CONCURRENT
    ensures Run(window, start, acts) == Some(s) && s.calls == map[] && s.tasks == map[] && Idle(s, p)
    ensures Failures(window, start, acts, p) == n == |Slots(s, p)|
    ensures Slots(s, p) <= s.issued && forall j :: j in s.issued ==> |j| <= n
  {
    acts, s := [], Init(start);
    if n > 0 {
      acts, s := LeaksHappen(window, start, p, n - 1);
      IdLength(n);
      hide Run, Failures, Id;
      acts, s := LeakOne(window, start, acts, s, p, Id(n));
    }
  }
}
