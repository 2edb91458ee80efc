/**
 What `create_batch_job` of `api/batch_router.py` answers: one request served
 alone against what its client was promised, and what holds of answers, tables
 and memory whatever else goes on.
 */
module BatchRequests {
  import opened Wrappers
  import opened BatchJobs

  // ---------------------------------------------------------------- one request, alone

  /** The handler's steps with nothing in between, up to and including the one that answers. */
  function Serve(window: real, s: State, call: nat, ops: seq<Op>): Option<Out>
    decreases |ops|
  {
    if ops == [] then Some(Out(s, Silent))
    else
      match Step(window, s, Ask(call, ops[0]))
      case None => None
      case Some(out) => if out.reply.Silent? then Serve(window, out.state, call, ops[1..]) else Some(out)
  }

  predicate LiveKey(window: real, s: State, key: string) {
    key != "" && key in s.keys && s.keys[key].created >= s.clock - window
  }

  predicate LiveJob(s: State, job: JobId) { job in s.jobs && s.jobs[job] >= s.clock - JOB_TTL }

  /** What a request that nothing disturbs is answered. */
  function Answer(window: real, s: State, c: Call, newId: JobId): Reply {
    if LiveKey(window, s, c.key) && LiveJob(s, s.keys[c.key].job) then Existing(s.keys[c.key].job)
    else if |Slots(s, c.proc)| >= 5 then TooMany
    else if LiveKey(window, s, c.key) then Conflict
    else Queued(newId)
  }

  /** The tables and the slots afterwards: expired rows are gone, and a new job has its rows and its slot. */
  ghost predicate Leaves(window: real, s: State, c: Call, newId: JobId, s': State) {
    var queued := Answer(window, s, c, newId).Queued?;
    && JobsGain(s, newId, queued, s'.jobs)
    && KeysGain(window, s, c.key, newId, queued && c.key != "", s'.keys)
    && SlotsGain(s, c.proc, newId, queued, s')
  }

  ghost predicate JobsGain(s: State, newId: JobId, queued: bool, jobs: map<JobId, real>) {
    && (forall j :: j in jobs <==> LiveJob(s, j) || (queued && j == newId))
    && (forall j :: j in jobs ==> jobs[j] == if j == newId then s.clock else s.jobs[j])
  }

  ghost predicate KeysGain(window: real, s: State, key: string, newId: JobId, mapped: bool, keys: map<string, KeyRow>) {
    && (forall k :: k in keys <==> (k in s.keys && s.keys[k].created >= s.clock - window) || (mapped && k == key))
    && (forall k :: k in keys ==> keys[k] == if mapped && k == key then KeyRow(newId, s.clock) else s.keys[k])
  }

  ghost predicate SlotsGain(s: State, proc: nat, newId: JobId, queued: bool, s': State) {
    && Slots(s', proc) == Slots(s, proc) + (if queued then {newId} else {})
    && forall p :: p != proc ==> Slots(s', p) == Slots(s, p)
  }

  lemma {:induction false} Serves(window: real, s: State, call: nat, op: Op, out: Out, rest: seq<Op>)
    requires Step(window, s, Ask(call, op)) == Some(out)
    ensures Serve(window, s, call, [op] + rest) == if out.reply.Silent? then Serve(window, out.state, call, rest) else Some(out)
  {
    assert ([op] + rest)[1..] == rest;
  }

  /** The answer once expired rows are gone. */
  function Rest(s: State, c: Call, newId: JobId): Reply {
    if c.key != "" && JobForKey(s, c.key).Some? then Existing(JobForKey(s, c.key).value)
    else if |Slots(s, c.proc)| >= 5 then TooMany
    else if c.key != "" && c.key in s.keys then Conflict
    else Queued(newId)
  }

  /** ... and the tables and slots. */
  ghost predicate RestLeaves(s: State, c: Call, newId: JobId, queued: bool, s': State) {
    && s'.jobs == (if queued then s.jobs[newId := s.clock] else s.jobs)
    && s'.keys == (if queued && c.key != "" then s.keys[c.key := KeyRow(newId, s.clock)] else s.keys)
    && SlotsGain(s, c.proc, newId, queued, s')
  }

  lemma Queues(window: real, s: State, call: nat, newId: JobId) returns (ops: seq<Op>, s': State)
    requires At(s, call, Missed) && (s.calls[call].key != "" ==> s.calls[call].key !in s.keys)
    ensures Serve(window, TakeSlot(s, call, newId), call, ops) == Some(Out(s', Queued(newId))) && call !in s'.calls
    ensures RestLeaves(s, s.calls[call], newId, true, s')
  {
    var s1 := TakeSlot(s, call, newId);
    var s2 := Store(s1, call, newId, s.clock);
    s' := Enqueue(s2, call, newId);
    ops := [Insert] + ([Schedule] + []);
    assert Step(window, s1, Ask(call, Insert)) == Some(Out(s2, Silent));
    assert Step(window, s2, Ask(call, Schedule)) == Some(Out(s', Queued(newId)));
    hide Serve, Step;
    Serves(window, s1, call, Insert, Out(s2, Silent), [Schedule] + []);
    Serves(window, s2, call, Schedule, Out(s', Queued(newId)), []);
  }

  lemma Conflicts(window: real, s: State, call: nat, newId: JobId) returns (ops: seq<Op>, s': State)
    requires At(s, call, Missed) && newId !in Slots(s, s.calls[call].proc)
    requires s.calls[call].key != "" && s.calls[call].key in s.keys && JobForKey(s, s.calls[call].key).None?
    ensures Serve(window, TakeSlot(s, call, newId), call, ops) == Some(Out(s', Conflict)) && call !in s'.calls
    ensures RestLeaves(s, s.calls[call], newId, false, s')
  {
    var s1 := TakeSlot(s, call, newId);
    var s2 := Goto(DropSlot(s1, s.calls[call].proc, newId), call, Beaten);
    s' := Leave(s2, call);
    ops := [Insert] + ([Reread] + []);
    assert Step(window, s1, Ask(call, Insert)) == Some(Out(s2, Silent));
    assert Step(window, s2, Ask(call, Reread)) == Some(Out(s', Conflict));
    hide Serve, Step;
    Serves(window, s1, call, Insert, Out(s2, Silent), [Reread] + []);
    Serves(window, s2, call, Reread, Out(s', Conflict), []);
  }

  lemma Refuses(window: real, s: State, call: nat, newId: JobId)
    requires At(s, call, Missed) && newId !in s.issued && |Slots(s, s.calls[call].proc)| >= 5
    ensures Serve(window, s, call, [Reserve(newId)] + []) == Some(Out(Leave(s, call), TooMany)) && call !in Leave(s, call).calls
    ensures RestLeaves(s, s.calls[call], newId, false, Leave(s, call))
  {
    assert Step(window, s, Ask(call, Reserve(newId))) == Some(Out(Leave(s, call), TooMany));
    hide Serve, Step;
    Serves(window, s, call, Reserve(newId), Out(Leave(s, call), TooMany), []);
  }

  lemma AfterLookup(window: real, s: State, call: nat, newId: JobId) returns (ops: seq<Op>, s': State)
    requires At(s, call, Missed) && newId !in s.issued && newId !in Slots(s, s.calls[call].proc)
    requires s.calls[call].key != "" ==> JobForKey(s, s.calls[call].key).None?
    ensures var (c, reply) := (s.calls[call], Rest(s, s.calls[call], newId));
      && Serve(window, s, call, ops) == Some(Out(s', reply)) && call !in s'.calls
      && RestLeaves(s, c, newId, reply.Queued?, s')
  {
    var c := s.calls[call];
    var rest: seq<Op>;
    if |Slots(s, c.proc)| >= 5 {
      s' := Leave(s, call);
      rest := [];
      hide Serve, Step, RestLeaves;
      Refuses(window, s, call, newId);
    } else {
      var s1 := TakeSlot(s, call, newId);
      assert Step(window, s, Ask(call, Reserve(newId))) == Some(Out(s1, Silent));
      hide Serve, Step, RestLeaves, TakeSlot;
      if c.key != "" && c.key in s.keys {
        rest, s' := Conflicts(window, s, call, newId);
      } else {
        rest, s' := Queues(window, s, call, newId);
      }
      Serves(window, s, call, Reserve(newId), Out(s1, Silent), rest);
    }
    ops := [Reserve(newId)] + rest;
  }

  lemma Finds(window: real, s: State, call: nat, newId: JobId) returns (ops: seq<Op>, s': State)
    requires At(s, call, Cleaned) && s.calls[call].key != "" && JobForKey(s, s.calls[call].key).Some?
    ensures Serve(window, s, call, ops) == Some(Out(s', Existing(JobForKey(s, s.calls[call].key).value))) && call !in s'.calls
    ensures RestLeaves(s, s.calls[call], newId, false, s')
  {
    s' := Leave(s, call);
    ops := [Lookup] + [];
    hide Serve, JobForKey;
    Serves(window, s, call, Lookup, Out(s', Existing(JobForKey(s, s.calls[call].key).value)), []);
  }

  lemma AfterPurge(window: real, s: State, call: nat, newId: JobId) returns (ops: seq<Op>, s': State)
    requires At(s, call, Cleaned) && newId !in s.issued && newId !in Slots(s, s.calls[call].proc)
    ensures var (c, reply) := (s.calls[call], Rest(s, s.calls[call], newId));
      && Serve(window, s, call, ops) == Some(Out(s', reply)) && call !in s'.calls
      && RestLeaves(s, c, newId, reply.Queued?, s')
  {
    var c := s.calls[call];
    hide Serve, RestLeaves;
    if c.key != "" && JobForKey(s, c.key).Some? {
      hide Step;
      ops, s' := Finds(window, s, call, newId);
    } else {
      var s1 := Goto(s, call, Missed);
      assert Step(window, s, Ask(call, Lookup)) == Some(Out(s1, Silent));
      hide Step;
      var rest;
      rest, s' := AfterLookup(window, s1, call, newId);
      MissedIsSame(s, call, newId, Rest(s, c, newId).Queued?, s');
      Serves(window, s, call, Lookup, Out(s1, Silent), rest);
      ops := [Lookup] + rest;
    }
  }

  /** Having looked changes neither the answer nor what is left. */
  lemma MissedIsSame(s: State, call: nat, newId: JobId, queued: bool, s': State)
    requires call in s.calls
    ensures var s1 := Goto(s, call, Missed);
      && Rest(s1, s1.calls[call], newId) == Rest(s, s.calls[call], newId)
      && (RestLeaves(s1, s1.calls[call], newId, queued, s') <==> RestLeaves(s, s.calls[call], newId, queued, s'))
  {
    var s1 := Goto(s, call, Missed);
    assert forall p :: Slots(s1, p) == Slots(s, p);
    assert s1.calls[call].key == s.calls[call].key && s1.calls[call].proc == s.calls[call].proc;
    hide Slots, Goto;
  }

  lemma Cleans(window: real, s: State, call: nat)
    requires At(s, call, Started)
    ensures var s1 := Goto(Purge(s, window, s.clock, s.clock), call, Cleaned);
      && s1.calls[call] == s.calls[call].(phase := Cleaned) && s1.clock == s.clock
      && (forall j :: j in s1.jobs <==> LiveJob(s, j)) && (forall j :: j in s1.jobs ==> s1.jobs[j] == s.jobs[j])
      && (forall k :: k in s1.keys <==> k in s.keys && s.keys[k].created >= s.clock - window)
      && (forall k :: k in s1.keys ==> s1.keys[k] == s.keys[k])
      && (forall p :: Slots(s1, p) == Slots(s, p))
  {
  }

  lemma AnswerIsRest(window: real, s: State, call: nat, newId: JobId)
    requires At(s, call, Started)
    ensures var s1 := Goto(Purge(s, window, s.clock, s.clock), call, Cleaned);
      Rest(s1, s1.calls[call], newId) == Answer(window, s, s.calls[call], newId)
  {
    Cleans(window, s, call);
    hide Goto, Purge, Slots;
  }

  lemma JobsGained(s: State, newId: JobId, queued: bool, purged: map<JobId, real>)
    requires newId !in s.jobs && JobsGain(s, newId, false, purged)
    ensures JobsGain(s, newId, queued, if queued then purged[newId := s.clock] else purged)
  {
  }

  lemma KeysGained(window: real, s: State, key: string, newId: JobId, mapped: bool, purged: map<string, KeyRow>)
    requires KeysGain(window, s, key, newId, false, purged)
    ensures KeysGain(window, s, key, newId, mapped, if mapped then purged[key := KeyRow(newId, s.clock)] else purged)
  {
  }

  lemma LeavesIsRest(window: real, s: State, call: nat, newId: JobId, queued: bool, s': State)
    requires At(s, call, Started) && newId !in s.jobs && queued == Answer(window, s, s.calls[call], newId).Queued?
    requires var s1 := Goto(Purge(s, window, s.clock, s.clock), call, Cleaned);
      RestLeaves(s1, s1.calls[call], newId, queued, s')
    ensures Leaves(window, s, s.calls[call], newId, s')
  {
    Cleans(window, s, call);
    var s1 := Goto(Purge(s, window, s.clock, s.clock), call, Cleaned);
    var key := s.calls[call].key;
    JobsGained(s, newId, queued, s1.jobs);
    KeysGained(window, s, key, newId, queued && key != "", s1.keys);
    hide Goto, Purge, Slots, Answer, KeysGain, JobsGain, LiveKey, LiveJob;
  }

  lemma NewIdIsUnused(window: real, start: real, acts: seq<Action>, s: State, newId: JobId)
    requires Run(window, start, acts) == Some(s) && newId !in s.issued
    ensures newId !in s.jobs && forall p :: newId !in Slots(s, p)
  {
    RunKeepsInv(window, start, acts, s);
    assert SlotOk(s, newId) && Story(s, newId);
  }

  /**
   Any request, in any reachable state, served alone: it is answered, with the
   unexpired job of its key if there is one, else 429 with five jobs active in its
   process, else 409 if its key is unexpired, else with a new job; and it leaves
   exactly the unexpired rows, and the rows and the slot of a new job.
   */
  lemma ServedAlone(window: real, start: real, acts: seq<Action>, s: State, call: nat, newId: JobId)
      returns (ops: seq<Op>, s': State)
    requires Run(window, start, acts) == Some(s) && At(s, call, Started) && newId !in s.issued
    ensures Serve(window, s, call, ops) == Some(Out(s', Answer(window, s, s.calls[call], newId))) && call !in s'.calls
    ensures Leaves(window, s, s.calls[call], newId, s')
  {
    NewIdIsUnused(window, start, acts, s, newId);
    var s1 := Goto(Purge(s, window, s.clock, s.clock), call, Cleaned);
    assert Step(window, s, Ask(call, Expire(s.clock, s.clock))) == Some(Out(s1, Silent));
    Cleans(window, s, call);
    hide Slots, Goto, Serve, Step, RestLeaves, Leaves, Answer, Rest, Purge, Run;
    var rest;
    rest, s' := AfterPurge(window, s1, call, newId);
    AnswerIsRest(window, s, call, newId);
    LeavesIsRest(window, s, call, newId, Answer(window, s, s.calls[call], newId).Queued?, s');
    Serves(window, s, call, Expire(s.clock, s.clock), Out(s1, Silent), rest);
    ops := [Expire(s.clock, s.clock)] + rest;
  }

  // ---------------------------------------------------------------- whatever else goes on

  /** The purge of any request, with any two clock readings in order: rows go exactly if they are too old by theirs. */
  lemma PurgedIff(window: real, s: State, call: nat, jobsNow: real, keysNow: real)
    requires At(s, call, Started)
    ensures var out := Step(window, s, Ask(call, Expire(jobsNow, keysNow)));
      && (out.Some? <==> jobsNow <= keysNow <= s.clock)
      && (out.Some? ==>
            var s' := out.value.state;
            && (forall j :: j in s'.jobs <==> j in s.jobs && jobsNow - s.jobs[j] <= 24.0)
            && (forall j :: j in s'.jobs ==> s'.jobs[j] == s.jobs[j])
            && (forall k :: k in s'.keys <==> k in s.keys && keysNow - s.keys[k].created <= window)
            && (forall k :: k in s'.keys ==> s'.keys[k] == s.keys[k])
            && At(s', call, Cleaned) && s'.active == s.active && s'.tasks == s.tasks)
  {
  }

  /** Without a key there is no race to lose. */
  predicate KeylessUnbeaten(s: State) {
    forall call :: call in s.calls && s.calls[call].phase.Beaten? ==> s.calls[call].key != ""
  }

  lemma StepKeepsKeyless(window: real, s: State, a: Action, out: Out)
    requires KeylessUnbeaten(s) && Step(window, s, a) == Some(out)
    ensures KeylessUnbeaten(out.state)
  {
    hide AskStep;
    if a.Ask? {
      AskMoves(window, s, a.call, a.op, out);
    }
  }

  /** A request in `calls` that has lost a race has a key, unless it had lost it before. */
  predicate NewlyBeatenHasKey(s: State, calls: map<nat, Call>) {
    forall c :: c in calls && calls[c].phase.Beaten? ==> calls[c].key != "" || (c in s.calls && calls[c] == s.calls[c])
  }

  lemma AskMoves(window: real, s: State, call: nat, op: Op, out: Out)
    requires call in s.calls && AskStep(window, s, call, op) == Some(out)
    ensures NewlyBeatenHasKey(s, out.state.calls)
  {
    hide NewlyBeatenHasKey, Slots, JobForKey;
    LeaveMoves(s, call);
    match op {
      case Expire(jobsNow, keysNow) => GotoMoves(s, call, Cleaned);
      case Lookup => GotoMoves(s, call, Missed);
      case Reserve(newId) => GotoMoves(s, call, Reserved(newId, s.clock));
      case Insert =>
        GotoMoves(s, call, Stored(s.calls[call].phase.reserved));
        if s.calls[call].key != "" {
          GotoMoves(s, call, Beaten);
        }
      case _ =>
    }
  }

  lemma GotoMoves(s: State, call: nat, phase: Phase)
    requires call in s.calls && (phase.Beaten? ==> s.calls[call].key != "")
    ensures NewlyBeatenHasKey(s, s.calls[call := s.calls[call].(phase := phase)])
  {
  }

  lemma LeaveMoves(s: State, call: nat)
    ensures NewlyBeatenHasKey(s, s.calls - {call})
  {
  }

  lemma {:induction false} RunKeepsKeyless(window: real, start: real, acts: seq<Action>, s: State)
    requires Run(window, start, acts) == Some(s)
    ensures KeylessUnbeaten(s)
    decreases |acts|
  {
    if acts != [] {
      hide Step, KeylessUnbeaten;
      var before := Run(window, start, acts[..|acts| - 1]).value;
      RunKeepsKeyless(window, start, acts[..|acts| - 1], before);
      StepKeepsKeyless(window, before, acts[|acts| - 1], Step(window, before, acts[|acts| - 1]).value);
    }
  }

  /** In every run a request without a key gets a new job, a 429 or a failure: never another's job, never a conflict. */
  lemma KeylessIsNeverShared(window: real, start: real, acts: seq<Action>, s: State, call: nat, op: Op, out: Out)
    requires Run(window, start, acts) == Some(s) && call in s.calls && s.calls[call].key == ""
    requires Step(window, s, Ask(call, op)) == Some(out)
    ensures out.reply.Silent? || out.reply.Queued? || out.reply.TooMany? || out.reply.Failed?
  {
    RunKeepsKeyless(window, start, acts, s);
  }

  /** Only accesses to the database fail: not the slot check, and not the lookup a request without a key skips. */
  lemma FailsIffAtDatabase(window: real, s: State, call: nat)
    requires call in s.calls
    ensures var (phase, out) := (s.calls[call].phase, Step(window, s, Ask(call, DatabaseError)));
      && (out.None? <==> phase.Missed? || phase.Stored? || (phase.Cleaned? && s.calls[call].key == ""))
      && (out.Some? ==> out.value.reply == Failed && call !in out.value.state.calls
                        && out.value.state.jobs == s.jobs && out.value.state.keys == s.keys)
  {
  }

  /** A crash loses what the process had in memory, and nothing else. */
  lemma CrashLosesMemoryOnly(window: real, s: State, p: nat)
    ensures var out := Step(window, s, Crash(p));
      && out.Some? && out.value.reply == Silent
      && var s' := out.value.state;
         && s'.jobs == s.jobs && s'.keys == s.keys && s'.clock == s.clock
         && Slots(s', p) == {} && (forall q :: q != p ==> Slots(s', q) == Slots(s, q))
         && (forall c :: c in s'.calls <==> c in s.calls && s.calls[c].proc != p)
         && (forall c :: c in s'.calls ==> s'.calls[c] == s.calls[c])
         && (forall j :: j in s'.tasks <==> j in s.tasks && s.tasks[j] != p)
         && (forall j :: j in s'.tasks ==> s'.tasks[j] == s.tasks[j])
  {
  }

  /** A finished task gives back its own slot and touches no other process, no table and no request. */
  lemma FinishReturnsSlot(window: real, start: real, acts: seq<Action>, s: State, job: JobId)
    requires Run(window, start, acts) == Some(s) && job in s.tasks
    ensures job in Slots(s, s.tasks[job]) && Step(window, s, FinishTask(job)).Some?
    ensures var s' := Step(window, s, FinishTask(job)).value.state;
      && |Slots(s', s.tasks[job])| == |Slots(s, s.tasks[job])| - 1
      && (forall p :: Slots(s', p) == Slots(s, p) - {job})
      && s'.jobs == s.jobs && s'.keys == s.keys && s'.calls == s.calls && s'.tasks == s.tasks - {job}
  {
    RunKeepsInv(window, start, acts, s);
    assert SlotOk(s, job);
    forall p | p != s.tasks[job] ensures job !in Slots(s, p) {
      assert job in Slots(s, p) ==> HeldBy(s, p, job, s.holder[job]);
    }
  }

  /** A task whose first update raises keeps its slot, and nothing is left to give it back. */
  lemma ErrorKeepsSlot(window: real, start: real, acts: seq<Action>, s: State, job: JobId)
    requires Run(window, start, acts) == Some(s) && job in s.tasks
    ensures Step(window, s, TaskError(job)).Some?
    ensures var s' := Step(window, s, TaskError(job)).value.state;
      && job in Slots(s', s.tasks[job]) && (forall p :: Slots(s', p) == Slots(s, p))
      && job !in s'.tasks && Step(window, s', FinishTask(job)).None?
      && s'.jobs == s.jobs && s'.keys == s.keys && s'.calls == s.calls
  {
    RunKeepsInv(window, start, acts, s);
    assert SlotOk(s, job);
  }
}
