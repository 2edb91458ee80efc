/**
 Idempotent batch-job creation of `api/batch_router.py`, run by any number of
 processes on one database.

 Each database transaction is one step, and so is each stretch of code between
 two of them: within a process a request handler has no await, so the slot check
 and the reservation are not separated.  Steps of different requests interleave
 in any order; any database access may raise (a racing process makes "database
 is locked" likely); and a process may crash between any two steps, which loses
 its memory and keeps the tables.  Times are in hours on one non-decreasing clock.
 */
module BatchJobs {
  import opened Wrappers

  type JobId = string

  const MAX_CONCURRENT: nat := 5
  const JOB_TTL: real := 24.0

  datatype KeyRow = KeyRow(job: JobId, created: real)

  /** Where a request handler stands. */
  datatype Phase =
    | Started                                     // nothing done yet
    | Cleaned                                     // expired rows deleted
    | Missed                                      // no job under the key
    | Reserved(reserved: JobId, stamp: real)      // slot taken
    | Stored(stored: JobId)                       // rows committed
    | Beaten                                      // the key was taken: rolled back, slot returned

  datatype Call = Call(proc: nat, key: string, phase: Phase)  // key "" is no Idempotency-Key header

  datatype Reply = Silent | Queued(queued: JobId) | Existing(existing: JobId) | TooMany | Conflict | Failed

  /** History: who a held slot belongs to. */
  datatype Holder = ByCall(call: nat) | ByTask | Nobody  // Nobody: leaked

  /** History: one committed insertion. */
  datatype Commit = Commit(key: string, job: JobId, created: real, at: real)

  datatype State = State(
    jobs: map<JobId, real>,           // batch_jobs: creation time
    keys: map<string, KeyRow>,        // batch_idempotency
    active: map<nat, set<JobId>>,     // _active_jobs of each process
    calls: map<nat, Call>,            // requests in flight
    tasks: map<JobId, nat>,           // background tasks not finished, with their process
    clock: real,
    // history
    issued: set<JobId>, commits: seq<Commit>, scheduled: seq<JobId>, orphaned: set<JobId>,
    holder: map<JobId, Holder>, leaked: map<JobId, nat>)  // leaked: slots kept after an error, with their process

  /** What a request handler does next. */
  datatype Op =
    | Expire(jobsNow: real, keysNow: real)  // the two clock readings of _expire_old_jobs
    | Lookup
    | Reserve(newId: JobId)
    | Insert
    | Schedule
    | Reread
    | DatabaseError                         // the next database access raises

  datatype Action =
    | Tick(now: real)
    | Begin(newCall: nat, at: nat, key: string)
    | Ask(call: nat, op: Op)
    | FinishTask(done: JobId)
    | TaskError(failed: JobId)              // the task's first update raises, before its try block
    | Crash(proc: nat)

  datatype Out = Out(state: State, reply: Reply)

  // ---------------------------------------------------------------- steps

  function Init(start: real): State { State(map[], map[], map[], map[], map[], start, {}, [], [], {}, map[], map[]) }

  function Slots(s: State, proc: nat): set<JobId> { if proc in s.active then s.active[proc] else {} }

  predicate At(s: State, call: nat, phase: Phase) { call in s.calls && s.calls[call].phase == phase }

  function Goto(s: State, call: nat, phase: Phase): (s': State)
    requires call in s.calls
    ensures s' == s.(calls := s'.calls)
  {
    s.(calls := s.calls[call := s.calls[call].(phase := phase)])
  }

  function Leave(s: State, call: nat): (s': State)
    ensures s' == s.(calls := s'.calls)
  {
    s.(calls := s.calls - {call})
  }

  /** `_job_for_key`: the join of both tables. */
  function JobForKey(s: State, key: string): Option<JobId> {
    if key in s.keys && s.keys[key].job in s.jobs then Some(s.keys[key].job) else None
  }

  /** `_expire_old_jobs`, one transaction. */
  function Purge(s: State, window: real, jobsNow: real, keysNow: real): (s': State)
    ensures s' == s.(jobs := s'.jobs, keys := s'.keys)
  {
    s.(jobs := map j | j in s.jobs && s.jobs[j] >= jobsNow - JOB_TTL :: s.jobs[j],
       keys := map k | k in s.keys && s.keys[k].created >= keysNow - window :: s.keys[k])
  }

  function TakeSlot(s: State, call: nat, job: JobId): (s': State)
    requires call in s.calls
    ensures s' == s.(calls := s'.calls, active := s'.active, issued := s'.issued, holder := s'.holder)
  {
    var proc := s.calls[call].proc;
    Goto(s, call, Reserved(job, s.clock)).(
      active := s.active[proc := Slots(s, proc) + {job}],
      issued := s.issued + {job}, holder := s.holder[job := ByCall(call)])
  }

  function DropSlot(s: State, proc: nat, job: JobId): (s': State)
    ensures s' == s.(active := s'.active, holder := s'.holder)
  {
    s.(active := s.active[proc := Slots(s, proc) - {job}], holder := s.holder - {job})
  }

  /** Both rows inserted and committed. */
  function Store(s: State, call: nat, job: JobId, created: real): (s': State)
    requires call in s.calls
    ensures s' == s.(calls := s'.calls, jobs := s'.jobs, keys := s'.keys, commits := s'.commits)
  {
    var key := s.calls[call].key;
    Goto(s, call, Stored(job)).(
      jobs := s.jobs[job := created],
      keys := if key == "" then s.keys else s.keys[key := KeyRow(job, created)],
      commits := s.commits + [Commit(key, job, created, s.clock)])
  }

  function Enqueue(s: State, call: nat, job: JobId): (s': State)
    requires call in s.calls
    ensures s' == s.(calls := s'.calls, tasks := s'.tasks, scheduled := s'.scheduled, holder := s'.holder)
  {
    Leave(s, call).(tasks := s.tasks[job := s.calls[call].proc], scheduled := s.scheduled + [job],
                    holder := s.holder[job := ByTask])
  }

  /** Nobody gives the slot back. */
  function LeakSlot(s: State, proc: nat, job: JobId): (s': State)
    ensures s' == s.(holder := s'.holder, leaked := s'.leaked)
  {
    s.(holder := s.holder[job := Nobody], leaked := s.leaked[job := proc])
  }

  /** Is the request about to use the database? */
  predicate AtDatabase(c: Call) {
    c.phase.Started? || (c.phase.Cleaned? && c.key != "") || c.phase.Reserved? || c.phase.Beaten?
  }

  /** The stored jobs whose task dies with the process before it was scheduled. */
  function Unscheduled(s: State, proc: nat): set<JobId> {
    set c | c in s.calls && s.calls[c].proc == proc && s.calls[c].phase.Stored? :: s.calls[c].phase.stored
  }

  function Kill(s: State, proc: nat): (s': State)
    ensures s' == s.(active := s'.active, calls := s'.calls, tasks := s'.tasks, orphaned := s'.orphaned,
                     holder := s'.holder, leaked := s'.leaked)
  {
    s.(active := s.active - {proc},
       calls := map c | c in s.calls && s.calls[c].proc != proc :: s.calls[c],
       tasks := map j | j in s.tasks && s.tasks[j] != proc :: s.tasks[j],
       orphaned := s.orphaned + Unscheduled(s, proc), holder := s.holder - Slots(s, proc),
       leaked := map j | j in s.leaked && s.leaked[j] != proc :: s.leaked[j])
  }

  function LookedUp(s: State, call: nat): (out: Out)
    requires call in s.calls
    ensures out.state == s.(calls := out.state.calls)
  {
    var key := s.calls[call].key;
    if key != "" && JobForKey(s, key).Some? then Out(Leave(s, call), Existing(JobForKey(s, key).value))
    else Out(Goto(s, call, Missed), Silent)
  }

  /** One step of a request handler; None when it is not enabled. */
  function AskStep(window: real, s: State, call: nat, op: Op): Option<Out>
    requires call in s.calls
  {
    var c := s.calls[call];
    match op
    case Expire(jobsNow, keysNow) =>
      if !c.phase.Started? || !(jobsNow <= keysNow <= s.clock) then None
      else Some(Out(Goto(Purge(s, window, jobsNow, keysNow), call, Cleaned), Silent))
    case Lookup =>
      if !c.phase.Cleaned? then None
      else Some(LookedUp(s, call))
    case Reserve(newId) =>
      if !c.phase.Missed? || newId in s.issued then None
      else if |Slots(s, c.proc)| >= MAX_CONCURRENT then Some(Out(Leave(s, call), TooMany))
      else Some(Out(TakeSlot(s, call, newId), Silent))
    case Insert =>
      if !c.phase.Reserved? then None
      else if c.key != "" && c.key in s.keys then Some(Out(Goto(DropSlot(s, c.proc, c.phase.reserved), call, Beaten), Silent))
      else Some(Out(Store(s, call, c.phase.reserved, c.phase.stamp), Silent))
    case Schedule =>
      if !c.phase.Stored? then None else Some(Out(Enqueue(s, call, c.phase.stored), Queued(c.phase.stored)))
    case Reread =>
      if !c.phase.Beaten? then None
      else
        var found := JobForKey(s, c.key);
        Some(Out(Leave(s, call), if found.Some? then Existing(found.value) else Conflict))
    case DatabaseError =>
      if !AtDatabase(c) then None
      else if c.phase.Reserved? then Some(Out(LeakSlot(Leave(s, call), c.proc, c.phase.reserved), Failed))
      else Some(Out(Leave(s, call), Failed))
  }

  /** One step; None when the action is not enabled. */
  function Step(window: real, s: State, a: Action): Option<Out> {
    match a
    case Tick(now) => if now >= s.clock then Some(Out(s.(clock := now), Silent)) else None
    case Begin(call, proc, key) =>
      if call in s.calls then None else Some(Out(s.(calls := s.calls[call := Call(proc, key, Started)]), Silent))
    case Ask(call, op) => if call in s.calls then AskStep(window, s, call, op) else None
    case FinishTask(job) =>
      if job !in s.tasks then None
      else Some(Out(DropSlot(s, s.tasks[job], job).(tasks := s.tasks - {job}), Silent))
    case TaskError(job) =>
      if job !in s.tasks then None
      else Some(Out(LeakSlot(s.(tasks := s.tasks - {job}), s.tasks[job], job), Silent))
    case Crash(proc) => Some(Out(Kill(s, proc), Silent))
  }

  function Run(window: real, start: real, acts: seq<Action>): Option<State> {
    if acts == [] then Some(Init(start))
    else
      match Run(window, start, acts[..|acts| - 1])
      case None => None
      case Some(s) =>
        match Step(window, s, acts[|acts| - 1])
        case None => None
        case Some(out) => Some(out.state)
  }

  // ---------------------------------------------------------------- the tables

  /** Every committed row is there until it is too old, and nothing else is. */
  ghost predicate JobRows(s: State) {
    && (forall i :: 0 <= i < |s.commits| ==> JobRowOk(s, s.commits[i]))
    && (forall j :: j in s.jobs ==> HasJob(s.commits, j))
  }

  predicate JobRowOk(s: State, c: Commit) {
    (c.job in s.jobs && s.jobs[c.job] == c.created) || c.created < s.clock - JOB_TTL
  }

  predicate HasJob(commits: seq<Commit>, job: JobId) { exists i :: 0 <= i < |commits| && commits[i].job == job }

  ghost predicate KeyRows(window: real, s: State) {
    && (forall i :: 0 <= i < |s.commits| ==> KeyRowOk(window, s, s.commits[i]))
    && (forall k :: k in s.keys ==> k != "" && HasKey(s.commits, k, s.keys[k]))
  }

  predicate KeyRowOk(window: real, s: State, c: Commit) {
    c.key == "" || (c.key in s.keys && s.keys[c.key] == KeyRow(c.job, c.created)) || c.created < s.clock - window
  }

  predicate HasKey(commits: seq<Commit>, key: string, row: KeyRow) {
    exists i :: 0 <= i < |commits| && commits[i].key == key && commits[i].job == row.job && commits[i].created == row.created
  }

  /** A key is used again only after the window of its earlier use has passed. */
  ghost predicate Spaced(window: real, s: State) {
    && (forall i :: 0 <= i < |s.commits| ==> s.commits[i].at <= s.clock)
    && forall i, j :: 0 <= i < j < |s.commits| && s.commits[i].key == s.commits[j].key != "" ==>
         s.commits[i].created < s.commits[j].at - window
  }

  ghost predicate Tables(window: real, s: State) { JobRows(s) && KeyRows(window, s) && Spaced(window, s) }

  lemma TablesInit(window: real, start: real)
    ensures Tables(window, Init(start))
  {
  }

  /** Steps that leave both tables alone. */
  lemma TablesFrame(window: real, s: State, s': State)
    requires Tables(window, s)
    requires s'.jobs == s.jobs && s'.keys == s.keys && s'.commits == s.commits && s.clock <= s'.clock
    ensures Tables(window, s')
  {
  }

  lemma PurgeKeepsTables(window: real, s: State, jobsNow: real, keysNow: real)
    requires Tables(window, s) && jobsNow <= keysNow <= s.clock
    ensures Tables(window, Purge(s, window, jobsNow, keysNow))
  {
    hide HasKey, HasJob;
    var s' := Purge(s, window, jobsNow, keysNow);
    forall i | 0 <= i < |s'.commits| ensures JobRowOk(s', s'.commits[i]) && KeyRowOk(window, s', s'.commits[i]) {
      assert JobRowOk(s, s.commits[i]) && KeyRowOk(window, s, s.commits[i]);
    }
  }

  lemma HistoryGrows(commits: seq<Commit>, c: Commit)
    ensures forall j :: HasJob(commits, j) ==> HasJob(commits + [c], j)
    ensures forall k, row :: HasKey(commits, k, row) ==> HasKey(commits + [c], k, row)
    ensures HasJob(commits + [c], c.job) && HasKey(commits + [c], c.key, KeyRow(c.job, c.created))
  {
    var all := commits + [c];
    assert all[|commits|] == c;
    forall j | HasJob(commits, j) ensures HasJob(all, j) {
      var i :| 0 <= i < |commits| && commits[i].job == j;
      assert all[i].job == j;
    }
    forall k, row | HasKey(commits, k, row) ensures HasKey(all, k, row) {
      var i :| 0 <= i < |commits| && commits[i].key == k && commits[i].job == row.job && commits[i].created == row.created;
      assert all[i] == commits[i];
    }
  }

  lemma StoreKeepsJobRows(s: State, call: nat, job: JobId, created: real)
    requires JobRows(s) && call in s.calls && !HasJob(s.commits, job)
    ensures JobRows(Store(s, call, job, created))
  {
    var s' := Store(s, call, job, created);
    HistoryGrows(s.commits, Commit(s.calls[call].key, job, created, s.clock));
    forall i | 0 <= i < |s'.commits| ensures JobRowOk(s', s'.commits[i]) {
      if i < |s.commits| {
        assert JobRowOk(s, s.commits[i]) && s.commits[i].job != job;
      }
    }
  }

  lemma StoreKeepsKeyRows(window: real, s: State, call: nat, job: JobId, created: real)
    requires KeyRows(window, s) && call in s.calls && (s.calls[call].key == "" || s.calls[call].key !in s.keys)
    ensures KeyRows(window, Store(s, call, job, created))
  {
    hide HasKey;
    var s' := Store(s, call, job, created);
    HistoryGrows(s.commits, Commit(s.calls[call].key, job, created, s.clock));
    forall i | 0 <= i < |s'.commits| ensures KeyRowOk(window, s', s'.commits[i]) {
      if i < |s.commits| {
        assert KeyRowOk(window, s, s.commits[i]);
      }
    }
  }

  /** The commit found no row under its key, so earlier uses of the key have aged out. */
  lemma StoreKeepsSpacing(window: real, s: State, call: nat, job: JobId, created: real)
    requires KeyRows(window, s) && Spaced(window, s)
    requires call in s.calls && (s.calls[call].key == "" || s.calls[call].key !in s.keys)
    ensures Spaced(window, Store(s, call, job, created))
  {
  }

  // ---------------------------------------------------------------- slots

  predicate Holds(c: Call, job: JobId) {
    (c.phase.Reserved? && c.phase.reserved == job) || (c.phase.Stored? && c.phase.stored == job)
  }

  predicate CallHolds(s: State, c: nat, job: JobId) { c in s.calls && Holds(s.calls[c], job) }

  predicate HeldBy(s: State, p: nat, j: JobId, h: Holder) {
    match h
    case ByCall(c) => CallHolds(s, c, j) && s.calls[c].proc == p
    case ByTask => j in s.tasks && s.tasks[j] == p
    case Nobody => j in s.leaked && s.leaked[j] == p
  }

  /**
   A slot is held for a job exactly by the process of its one reserved or stored
   request, of its unfinished task, or of the error that leaked it.
   */
  ghost predicate SlotOk(s: State, j: JobId) {
    && (forall p :: j in Slots(s, p) ==> j in s.holder && HeldBy(s, p, j, s.holder[j]))
    && (forall c :: CallHolds(s, c, j) ==> j in Slots(s, s.calls[c].proc) && j in s.holder && s.holder[j] == ByCall(c))
    && (j in s.tasks ==> j in Slots(s, s.tasks[j]) && j in s.holder && s.holder[j] == ByTask)
    && (j in s.leaked ==> j in Slots(s, s.leaked[j]) && j in s.holder && s.holder[j] == Nobody)
    && (j in s.holder ==> j in s.issued)
  }

  /** Nothing about `j`'s slot differs between the two states. */
  ghost predicate SameSlot(s: State, s': State, j: JobId) {
    && (forall p :: j in Slots(s', p) <==> j in Slots(s, p))
    && (forall c :: CallHolds(s', c, j) <==> CallHolds(s, c, j))
    && (forall c :: CallHolds(s', c, j) ==> s'.calls[c].proc == s.calls[c].proc)
    && (j in s'.tasks <==> j in s.tasks) && (j in s.tasks ==> s'.tasks[j] == s.tasks[j])
    && (j in s'.holder <==> j in s.holder) && (j in s.holder ==> s'.holder[j] == s.holder[j])
    && (j in s'.leaked <==> j in s.leaked) && (j in s.leaked ==> s'.leaked[j] == s.leaked[j])
    && s.issued <= s'.issued
  }

  lemma SameSlotKeeps(s: State, s': State, j: JobId)
    requires SlotOk(s, j) && SameSlot(s, s', j)
    ensures SlotOk(s', j)
  {
  }

  /** Steps of a request that holds no slot before or after. */
  lemma QuietKeepsSlot(s: State, s': State, call: nat, j: JobId)
    requires SlotOk(s, j)
    requires s' == s.(calls := s'.calls, jobs := s'.jobs, keys := s'.keys)
    requires s.calls - {call} == s'.calls - {call}
    requires !CallHolds(s, call, j) && !CallHolds(s', call, j)
    ensures SlotOk(s', j)
  {
    forall c ensures CallHolds(s', c, j) <==> CallHolds(s, c, j)
      ensures CallHolds(s', c, j) ==> s'.calls[c] == s.calls[c]
    {
      if c != call {
        assert c in s.calls <==> c in s.calls - {call};
        assert c in s'.calls <==> c in s'.calls - {call};
        assert c in s.calls ==> s.calls[c] == (s.calls - {call})[c] == (s'.calls - {call})[c];
      }
    }
    SameSlotKeeps(s, s', j);
  }

  /** Other processes and other requests keep their part in `j`'s slot. */
  lemma Untouched(s: State, s': State, proc: nat, call: nat, j: JobId)
    requires s.calls - {call} == s'.calls - {call}
    requires forall p :: p != proc ==> Slots(s, p) == Slots(s', p)
    ensures forall p :: p != proc ==> (j in Slots(s', p) <==> j in Slots(s, p))
    ensures forall c :: c != call ==> (CallHolds(s', c, j) <==> CallHolds(s, c, j))
  {
    forall c | c != call ensures CallHolds(s', c, j) <==> CallHolds(s, c, j) {
      assert c in s.calls <==> c in s.calls - {call};
      assert c in s'.calls <==> c in s'.calls - {call};
      assert c in s.calls ==> s.calls[c] == (s.calls - {call})[c] == (s'.calls - {call})[c];
    }
  }

  lemma TakeKeepsSlot(s: State, call: nat, job: JobId, j: JobId)
    requires SlotOk(s, j) && At(s, call, Missed) && job !in s.issued
    ensures SlotOk(TakeSlot(s, call, job), j)
  {
    var s' := TakeSlot(s, call, job);
    if j != job {
      SameSlotKeeps(s, s', j);
    } else {
      Untouched(s, s', s.calls[call].proc, call, j);
    }
  }

  lemma BeatenKeepsSlot(s: State, call: nat, j: JobId)
    requires SlotOk(s, j) && call in s.calls && s.calls[call].phase.Reserved?
    ensures SlotOk(Goto(DropSlot(s, s.calls[call].proc, s.calls[call].phase.reserved), call, Beaten), j)
  {
    var job := s.calls[call].phase.reserved;
    var s' := Goto(DropSlot(s, s.calls[call].proc, job), call, Beaten);
    if j != job {
      SameSlotKeeps(s, s', j);
    } else {
      assert CallHolds(s, call, job);
      Untouched(s, s', s.calls[call].proc, call, j);
    }
  }

  lemma StoreKeepsSlot(s: State, call: nat, j: JobId)
    requires SlotOk(s, j) && call in s.calls && s.calls[call].phase.Reserved?
    ensures SlotOk(Store(s, call, s.calls[call].phase.reserved, s.calls[call].phase.stamp), j)
  {
    SameSlotKeeps(s, Store(s, call, s.calls[call].phase.reserved, s.calls[call].phase.stamp), j);
  }

  lemma EnqueueKeepsSlot(s: State, call: nat, j: JobId)
    requires SlotOk(s, j) && call in s.calls && s.calls[call].phase.Stored?
    ensures SlotOk(Enqueue(s, call, s.calls[call].phase.stored), j)
  {
    var job := s.calls[call].phase.stored;
    var s' := Enqueue(s, call, job);
    if j != job {
      SameSlotKeeps(s, s', j);
    } else {
      assert CallHolds(s, call, job);
      Untouched(s, s', s.calls[call].proc, call, j);
    }
  }

  lemma FinishKeepsSlot(s: State, job: JobId, j: JobId)
    requires SlotOk(s, j) && job in s.tasks
    ensures SlotOk(DropSlot(s, s.tasks[job], job).(tasks := s.tasks - {job}), j)
  {
    var s' := DropSlot(s, s.tasks[job], job).(tasks := s.tasks - {job});
    if j != job {
      SameSlotKeeps(s, s', j);
    } else {
      forall p ensures j !in Slots(s', p) {
        assert p != s.tasks[job] ==> Slots(s', p) == Slots(s, p);
      }
      forall c ensures !CallHolds(s', c, j) {
        assert !CallHolds(s, c, j);
      }
    }
  }

  lemma ErrorKeepsSlot(s: State, call: nat, j: JobId)
    requires SlotOk(s, j) && call in s.calls && s.calls[call].phase.Reserved?
    ensures SlotOk(LeakSlot(Leave(s, call), s.calls[call].proc, s.calls[call].phase.reserved), j)
  {
    var job := s.calls[call].phase.reserved;
    var s' := LeakSlot(Leave(s, call), s.calls[call].proc, job);
    if j != job {
      SameSlotKeeps(s, s', j);
    } else {
      assert CallHolds(s, call, job);
      Untouched(s, s', s.calls[call].proc, call, j);
    }
  }

  lemma TaskErrorKeepsSlot(s: State, job: JobId, j: JobId)
    requires SlotOk(s, j) && job in s.tasks
    ensures SlotOk(LeakSlot(s.(tasks := s.tasks - {job}), s.tasks[job], job), j)
  {
    var s' := LeakSlot(s.(tasks := s.tasks - {job}), s.tasks[job], job);
    if j != job {
      SameSlotKeeps(s, s', j);
    } else {
      forall p ensures j in Slots(s', p) <==> p == s.tasks[job] {
        assert j in Slots(s, p) ==> HeldBy(s, p, j, s.holder[j]);
      }
      forall c ensures !CallHolds(s', c, j) {
        assert !CallHolds(s, c, j);
      }
    }
  }

  lemma KillKeepsSlot(s: State, proc: nat, j: JobId)
    requires SlotOk(s, j)
    ensures SlotOk(Kill(s, proc), j)
  {
    var s' := Kill(s, proc);
    if j !in Slots(s, proc) {
      SameSlotKeeps(s, s', j);
    } else {
      forall p ensures j !in Slots(s', p) {
        assert j in Slots(s, p) ==> HeldBy(s, p, j, s.holder[j]);
      }
      forall c ensures !CallHolds(s', c, j) {
        assert CallHolds(s', c, j) ==> CallHolds(s, c, j);
      }
    }
  }

  /** No process exceeds the cap. */
  ghost predicate Capped(s: State) { forall p :: |Slots(s, p)| <= MAX_CONCURRENT }

  lemma TakeCap(s: State, call: nat, job: JobId, p: nat)
    requires call in s.calls
    ensures Slots(TakeSlot(s, call, job), p) == if p == s.calls[call].proc then Slots(s, p) + {job} else Slots(s, p)
  {
  }

  lemma DropCap(s: State, proc: nat, job: JobId, p: nat)
    ensures Slots(DropSlot(s, proc, job), p) <= Slots(s, p)
  {
  }

  lemma SameActive(s: State, s': State, p: nat)
    requires s'.active == s.active
    ensures Slots(s', p) == Slots(s, p)
  {
  }

  /** A step gives a process slots only if it had room. */
  lemma AskKeepsCap(window: real, s: State, call: nat, op: Op, out: Out, p: nat)
    requires call in s.calls && AskStep(window, s, call, op) == Some(out)
    ensures Slots(out.state, p) <= Slots(s, p) || (|Slots(s, p)| < MAX_CONCURRENT && |Slots(out.state, p)| <= |Slots(s, p)| + 1)
  {
    hide Slots, Purge, LeakSlot, Enqueue, Store, Leave, Goto, LookedUp, JobForKey, TakeSlot, DropSlot;
    var c := s.calls[call];
    if op.Reserve? {
      TakeCap(s, call, op.newId, p);
      if out.state.active == s.active {
        SameActive(s, out.state, p);
      }
    } else if op.Insert? && c.key != "" && c.key in s.keys {
      var dropped := DropSlot(s, c.proc, c.phase.reserved);
      DropCap(s, c.proc, c.phase.reserved, p);
      SameActive(dropped, out.state, p);
    } else {
      SameActive(s, out.state, p);
    }
  }

  lemma StepKeepsCap(window: real, s: State, a: Action, out: Out)
    requires Step(window, s, a) == Some(out) && Capped(s)
    ensures Capped(out.state)
  {
    hide AskStep, LeakSlot, Unscheduled;
    var s' := out.state;
    forall p ensures |Slots(s', p)| <= MAX_CONCURRENT {
      if a.Ask? {
        AskKeepsCap(window, s, a.call, a.op, out, p);
      }
      if Slots(s', p) <= Slots(s, p) {
        Fewer(Slots(s', p), Slots(s, p));
      }
    }
  }

  lemma {:induction false} Fewer(a: set<JobId>, b: set<JobId>)
    requires a <= b
    ensures |a| <= |b|
  {
    assert b == a + (b - a);
  }

  // ---------------------------------------------------------------- jobs and their tasks

  predicate Pending(s: State, j: JobId) { j in s.holder && s.holder[j].ByCall? && At(s, s.holder[j].call, Stored(j)) }

  /**
   A committed job is scheduled, or about to be, or was orphaned by a crash in
   between: exactly one of the three.  A job that never committed is none of them.
   */
  ghost predicate Story(s: State, j: JobId) {
    && (HasJob(s.commits, j) ==> j in s.issued && (j in s.scheduled || j in s.orphaned || Pending(s, j)))
    && (j in s.scheduled || j in s.orphaned ==> HasJob(s.commits, j) && !(j in s.holder && s.holder[j].ByCall?))
    && (j in s.orphaned ==> j !in s.scheduled)
    && (forall c :: CallHolds(s, c, j) ==> (s.calls[c].phase.Stored? <==> HasJob(s.commits, j)))
    && (j in s.tasks ==> j in s.scheduled)
  }

  ghost predicate SameStory(s: State, s': State, j: JobId) {
    && (HasJob(s'.commits, j) <==> HasJob(s.commits, j))
    && (j in s'.scheduled <==> j in s.scheduled)
    && (j in s'.orphaned <==> j in s.orphaned)
    && (forall c :: CallHolds(s', c, j) && CallHolds(s, c, j) ==> s'.calls[c].phase == s.calls[c].phase)
  }

  lemma SameStoryKeeps(s: State, s': State, j: JobId)
    requires SlotOk(s, j) && Story(s, j) && SameSlot(s, s', j) && SameStory(s, s', j)
    ensures Story(s', j)
  {
  }

  lemma QuietKeepsStory(s: State, s': State, call: nat, j: JobId)
    requires SlotOk(s, j) && Story(s, j)
    requires s' == s.(calls := s'.calls, jobs := s'.jobs, keys := s'.keys)
    requires s.calls - {call} == s'.calls - {call}
    requires !CallHolds(s, call, j) && !CallHolds(s', call, j)
    ensures Story(s', j)
  {
    forall c ensures CallHolds(s', c, j) <==> CallHolds(s, c, j)
      ensures CallHolds(s', c, j) ==> s'.calls[c] == s.calls[c]
    {
      if c != call {
        assert c in s.calls <==> c in s.calls - {call};
        assert c in s'.calls <==> c in s'.calls - {call};
        assert c in s.calls ==> s.calls[c] == (s.calls - {call})[c] == (s'.calls - {call})[c];
      }
    }
    SameStoryKeeps(s, s', j);
  }

  lemma TakeKeepsStory(s: State, call: nat, job: JobId, j: JobId)
    requires SlotOk(s, j) && Story(s, j) && At(s, call, Missed) && job !in s.issued
    ensures Story(TakeSlot(s, call, job), j)
  {
  }

  lemma BeatenKeepsStory(s: State, call: nat, j: JobId)
    requires SlotOk(s, j) && Story(s, j) && call in s.calls && s.calls[call].phase.Reserved?
    ensures Story(Goto(DropSlot(s, s.calls[call].proc, s.calls[call].phase.reserved), call, Beaten), j)
  {
  }

  lemma CommitAdds(commits: seq<Commit>, c: Commit, j: JobId)
    ensures HasJob(commits + [c], j) <==> HasJob(commits, j) || j == c.job
  {
    HistoryGrows(commits, c);
  }

  lemma StoreKeepsStory(s: State, call: nat, j: JobId)
    requires SlotOk(s, j) && Story(s, j) && call in s.calls && s.calls[call].phase.Reserved?
    ensures Story(Store(s, call, s.calls[call].phase.reserved, s.calls[call].phase.stamp), j)
  {
    hide HasJob;
    var (job, created) := (s.calls[call].phase.reserved, s.calls[call].phase.stamp);
    var s' := Store(s, call, job, created);
    CommitAdds(s.commits, Commit(s.calls[call].key, job, created, s.clock), j);
    if j != job {
      SameStoryKeeps(s, s', j);
    } else {
      assert CallHolds(s, call, job);
      Untouched(s, s', s.calls[call].proc, call, j);
    }
  }

  lemma EnqueueKeepsStory(s: State, call: nat, j: JobId)
    requires SlotOk(s, j) && Story(s, j) && call in s.calls && s.calls[call].phase.Stored?
    ensures Story(Enqueue(s, call, s.calls[call].phase.stored), j)
  {
  }

  lemma FinishKeepsStory(s: State, job: JobId, j: JobId)
    requires SlotOk(s, j) && Story(s, j) && job in s.tasks
    ensures Story(DropSlot(s, s.tasks[job], job).(tasks := s.tasks - {job}), j)
  {
  }

  lemma ErrorKeepsStory(s: State, call: nat, j: JobId)
    requires SlotOk(s, j) && Story(s, j) && call in s.calls && s.calls[call].phase.Reserved?
    ensures Story(LeakSlot(Leave(s, call), s.calls[call].proc, s.calls[call].phase.reserved), j)
  {
    hide HasJob;
    var job := s.calls[call].phase.reserved;
    var s' := LeakSlot(Leave(s, call), s.calls[call].proc, job);
    if j != job {
      SameStoryKeeps(s, s', j);
    } else {
      assert CallHolds(s, call, job);
      Untouched(s, s', s.calls[call].proc, call, j);
    }
  }

  lemma TaskErrorKeepsStory(s: State, job: JobId, j: JobId)
    requires SlotOk(s, j) && Story(s, j) && job in s.tasks
    ensures Story(LeakSlot(s.(tasks := s.tasks - {job}), s.tasks[job], job), j)
  {
    hide HasJob;
    var s' := LeakSlot(s.(tasks := s.tasks - {job}), s.tasks[job], job);
    if j != job {
      SameStoryKeeps(s, s', j);
    } else {
      forall c ensures !CallHolds(s', c, j) {
        assert !CallHolds(s, c, j);
      }
    }
  }

  lemma KillKeepsStory(s: State, proc: nat, j: JobId)
    requires SlotOk(s, j) && Story(s, j)
    ensures Story(Kill(s, proc), j)
  {
  }

  ghost predicate Once(s: State) {
    && (forall i, k :: 0 <= i < k < |s.scheduled| ==> s.scheduled[i] != s.scheduled[k])
    && (forall i, k :: 0 <= i < k < |s.commits| ==> s.commits[i].job != s.commits[k].job)
  }

  // ---------------------------------------------------------------- every run

  ghost predicate JobsOk(s: State) { forall j :: SlotOk(s, j) && Story(s, j) }

  ghost predicate Inv(window: real, s: State) { Tables(window, s) && Capped(s) && JobsOk(s) && Once(s) }

  lemma AskKeepsJob(window: real, s: State, call: nat, op: Op, out: Out, j: JobId)
    requires call in s.calls && AskStep(window, s, call, op) == Some(out) && SlotOk(s, j) && Story(s, j)
    ensures SlotOk(out.state, j) && Story(out.state, j)
  {
    hide SlotOk, Story, HasJob;
    var c := s.calls[call];
    if op.Reserve? && |Slots(s, c.proc)| < MAX_CONCURRENT {
      TakeKeepsSlot(s, call, op.newId, j);
      TakeKeepsStory(s, call, op.newId, j);
    } else if op.Insert? && c.key != "" && c.key in s.keys {
      BeatenKeepsSlot(s, call, j);
      BeatenKeepsStory(s, call, j);
    } else if op.Insert? {
      StoreKeepsSlot(s, call, j);
      StoreKeepsStory(s, call, j);
    } else if op.Schedule? {
      EnqueueKeepsSlot(s, call, j);
      EnqueueKeepsStory(s, call, j);
    } else if op.DatabaseError? && c.phase.Reserved? {
      ErrorKeepsSlot(s, call, j);
      ErrorKeepsStory(s, call, j);
    } else {
      QuietKeepsSlot(s, out.state, call, j);
      QuietKeepsStory(s, out.state, call, j);
    }
  }

  lemma StepKeepsJob(window: real, s: State, a: Action, out: Out, j: JobId)
    requires Step(window, s, a) == Some(out) && SlotOk(s, j) && Story(s, j)
    ensures SlotOk(out.state, j) && Story(out.state, j)
  {
    hide SlotOk, Story, HasJob, AskStep;
    match a
    case Tick(now) =>
      ClockKeepsJob(s, now, j);
    case Begin(call, _, _) =>
      QuietKeepsSlot(s, out.state, call, j);
      QuietKeepsStory(s, out.state, call, j);
    case Ask(call, op) =>
      AskKeepsJob(window, s, call, op, out, j);
    case FinishTask(job) =>
      FinishKeepsSlot(s, job, j);
      FinishKeepsStory(s, job, j);
    case TaskError(job) =>
      TaskErrorKeepsSlot(s, job, j);
      TaskErrorKeepsStory(s, job, j);
    case Crash(proc) =>
      KillKeepsSlot(s, proc, j);
      KillKeepsStory(s, proc, j);
  }

  lemma ClockKeepsJob(s: State, now: real, j: JobId)
    requires SlotOk(s, j) && Story(s, j)
    ensures SlotOk(s.(clock := now), j) && Story(s.(clock := now), j)
  {
    SameSlotKeeps(s, s.(clock := now), j);
    SameStoryKeeps(s, s.(clock := now), j);
  }

  /** What a request about to insert knows: its job id has never been committed. */
  lemma ReservedIsNew(s: State, call: nat)
    requires JobsOk(s) && call in s.calls && s.calls[call].phase.Reserved?
    ensures !HasJob(s.commits, s.calls[call].phase.reserved)
  {
    var job := s.calls[call].phase.reserved;
    assert CallHolds(s, call, job) && Story(s, job);
  }

  lemma StoredIsUnscheduled(s: State, call: nat)
    requires JobsOk(s) && call in s.calls && s.calls[call].phase.Stored?
    ensures s.calls[call].phase.stored !in s.scheduled && HasJob(s.commits, s.calls[call].phase.stored)
  {
    var job := s.calls[call].phase.stored;
    assert CallHolds(s, call, job) && Story(s, job) && SlotOk(s, job);
  }

  /** The insertion goes through. */
  predicate Stores(s: State, a: Action) {
    a.Ask? && a.op.Insert? && a.call in s.calls && s.calls[a.call].phase.Reserved?
    && (s.calls[a.call].key == "" || s.calls[a.call].key !in s.keys)
  }

  /** A request that neither purges, stores nor schedules changes only its phase and its slot. */
  lemma AskFrame(window: real, s: State, call: nat, op: Op, out: Out)
    requires call in s.calls && AskStep(window, s, call, op) == Some(out)
    requires !op.Expire? && !op.Schedule? && !Stores(s, Ask(call, op))
    ensures var s' := out.state;
      s' == s.(calls := s'.calls, active := s'.active, issued := s'.issued, holder := s'.holder, leaked := s'.leaked)
  {
    hide LookedUp, TakeSlot, LeakSlot, DropSlot, Slots, JobForKey;
  }

  /** What only some of the actions change. */
  lemma StepFrame(window: real, s: State, a: Action, out: Out)
    requires Step(window, s, a) == Some(out)
    ensures s.clock <= out.state.clock
    ensures !Stores(s, a) ==> out.state.commits == s.commits
    ensures !Stores(s, a) && !(a.Ask? && a.op.Expire?) ==> out.state.jobs == s.jobs && out.state.keys == s.keys
    ensures !(a.Ask? && a.op.Schedule?) ==> out.state.scheduled == s.scheduled
  {
    hide DropSlot, LeakSlot, Kill, Purge, Store, Enqueue;
    if a.Ask? {
      match a.op
      case Expire(jobsNow, keysNow) => ExpireStep(window, s, a.call, jobsNow, keysNow, out);
      case Schedule => ScheduleStep(window, s, a.call, out);
      case _ =>
        if Stores(s, a) {
          StoreStep(window, s, a, out);
        } else {
          AskFrame(window, s, a.call, a.op, out);
        }
        hide AskStep;
    }
  }

  lemma StoreStep(window: real, s: State, a: Action, out: Out)
    requires Step(window, s, a) == Some(out) && Stores(s, a)
    ensures out.state == Store(s, a.call, s.calls[a.call].phase.reserved, s.calls[a.call].phase.stamp)
  {
  }

  lemma ScheduleStep(window: real, s: State, call: nat, out: Out)
    requires Step(window, s, Ask(call, Schedule)) == Some(out)
    ensures call in s.calls && s.calls[call].phase.Stored? && out.state == Enqueue(s, call, s.calls[call].phase.stored)
  {
  }

  lemma ExpireStep(window: real, s: State, call: nat, jobsNow: real, keysNow: real, out: Out)
    requires Step(window, s, Ask(call, Expire(jobsNow, keysNow))) == Some(out)
    ensures jobsNow <= keysNow <= s.clock && call in s.calls
    ensures out.state == Goto(Purge(s, window, jobsNow, keysNow), call, Cleaned)
  {
  }

  lemma StepKeepsTables(window: real, s: State, a: Action, out: Out)
    requires Step(window, s, a) == Some(out) && Tables(window, s) && JobsOk(s)
    ensures Tables(window, out.state)
  {
    hide Step, JobsOk, Tables, HasJob, Store, Purge;
    StepFrame(window, s, a, out);
    if a.Ask? && a.op.Expire? {
      ExpireStep(window, s, a.call, a.op.jobsNow, a.op.keysNow, out);
      PurgeKeepsTables(window, s, a.op.jobsNow, a.op.keysNow);
      TablesFrame(window, Purge(s, window, a.op.jobsNow, a.op.keysNow), out.state);
    } else if Stores(s, a) {
      StoreStep(window, s, a, out);
      ReservedIsNew(s, a.call);
      StoreKeepsTables(window, s, a.call, s.calls[a.call].phase.reserved, s.calls[a.call].phase.stamp);
    } else {
      TablesFrame(window, s, out.state);
    }
  }

  lemma StoreKeepsTables(window: real, s: State, call: nat, job: JobId, created: real)
    requires Tables(window, s) && call in s.calls && (s.calls[call].key == "" || s.calls[call].key !in s.keys)
    requires !HasJob(s.commits, job)
    ensures Tables(window, Store(s, call, job, created))
  {
    hide JobRows, KeyRows, Spaced, HasJob;
    StoreKeepsJobRows(s, call, job, created);
    StoreKeepsKeyRows(window, s, call, job, created);
    StoreKeepsSpacing(window, s, call, job, created);
  }

  lemma StoreKeepsOnce(s: State, call: nat, job: JobId, created: real)
    requires Once(s) && call in s.calls && !HasJob(s.commits, job)
    ensures Once(Store(s, call, job, created))
  {
    assert forall i :: 0 <= i < |s.commits| ==> s.commits[i].job != job;
  }

  lemma EnqueueKeepsOnce(s: State, call: nat, job: JobId)
    requires Once(s) && call in s.calls && job !in s.scheduled
    ensures Once(Enqueue(s, call, job))
  {
  }

  lemma StepKeepsOnce(window: real, s: State, a: Action, out: Out)
    requires Step(window, s, a) == Some(out) && Once(s) && JobsOk(s)
    ensures Once(out.state)
  {
    hide Step, JobsOk, HasJob, Store, Enqueue;
    StepFrame(window, s, a, out);
    if Stores(s, a) {
      StoreStep(window, s, a, out);
      ReservedIsNew(s, a.call);
      StoreKeepsOnce(s, a.call, s.calls[a.call].phase.reserved, s.calls[a.call].phase.stamp);
    } else if a.Ask? && a.op.Schedule? {
      ScheduleStep(window, s, a.call, out);
      StoredIsUnscheduled(s, a.call);
      EnqueueKeepsOnce(s, a.call, s.calls[a.call].phase.stored);
    }
  }

  lemma StepKeepsInv(window: real, s: State, a: Action, out: Out)
    requires Step(window, s, a) == Some(out) && Inv(window, s)
    ensures Inv(window, out.state)
  {
    hide Step, Tables, Capped, SlotOk, Story, Once;
    StepKeepsTables(window, s, a, out);
    StepKeepsCap(window, s, a, out);
    StepKeepsOnce(window, s, a, out);
    forall j ensures SlotOk(out.state, j) && Story(out.state, j) {
      assert SlotOk(s, j) && Story(s, j);
      StepKeepsJob(window, s, a, out, j);
    }
  }

  /** In every run of any number of processes all four parts hold at every point. */
  lemma {:induction false} RunKeepsInv(window: real, start: real, acts: seq<Action>, s: State)
    requires Run(window, start, acts) == Some(s)
    ensures Inv(window, s)
  {
    if acts == [] {
      TablesInit(window, start);
      assert forall j :: SlotOk(s, j) && Story(s, j);
    } else {
      hide Step, Inv;
      var front := acts[..|acts| - 1];
      var before := Run(window, start, front).value;
      RunKeepsInv(window, start, front, before);
      StepKeepsInv(window, before, acts[|acts| - 1], Step(window, before, acts[|acts| - 1]).value);
    }
  }

  // ---------------------------------------------------------------- what clients see

  /** A retry whose key and job are both unexpired is answered with the original job. */
  lemma RetryReturnsOriginal(window: real, start: real, acts: seq<Action>, s: State, i: nat, call: nat, a: Action, out: Out)
    requires Run(window, start, acts) == Some(s) && i < |s.commits|
    requires s.commits[i].key != "" && call in s.calls && s.calls[call].key == s.commits[i].key
    requires s.clock <= s.commits[i].created + window && s.clock <= s.commits[i].created + JOB_TTL
    requires a == Ask(call, Lookup) || a == Ask(call, Reread)
    requires Step(window, s, a) == Some(out)
    ensures out.reply == Existing(s.commits[i].job)
  {
    RunKeepsInv(window, start, acts, s);
    assert JobRowOk(s, s.commits[i]) && KeyRowOk(window, s, s.commits[i]);
  }

  /** While the key is unexpired no second insertion under it commits. */
  lemma RacerIsBeaten(window: real, start: real, acts: seq<Action>, s: State, i: nat, call: nat, out: Out)
    requires Run(window, start, acts) == Some(s) && i < |s.commits|
    requires s.commits[i].key != "" && call in s.calls && s.calls[call].key == s.commits[i].key
    requires s.clock <= s.commits[i].created + window
    requires Step(window, s, Ask(call, Insert)) == Some(out)
    ensures At(out.state, call, Beaten)
    ensures Gone(out.state, s.calls[call].phase.reserved)
    ensures out.state.jobs == s.jobs && out.state.keys == s.keys && out.state.commits == s.commits
  {
    RunKeepsInv(window, start, acts, s);
    assert KeyRowOk(window, s, s.commits[i]);
    var job := s.calls[call].phase.reserved;
    ReservedIsNew(s, call);
    assert SlotOk(s, job) && CallHolds(s, call, job);
  }

  /** The id was drawn, and neither a slot nor a row nor a task exists for it. */
  ghost predicate Gone(s: State, job: JobId) { job in s.issued && job !in s.holder && !HasJob(s.commits, job) }

  /** Only jobs that already have a holder, or are new, are given one. */
  lemma AskHolders(window: real, s: State, call: nat, op: Op, out: Out, job: JobId)
    requires call in s.calls && AskStep(window, s, call, op) == Some(out) && JobsOk(s) && job in s.issued && job !in s.holder
    ensures job in out.state.issued && job !in out.state.holder
  {
    hide Story, Purge, Slots, JobForKey, Store, Goto, Leave, LookedUp;
    assert SlotOk(s, job);
    var phase := s.calls[call].phase;
    assert phase.Reserved? ==> CallHolds(s, call, phase.reserved);
    assert phase.Stored? ==> CallHolds(s, call, phase.stored);
  }

  lemma HoldersStay(window: real, s: State, a: Action, out: Out, job: JobId)
    requires Step(window, s, a) == Some(out) && JobsOk(s) && job in s.issued && job !in s.holder
    ensures job in out.state.issued && job !in out.state.holder
  {
    hide Story, AskStep, Slots;
    assert SlotOk(s, job);
    if a.Ask? {
      AskHolders(window, s, a.call, a.op, out, job);
    }
  }

  lemma GoneStaysGone(window: real, s: State, a: Action, out: Out, job: JobId)
    requires Step(window, s, a) == Some(out) && JobsOk(s) && Gone(s, job)
    ensures Gone(out.state, job)
  {
    assert Stores(s, a) ==> CallHolds(s, a.call, s.calls[a.call].phase.reserved);
    assert SlotOk(s, job);
    hide Step, HasJob, Story, JobsOk;
    HoldersStay(window, s, a, out, job);
    StepFrame(window, s, a, out);
    if Stores(s, a) {
      StoreStep(window, s, a, out);
      var c := s.calls[a.call];
      CommitAdds(s.commits, Commit(c.key, c.phase.reserved, c.phase.stamp, s.clock), job);
    }
  }

  function Resume(window: real, s: State, acts: seq<Action>): Option<State>
    decreases |acts|
  {
    if acts == [] then Some(s)
    else
      match Step(window, s, acts[0])
      case None => None
      case Some(out) => Resume(window, out.state, acts[1..])
  }

  /** A racer that lost leaves no job row, no slot and no task, then or ever after. */
  lemma {:induction false} LoserLeavesNothing(window: real, s: State, job: JobId, acts: seq<Action>, s': State)
    requires Inv(window, s) && Gone(s, job) && Resume(window, s, acts) == Some(s')
    ensures job !in s'.jobs && job !in s'.scheduled && job !in s'.tasks && forall p :: job !in Slots(s', p)
    ensures forall k :: k in s'.keys ==> s'.keys[k].job != job
    decreases |acts|
  {
    if acts == [] {
      assert SlotOk(s, job) && Story(s, job);
    } else {
      hide Step, Gone, Inv;
      var out := Step(window, s, acts[0]).value;
      StepKeepsInv(window, s, acts[0], out);
      GoneFromInv(window, s, acts[0], out, job);
      LoserLeavesNothing(window, out.state, job, acts[1..], s');
    }
  }

  lemma GoneFromInv(window: real, s: State, a: Action, out: Out, job: JobId)
    requires Step(window, s, a) == Some(out) && Inv(window, s) && Gone(s, job)
    ensures Gone(out.state, job)
  {
    hide Step, Gone, Tables, Capped, Once, JobsOk;
    GoneStaysGone(window, s, a, out, job);
  }

  /** Of two jobs committed under one key, the earlier one's key has expired. */
  lemma OneLiveJobPerKey(window: real, start: real, acts: seq<Action>, s: State, i: nat, k: nat)
    requires Run(window, start, acts) == Some(s) && i < k < |s.commits|
    requires s.commits[i].key == s.commits[k].key != ""
    ensures s.commits[i].created + window < s.clock
    ensures s.commits[i].job != s.commits[k].job
  {
    RunKeepsInv(window, start, acts, s);
  }

  lemma CapHolds(window: real, start: real, acts: seq<Action>, s: State, p: nat)
    requires Run(window, start, acts) == Some(s)
    ensures |Slots(s, p)| <= MAX_CONCURRENT
  {
    RunKeepsInv(window, start, acts, s);
  }

  /** The job returned in place of a new one was committed under the caller's key, and still exists. */
  lemma ExistingIsHonest(window: real, start: real, acts: seq<Action>, s: State, call: nat, a: Action, out: Out, j: JobId)
    requires Run(window, start, acts) == Some(s) && Step(window, s, a) == Some(out)
    requires (a == Ask(call, Lookup) || a == Ask(call, Reread)) && out.reply == Existing(j)
    ensures j in s.jobs && call in s.calls
    ensures exists i :: 0 <= i < |s.commits| && s.commits[i].key == s.calls[call].key && s.commits[i].job == j
  {
    RunKeepsInv(window, start, acts, s);
    assert HasKey(s.commits, s.calls[call].key, s.keys[s.calls[call].key]);
  }

  /** A job is announced as queued once, after it was committed. */
  lemma QueuedIsNew(window: real, start: real, acts: seq<Action>, s: State, call: nat, out: Out)
    requires Run(window, start, acts) == Some(s) && Step(window, s, Ask(call, Schedule)) == Some(out)
    ensures out.reply.Queued? && HasJob(s.commits, out.reply.queued)
    ensures out.reply.queued !in s.scheduled && out.state.scheduled == s.scheduled + [out.reply.queued]
  {
    RunKeepsInv(window, start, acts, s);
    StoredIsUnscheduled(s, call);
  }

  // ---------------------------------------------------------------- the documented promise

  /** A request that is about to consult the key. */
  predicate Consulting(s: State, call: nat) { At(s, call, Cleaned) || At(s, call, Beaten) }

  /** The request repeats the key of `c` inside the dedup window. */
  predicate Retries(window: real, s: State, call: nat, c: Commit) {
    call in s.calls && c.key == s.calls[call].key != "" && s.clock <= c.created + window
  }

  /** Every retry inside the dedup window finds the original job. */
  ghost predicate Honoured(window: real, s: State) {
    forall call, i :: Consulting(s, call) && 0 <= i < |s.commits| && Retries(window, s, call, s.commits[i]) ==>
      JobForKey(s, s.calls[call].key) == Some(s.commits[i].job)
  }

  ghost predicate PromiseKept(window: real, start: real) {
    forall acts :: Run(window, start, acts).Some? ==> Honoured(window, Run(window, start, acts).value)
  }

  lemma Extend(window: real, start: real, acts: seq<Action>, a: Action, s: State, out: Out)
    requires Run(window, start, acts) == Some(s) && Step(window, s, a) == Some(out)
    ensures Run(window, start, acts + [a]) == Some(out.state)
  {
  }

  /** A request with an unused key and a free slot commits its job. */
  lemma Submits(window: real, start: real, acts: seq<Action>, s: State, call: nat, newId: JobId)
      returns (acts': seq<Action>, s': State)
    requires Run(window, start, acts) == Some(s) && At(s, call, Cleaned) && s.calls[call].key !in s.keys
    requires |Slots(s, s.calls[call].proc)| < MAX_CONCURRENT && newId !in s.issued
    ensures Run(window, start, acts') == Some(s')
    ensures s' == Store(TakeSlot(Goto(s, call, Missed), call, newId), call, newId, s.clock)
  {
    hide Run;
    var s1 := Goto(s, call, Missed);
    Extend(window, start, acts, Ask(call, Lookup), s, Out(s1, Silent));
    var s2 := TakeSlot(s1, call, newId);
    Extend(window, start, acts + [Ask(call, Lookup)], Ask(call, Reserve(newId)), s1, Out(s2, Silent));
    s' := Store(s2, call, newId, s.clock);
    Extend(window, start, acts + [Ask(call, Lookup)] + [Ask(call, Reserve(newId))], Ask(call, Insert), s2, Out(s', Silent));
    acts' := acts + [Ask(call, Lookup)] + [Ask(call, Reserve(newId))] + [Ask(call, Insert)];
  }

  /** Every use of the key on record is older than the window. */
  ghost predicate Unused(window: real, s: State, key: string) {
    forall i :: 0 <= i < |s.commits| && s.commits[i].key == key ==> s.commits[i].created < s.clock - window
  }

  lemma PurgeDropsUnused(window: real, s: State, key: string)
    requires KeyRows(window, s) && Unused(window, s, key)
    ensures key !in Purge(s, window, s.clock, s.clock).keys
  {
    assert key in s.keys ==> HasKey(s.commits, key, s.keys[key]);
  }

  lemma KeyRowsInRun(window: real, start: real, acts: seq<Action>, s: State)
    requires Run(window, start, acts) == Some(s)
    ensures KeyRows(window, s)
  {
    RunKeepsInv(window, start, acts, s);
  }

  /** A key whose every use has expired can be used again: the request purges it and commits a new job. */
  lemma ExpiredKeyIsReused(window: real, start: real, acts: seq<Action>, s: State, call: nat, newId: JobId)
      returns (acts': seq<Action>, s': State)
    requires Run(window, start, acts) == Some(s) && At(s, call, Started) && s.calls[call].key != ""
    requires Unused(window, s, s.calls[call].key)
    requires |Slots(s, s.calls[call].proc)| < MAX_CONCURRENT && newId !in s.issued
    ensures Run(window, start, acts') == Some(s') && At(s', call, Stored(newId))
    ensures s'.commits == s.commits + [Commit(s.calls[call].key, newId, s.clock, s.clock)]
    ensures JobForKey(s', s.calls[call].key) == Some(newId)
  {
    KeyRowsInRun(window, start, acts, s);
    PurgeDropsUnused(window, s, s.calls[call].key);
    var s0 := Purge(s, window, s.clock, s.clock);
    var s1 := Goto(s0, call, Cleaned);
    assert Step(window, s, Ask(call, Expire(s.clock, s.clock))) == Some(Out(s1, Silent));
    hide Run, KeyRows, Unused, Purge, Step;
    Extend(window, start, acts, Ask(call, Expire(s.clock, s.clock)), s, Out(s1, Silent));
    acts', s' := Submits(window, start, acts + [Ask(call, Expire(s.clock, s.clock))], s1, call, newId);
  }

  /** A run that commits one job under a key. */
  lemma FirstRequest(window: real, start: real) returns (acts: seq<Action>, s: State)
    ensures Run(window, start, acts) == Some(s) && s.clock == start && 1 !in s.calls
    ensures s.commits == [Commit("k", "j", start, start)]
    ensures s.jobs == map["j" := start] && s.keys == map["k" := KeyRow("j", start)]
  {
    var acts0, s0 := FirstPurge(window, start);
    hide Run, Step;
    acts, s := Submits(window, start, acts0, s0, 0, "j");
  }

  lemma FirstPurge(window: real, start: real) returns (acts: seq<Action>, s: State)
    ensures Run(window, start, acts) == Some(s)
    ensures s.calls == map[0 := Call(0, "k", Cleaned)] && s == Init(start).(calls := s.calls)
  {
    var s0 := Init(start);
    assert Run(window, start, []) == Some(s0);
    hide Run;
    var s1 := s0.(calls := s0.calls[0 := Call(0, "k", Started)]);
    Extend(window, start, [], Begin(0, 0, "k"), s0, Out(s1, Silent));
    assert Purge(s1, window, start, start) == s1;
    s := Goto(s1, 0, Cleaned);
    acts := [] + [Begin(0, 0, "k")];
    Extend(window, start, acts, Ask(0, Expire(start, start)), s1, Out(s, Silent));
    acts := acts + [Ask(0, Expire(start, start))];
  }

  /** ... and whose key is presented again when only the key row is left. */
  lemma LateRetry(window: real, start: real) returns (acts: seq<Action>, s: State)
    requires window > JOB_TTL
    ensures Run(window, start, acts) == Some(s) && !Honoured(window, s)
  {
    var acts0, s0 := FirstRequest(window, start);
    hide Run;
    var later := start + window;
    var s1 := s0.(clock := later);
    Extend(window, start, acts0, Tick(later), s0, Out(s1, Silent));
    var s2 := s1.(calls := s1.calls[1 := Call(1, "k", Started)]);
    Extend(window, start, acts0 + [Tick(later)], Begin(1, 1, "k"), s1, Out(s2, Silent));
    s := Goto(Purge(s2, window, later, later), 1, Cleaned);
    acts := acts0 + [Tick(later)] + [Begin(1, 1, "k")] + [Ask(1, Expire(later, later))];
    Extend(window, start, acts0 + [Tick(later)] + [Begin(1, 1, "k")], Ask(1, Expire(later, later)), s2, Out(s, Silent));
    assert Consulting(s, 1) && Retries(window, s, 1, s.commits[0]) && JobForKey(s, "k") == None;
  }

  /** The promise holds in every run exactly when keys do not outlive job rows. */
  lemma PromiseExact(window: real, start: real)
    ensures PromiseKept(window, start) <==> window <= JOB_TTL
  {
    if window <= JOB_TTL {
      forall acts | Run(window, start, acts).Some? ensures Honoured(window, Run(window, start, acts).value) {
        HonouredInRun(window, start, acts, Run(window, start, acts).value);
      }
    } else {
      var acts, s := LateRetry(window, start);
    }
  }

  lemma HonouredInRun(window: real, start: real, acts: seq<Action>, s: State)
    requires Run(window, start, acts) == Some(s) && window <= JOB_TTL
    ensures Honoured(window, s)
  {
    RunKeepsInv(window, start, acts, s);
    forall call, i | Consulting(s, call) && 0 <= i < |s.commits| && Retries(window, s, call, s.commits[i])
      ensures JobForKey(s, s.calls[call].key) == Some(s.commits[i].job)
    {
      assert JobRowOk(s, s.commits[i]) && KeyRowOk(window, s, s.commits[i]);
    }
  }

  /** Once a key row has outlived its job, a retry with a free slot is answered 409 and changes no table. */
  lemma OutlivedKeyConflicts(window: real, s: State, call: nat, newId: JobId)
      returns (s1: State, s2: State, s3: State, s4: State)
    requires At(s, call, Cleaned) && s.calls[call].key != "" && s.calls[call].key in s.keys
    requires JobForKey(s, s.calls[call].key) == None
    requires |Slots(s, s.calls[call].proc)| < MAX_CONCURRENT && newId !in s.issued
    ensures Step(window, s, Ask(call, Lookup)) == Some(Out(s1, Silent))
    ensures Step(window, s1, Ask(call, Reserve(newId))) == Some(Out(s2, Silent))
    ensures Step(window, s2, Ask(call, Insert)) == Some(Out(s3, Silent))
    ensures Step(window, s3, Ask(call, Reread)) == Some(Out(s4, Conflict))
    ensures s4.jobs == s.jobs && s4.keys == s.keys && s4.commits == s.commits && call !in s4.calls
  {
    var c := s.calls[call];
    s1 := Goto(s, call, Missed);
    s2 := TakeSlot(s1, call, newId);
    s3 := Goto(DropSlot(s2, c.proc, newId), call, Beaten);
    s4 := Leave(s3, call);
  }
}
