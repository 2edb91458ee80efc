/**
 The generation-token cache of `api/score_cache.py`: `get_or_compute` with any
 number of concurrent lookups and database writers.

 A lookup reads the token, then the clock, then (locked) the entry, then
 computes outside the lock, then (locked) stores.  Each is a step of its own.
 The database is the sequence of its committed states.
 */
module ScoreCache {
  import opened Wrappers

  type Key = string

  /** A committed database state and its generation token (MAX(id) of risk_scores). */
  datatype Snapshot = Snapshot(generation: int, content: string)

  /** The aggregate query of a key, as a function of the database state. */
  type Query = (Key, Snapshot) -> string

  datatype Entry = Entry(value: string, generation: int, computedAt: real,
                         version: nat, readAt: real)  // history: the state the value was computed from, and when

  /** Where a lookup is; `start` (history) is the version whose token it read. */
  datatype Lookup =
    | HasToken(key: Key, token: int, start: nat)
    | HasTime(key: Key, token: int, start: nat, now: real)
    | Missed(key: Key, token: int, start: nat)
    | Computed(key: Key, token: int, start: nat, value: string, version: nat, readAt: real)

  /**
   What a finished lookup returned, and (history) from which state, read and
   stored when, and as of which time: its clock reading if it was a hit.
   */
  datatype Answer = Answer(key: Key, value: string, hit: bool, age: real, start: nat, version: nat, end: nat,
                           readAt: real, storedAt: real, asOf: real)

  datatype State = State(db: seq<Snapshot>, entries: map<Key, Entry>, lookups: map<nat, Lookup>,
                         answers: seq<Answer>, clock: real,
                         since: seq<real>)  // history: when each database state was committed

  datatype Action =
    | CommitScores(next: Snapshot)       // a score write: the token grows
    | Maintain(next: Snapshot)           // e.g. retention pruning: the token stays
    | ReadToken(id: nat, key: Key)
    | ReadClock(id: nat)
    | Probe(id: nat)
    | Compute(id: nat)
    | ComputeRaises(id: nat)
    | Store(id: nat)
    | Clear
    | Tick(elapsed: real)

  datatype Config = Config(maxAge: real, query: Query)

  // ---------------------------------------------------------------- steps

  function Init(first: Snapshot): State { State([first], map[], map[], [], 0.0, [0.0]) }

  function Current(s: State): nat
    requires s.db != []
  {
    |s.db| - 1
  }

  /** The entry answers this lookup: same token, not too old. */
  predicate Serves(c: Config, e: Entry, token: int, now: real) {
    e.generation == token && now - e.computedAt <= c.maxAge
  }

  function Finish(s: State, id: nat, a: Answer): State {
    s.(lookups := s.lookups - {id}, answers := s.answers + [a])
  }

  function LookupStep(c: Config, s: State, id: nat, a: Action): Option<State>
    requires s.db != [] && id in s.lookups
  {
    var l := s.lookups[id];
    if a.ReadClock? && l.HasToken? then
      Some(s.(lookups := s.lookups[id := HasTime(l.key, l.token, l.start, s.clock)]))
    else if a.Probe? && l.HasTime? then
      if l.key in s.entries && Serves(c, s.entries[l.key], l.token, l.now) then
        var e := s.entries[l.key];
        Some(Finish(s, id, Answer(l.key, e.value, true, l.now - e.computedAt, l.start, e.version, Current(s),
                                        e.readAt, e.computedAt, l.now)))
      else Some(s.(lookups := s.lookups[id := Missed(l.key, l.token, l.start)]))
    else if a.Compute? && l.Missed? then
      var v := c.query(l.key, s.db[Current(s)]);
      Some(s.(lookups := s.lookups[id := Computed(l.key, l.token, l.start, v, Current(s), s.clock)]))
    else if a.ComputeRaises? && l.Missed? then Some(s.(lookups := s.lookups - {id}))
    else if a.Store? && l.Computed? then
      var e := Entry(l.value, l.token, s.clock, l.version, l.readAt);
      Some(Finish(s.(entries := s.entries[l.key := e]), id,
                  Answer(l.key, l.value, false, 0.0, l.start, l.version, Current(s), l.readAt, s.clock, s.clock)))
    else None
  }

  function Commit(s: State, n: Snapshot): State { s.(db := s.db + [n], since := s.since + [s.clock]) }

  function Step(c: Config, s: State, a: Action): Option<State>
    requires s.db != []
  {
    match a
    case CommitScores(n) => if n.generation > s.db[Current(s)].generation then Some(Commit(s, n)) else None
    case Maintain(n) => if n.generation == s.db[Current(s)].generation then Some(Commit(s, n)) else None
    case ReadToken(id, key) =>
      if id in s.lookups then None
      else Some(s.(lookups := s.lookups[id := HasToken(key, s.db[Current(s)].generation, Current(s))]))
    case Clear => Some(s.(entries := map[]))
    case Tick(d) => if d >= 0.0 then Some(s.(clock := s.clock + d)) else None
    case ReadClock(id) => if id in s.lookups then LookupStep(c, s, id, a) else None
    case Probe(id) => if id in s.lookups then LookupStep(c, s, id, a) else None
    case Compute(id) => if id in s.lookups then LookupStep(c, s, id, a) else None
    case ComputeRaises(id) => if id in s.lookups then LookupStep(c, s, id, a) else None
    case Store(id) => if id in s.lookups then LookupStep(c, s, id, a) else None
  }

  function Run(c: Config, first: Snapshot, acts: seq<Action>): (r: Option<State>)
    ensures r.Some? ==> r.value.db != []
  {
    if acts == [] then Some(Init(first))
    else
      match Run(c, first, acts[..|acts| - 1])
      case None => None
      case Some(s) => Step(c, s, acts[|acts| - 1])
  }

  // ---------------------------------------------------------------- invariant

  ghost predicate TokensGrow(db: seq<Snapshot>) {
    db != [] && forall i, j :: 0 <= i <= j < |db| ==> db[i].generation <= db[j].generation
  }

  /** A value is the query's answer on a committed state at least as new as the token says. */
  ghost predicate Backed(c: Config, db: seq<Snapshot>, key: Key, value: string, token: int, version: nat) {
    && version < |db|
    && value == c.query(key, db[version])
    && token <= db[version].generation
  }

  ghost predicate LookupOk(c: Config, db: seq<Snapshot>, l: Lookup) {
    && l.start < |db| && l.token == db[l.start].generation
    && (l.Computed? ==> l.start <= l.version && Backed(c, db, l.key, l.value, l.token, l.version))
  }

  ghost predicate AnswerOk(c: Config, db: seq<Snapshot>, a: Answer) {
    && a.start <= a.end < |db| && a.version <= a.end
    && Backed(c, db, a.key, a.value, db[a.start].generation, a.version)
    && (!a.hit ==> a.start <= a.version)
    && (a.hit ==> a.age <= c.maxAge)
  }

  ghost predicate Inv(c: Config, s: State) {
    && TokensGrow(s.db)
    && (forall k :: k in s.entries ==>
          Backed(c, s.db, k, s.entries[k].value, s.entries[k].generation, s.entries[k].version))
    && (forall id :: id in s.lookups ==> LookupOk(c, s.db, s.lookups[id]))
    && (forall i :: 0 <= i < |s.answers| ==> AnswerOk(c, s.db, s.answers[i]))
  }

  lemma CommitKeepsInv(c: Config, s: State, n: Snapshot)
    requires Inv(c, s) && n.generation >= s.db[Current(s)].generation
    ensures Inv(c, Commit(s, n))
  {
    var db := s.db + [n];
    forall k | k in s.entries
      ensures Backed(c, db, k, s.entries[k].value, s.entries[k].generation, s.entries[k].version) {
      assert db[s.entries[k].version] == s.db[s.entries[k].version];
    }
    forall id | id in s.lookups ensures LookupOk(c, db, s.lookups[id]) {
      assert LookupOk(c, s.db, s.lookups[id]);
    }
    forall i | 0 <= i < |s.answers| ensures AnswerOk(c, db, s.answers[i]) {
      assert AnswerOk(c, s.db, s.answers[i]);
    }
  }

  lemma LookupStepKeepsInv(c: Config, s: State, id: nat, a: Action, s': State)
    requires Inv(c, s) && id in s.lookups && LookupStep(c, s, id, a) == Some(s')
    ensures Inv(c, s')
  {
    hide Backed;
    var l := s.lookups[id];
    assert LookupOk(c, s.db, l);
    forall k | k in s'.entries
      ensures Backed(c, s'.db, k, s'.entries[k].value, s'.entries[k].generation, s'.entries[k].version)
    {
      assert k in s.entries ==> Backed(c, s.db, k, s.entries[k].value, s.entries[k].generation, s.entries[k].version);
    }
    LookupStepKeepsLookups(c, s, id, a, s');
    LookupStepKeepsAnswers(c, s, id, a, s');
  }

  lemma LookupStepKeepsLookups(c: Config, s: State, id: nat, a: Action, s': State)
    requires Inv(c, s) && id in s.lookups && LookupStep(c, s, id, a) == Some(s')
    ensures forall i :: i in s'.lookups ==> LookupOk(c, s'.db, s'.lookups[i])
  {
    hide AnswerOk, Serves;
    forall i | i in s'.lookups ensures LookupOk(c, s'.db, s'.lookups[i]) {
      assert LookupOk(c, s.db, s.lookups[i]);
    }
  }

  lemma LookupStepKeepsAnswers(c: Config, s: State, id: nat, a: Action, s': State)
    requires Inv(c, s) && id in s.lookups && LookupStep(c, s, id, a) == Some(s')
    ensures forall i :: 0 <= i < |s'.answers| ==> AnswerOk(c, s'.db, s'.answers[i])
  {
    assert LookupOk(c, s.db, s.lookups[id]);
    forall i | 0 <= i < |s'.answers| ensures AnswerOk(c, s'.db, s'.answers[i]) {
      assert i < |s.answers| ==> AnswerOk(c, s.db, s.answers[i]);
    }
  }

  lemma StepKeepsInv(c: Config, s: State, a: Action, s': State)
    requires Inv(c, s) && Step(c, s, a) == Some(s')
    ensures Inv(c, s')
  {
    match a
    case CommitScores(n) => CommitKeepsInv(c, s, n);
    case Maintain(n) => CommitKeepsInv(c, s, n);
    case ReadToken(_, _) =>
    case Clear =>
    case Tick(_) =>
    case ReadClock(id) => LookupStepKeepsInv(c, s, id, a, s');
    case Probe(id) => LookupStepKeepsInv(c, s, id, a, s');
    case Compute(id) => LookupStepKeepsInv(c, s, id, a, s');
    case ComputeRaises(id) => LookupStepKeepsInv(c, s, id, a, s');
    case Store(id) => LookupStepKeepsInv(c, s, id, a, s');
  }

  lemma {:induction false} RunKeepsInv(c: Config, first: Snapshot, acts: seq<Action>)
    requires Run(c, first, acts).Some?
    ensures Inv(c, Run(c, first, acts).value)
  {
    if acts != [] {
      var last := |acts| - 1;
      RunKeepsInv(c, first, acts[..last]);
      StepKeepsInv(c, Run(c, first, acts[..last]).value, acts[last], Run(c, first, acts).value);
    }
  }

  // ---------------------------------------------------------------- freshness

  /**
   Whatever lookups and writers interleave, an entry's token never exceeds the
   generation of the state its value was computed from.
   */
  lemma EntryTokensAreConservative(c: Config, first: Snapshot, acts: seq<Action>, s: State, k: Key)
    requires Run(c, first, acts) == Some(s) && k in s.entries
    ensures var e := s.entries[k];
      && e.version < |s.db| && e.value == c.query(k, s.db[e.version])
      && e.generation <= s.db[e.version].generation
  {
    RunKeepsInv(c, first, acts);
  }

  /**
   Every answer is the query's result on a committed state that contains all
   score writes committed before the lookup read its token: that state was
   current at some moment of the lookup, or only token-neutral maintenance
   lies between it and the state the lookup started from.
   */
  lemma AnswersAreFresh(c: Config, first: Snapshot, acts: seq<Action>, s: State, i: nat)
    requires Run(c, first, acts) == Some(s) && i < |s.answers|
    ensures var a := s.answers[i];
      && a.version <= a.end && a.start <= a.end < |s.db|
      && a.value == c.query(a.key, s.db[a.version])
      && s.db[a.start].generation <= s.db[a.version].generation
      && (a.start <= a.version || s.db[a.version].generation == s.db[a.start].generation)
      && (a.hit ==> a.age <= c.maxAge)
  {
    RunKeepsInv(c, first, acts);
    assert AnswerOk(c, s.db, s.answers[i]);
  }

  /** Without maintenance every commit is a score write, and the token identifies the state. */
  lemma {:induction false} OnlyWritesGrowStrictly(c: Config, first: Snapshot, acts: seq<Action>, s: State, i: nat, j: nat)
    requires Run(c, first, acts) == Some(s) && (forall k :: 0 <= k < |acts| ==> !acts[k].Maintain?)
    requires i < j < |s.db|
    ensures s.db[i].generation < s.db[j].generation
    decreases |acts|
  {
    if acts != [] {
      var last := |acts| - 1;
      var front := acts[..last];
      var p := Run(c, first, front).value;
      DbOnlyGrows(c, p, acts[last], s);
      if j < |p.db| {
        OnlyWritesGrowStrictly(c, first, front, p, i, j);
      } else if i < |p.db| - 1 {
        OnlyWritesGrowStrictly(c, first, front, p, i, |p.db| - 1);
      }
    }
  }

  lemma DbOnlyGrows(c: Config, s: State, a: Action, s': State)
    requires s.db != [] && Step(c, s, a) == Some(s')
    ensures s'.db == s.db || (s'.db == s.db + [s'.db[|s.db|]] && |s'.db| == |s.db| + 1)
    ensures s'.db != s.db && a.CommitScores? ==> s'.db[|s.db|].generation > s.db[Current(s)].generation
    ensures s'.db != s.db ==> a.CommitScores? || a.Maintain?
  {
  }

  /** Then the cache is linearizable: each answer is the query on a state current during the lookup. */
  lemma LinearizableWithoutMaintenance(c: Config, first: Snapshot, acts: seq<Action>, s: State, i: nat)
    requires Run(c, first, acts) == Some(s) && i < |s.answers|
    requires forall k :: 0 <= k < |acts| ==> !acts[k].Maintain?
    ensures var a := s.answers[i];
      a.start <= a.version <= a.end < |s.db| && a.value == c.query(a.key, s.db[a.version])
  {
    AnswersAreFresh(c, first, acts, s, i);
    var a := s.answers[i];
    if a.version < a.start {
      OnlyWritesGrowStrictly(c, first, acts, s, a.version, a.start);
    }
  }

  // ---------------------------------------------------------------- staleness

  /** State `version` was the current one at time `t`. */
  predicate CurrentAt(since: seq<real>, version: nat, t: real) {
    version < |since| && since[version] <= t && (version + 1 < |since| ==> t <= since[version + 1])
  }

  ghost predicate EntryTimes(s: State, version: nat, readAt: real, storedAt: real) {
    CurrentAt(s.since, version, readAt) && readAt <= storedAt <= s.clock
  }

  ghost predicate TimesInv(c: Config, s: State) {
    && |s.since| == |s.db| > 0
    && (forall i :: 0 <= i < |s.since| ==> s.since[i] <= s.clock)
    && (forall k :: k in s.entries ==> EntryTimes(s, s.entries[k].version, s.entries[k].readAt, s.entries[k].computedAt))
    && (forall id :: id in s.lookups && s.lookups[id].Computed? ==>
          EntryTimes(s, s.lookups[id].version, s.lookups[id].readAt, s.lookups[id].readAt))
    && (forall i :: 0 <= i < |s.answers| ==> AnswerTimes(c, s, s.answers[i]))
  }

  ghost predicate AnswerTimes(c: Config, s: State, a: Answer) {
    && EntryTimes(s, a.version, a.readAt, a.storedAt)
    && (a.hit ==> a.asOf - a.storedAt <= c.maxAge)
  }

  lemma CommitKeepsTimes(c: Config, s: State, n: Snapshot)
    requires TimesInv(c, s)
    ensures TimesInv(c, Commit(s, n))
  {
    var s' := Commit(s, n);
    forall i | 0 <= i < |s'.answers| ensures AnswerTimes(c, s', s'.answers[i]) {
      assert AnswerTimes(c, s, s.answers[i]);
    }
  }

  lemma LookupStepKeepsTimes(c: Config, s: State, id: nat, a: Action, s': State)
    requires TimesInv(c, s) && id in s.lookups && LookupStep(c, s, id, a) == Some(s')
    ensures TimesInv(c, s')
  {
    assert forall i :: 0 <= i < |s.answers| ==> AnswerTimes(c, s', s.answers[i]) by {
      forall i | 0 <= i < |s.answers| ensures AnswerTimes(c, s', s.answers[i]) {
        assert AnswerTimes(c, s, s.answers[i]);
      }
    }
  }

  lemma StepKeepsTimes(c: Config, s: State, a: Action, s': State)
    requires TimesInv(c, s) && Step(c, s, a) == Some(s')
    ensures TimesInv(c, s')
  {
    hide LookupStep, Commit, AnswerTimes;
    match a
    case CommitScores(n) => CommitKeepsTimes(c, s, n);
    case Maintain(n) => CommitKeepsTimes(c, s, n);
    case ReadToken(_, _) => SameTimes(c, s, s');
    case Clear => SameTimes(c, s, s');
    case Tick(_) => SameTimes(c, s, s');
    case ReadClock(id) => LookupStepKeepsTimes(c, s, id, a, s');
    case Probe(id) => LookupStepKeepsTimes(c, s, id, a, s');
    case Compute(id) => LookupStepKeepsTimes(c, s, id, a, s');
    case ComputeRaises(id) => LookupStepKeepsTimes(c, s, id, a, s');
    case Store(id) => LookupStepKeepsTimes(c, s, id, a, s');
  }

  lemma SameTimes(c: Config, s: State, s': State)
    requires TimesInv(c, s) && s'.db == s.db && s'.since == s.since && s'.answers == s.answers && s.clock <= s'.clock
    requires forall k :: k in s'.entries ==> k in s.entries && s'.entries[k] == s.entries[k]
    requires forall id :: id in s'.lookups && s'.lookups[id].Computed? ==> id in s.lookups && s'.lookups[id] == s.lookups[id]
    ensures TimesInv(c, s')
  {
    forall i | 0 <= i < |s'.answers| ensures AnswerTimes(c, s', s'.answers[i]) {
      assert AnswerTimes(c, s, s.answers[i]);
    }
  }

  lemma {:induction false} RunKeepsTimes(c: Config, first: Snapshot, acts: seq<Action>)
    requires Run(c, first, acts).Some?
    ensures TimesInv(c, Run(c, first, acts).value)
  {
    if acts != [] {
      var last := |acts| - 1;
      RunKeepsTimes(c, first, acts[..last]);
      hide Step;
      StepKeepsTimes(c, Run(c, first, acts[..last]).value, acts[last], Run(c, first, acts).value);
    }
  }

  /**
   How long ago the state behind a hit can have been superseded, whatever the
   change was: the maximum age, and what the computation took from reading the
   database to storing.
   */
  lemma StalenessIsBounded(c: Config, first: Snapshot, acts: seq<Action>, s: State, i: nat)
    requires Run(c, first, acts) == Some(s) && i < |s.answers| && s.answers[i].hit
    ensures var a := s.answers[i];
      a.version < |s.since| && (a.version + 1 < |s.since| ==> a.asOf - s.since[a.version + 1] <= c.maxAge + (a.storedAt - a.readAt))
  {
    RunKeepsTimes(c, first, acts);
    assert AnswerTimes(c, s, s.answers[i]);
  }

  lemma Extend(c: Config, first: Snapshot, acts: seq<Action>, a: Action, s: State, s': State)
    requires Run(c, first, acts) == Some(s) && s.db != [] && Step(c, s, a) == Some(s')
    ensures Run(c, first, acts + [a]) == Some(s')
  {
    var all := acts + [a];
    assert all[..|all| - 1] == acts;
  }

  /** A first lookup computes; maintenance supersedes what it read; it stores `delay` later. */
  lemma SlowStore(c: Config, first: Snapshot, next: Snapshot, key: Key, delay: real) returns (acts: seq<Action>, s: State)
    requires delay >= 0.0 && next.generation == first.generation
    ensures Run(c, first, acts) == Some(s) && s.since == [0.0, 0.0] && s.clock == delay && s.lookups == map[]
    ensures s.db == [first, next] && key in s.entries && s.entries[key].generation == first.generation
    ensures s.entries[key].value == c.query(key, first)
    ensures s.entries[key].version == 0 && s.entries[key].readAt == 0.0 && s.entries[key].computedAt == delay
  {
    var s0 := Init(first);
    assert Run(c, first, []) == Some(s0);
    hide Run;
    var s1 := s0.(lookups := s0.lookups[0 := HasToken(key, first.generation, 0)]);
    Extend(c, first, [], ReadToken(0, key), s0, s1);
    acts := [] + [ReadToken(0, key)];
    acts, s := ComputeFirst(c, first, acts, s1, key);
    acts, s := StoreLater(c, first, next, acts, s, key, delay);
  }

  lemma ComputeFirst(c: Config, first: Snapshot, acts0: seq<Action>, s1: State, key: Key) returns (acts: seq<Action>, s4: State)
    requires s1.lookups == map[0 := HasToken(key, first.generation, 0)]
    requires s1 == Init(first).(lookups := s1.lookups) && Run(c, first, acts0) == Some(s1)
    ensures Run(c, first, acts) == Some(s4) && s4 == Init(first).(lookups := s4.lookups)
    ensures s4.lookups == map[0 := Computed(key, first.generation, 0, c.query(key, first), 0, 0.0)]
  {
    hide Run;
    var s2 := s1.(lookups := s1.lookups[0 := HasTime(key, first.generation, 0, 0.0)]);
    acts := acts0;
    Extend(c, first, acts, ReadClock(0), s1, s2);
    var s3 := s2.(lookups := s2.lookups[0 := Missed(key, first.generation, 0)]);
    acts := acts + [ReadClock(0)];
    Extend(c, first, acts, Probe(0), s2, s3);
    s4 := s3.(lookups := s3.lookups[0 := Computed(key, first.generation, 0, c.query(key, first), 0, 0.0)]);
    acts := acts + [Probe(0)];
    Extend(c, first, acts, Compute(0), s3, s4);
    acts := acts + [Compute(0)];
  }

  lemma StoreLater(c: Config, first: Snapshot, next: Snapshot, acts: seq<Action>, s4: State, key: Key, delay: real)
      returns (acts': seq<Action>, s: State)
    requires next.generation == first.generation
    requires delay >= 0.0 && Run(c, first, acts) == Some(s4) && s4.db == [first] && s4.since == [0.0] && s4.clock == 0.0
    requires s4.lookups == map[0 := Computed(key, first.generation, 0, c.query(key, first), 0, 0.0)]
    ensures Run(c, first, acts') == Some(s) && s.since == [0.0, 0.0] && s.clock == delay && s.lookups == map[]
    ensures s.db == [first, next] && key in s.entries && s.entries[key].generation == first.generation
    ensures s.entries[key].value == c.query(key, first)
    ensures s.entries[key].version == 0 && s.entries[key].readAt == 0.0 && s.entries[key].computedAt == delay
  {
    hide Run;
    var s5 := Commit(s4, next);
    Extend(c, first, acts, Maintain(next), s4, s5);
    var s6 := s5.(clock := delay);
    acts' := acts + [Maintain(next)];
    Extend(c, first, acts', Tick(delay), s5, s6);
    acts' := acts' + [Tick(delay)];
    s := Step(c, s6, Store(0)).value;
    Extend(c, first, acts', Store(0), s6, s);
    acts' := acts' + [Store(0)];
  }

  /**
   The bound is attained, so the maximum age alone is none: for every change the
   token does not see and every duration of a computation there is a hit that
   still answers from the old state, superseded that much longer ago.
   */
  lemma StalenessIsAttained(c: Config, first: Snapshot, next: Snapshot, key: Key, delay: real)
      returns (acts: seq<Action>, s: State)
    requires delay >= 0.0 && c.maxAge >= 0.0 && next.generation == first.generation
    ensures Run(c, first, acts) == Some(s) && s.answers != [] && s.db == [first, next] && |s.since| == 2
    ensures var a := s.answers[|s.answers| - 1];
      && a.hit && a.key == key && a.value == c.query(key, first) && a.storedAt - a.readAt == delay
      && a.asOf - s.since[1] == c.maxAge + delay
  {
    var acts0, t := SlowStore(c, first, next, key, delay);
    hide Run;
    var t1 := t.(clock := delay + c.maxAge);
    Extend(c, first, acts0, Tick(c.maxAge), t, t1);
    acts := acts0 + [Tick(c.maxAge)];
    var t2 := t1.(lookups := t1.lookups[1 := HasToken(key, first.generation, 1)]);
    Extend(c, first, acts, ReadToken(1, key), t1, t2);
    acts := acts + [ReadToken(1, key)];
    var t3 := t2.(lookups := t2.lookups[1 := HasTime(key, first.generation, 1, delay + c.maxAge)]);
    Extend(c, first, acts, ReadClock(1), t2, t3);
    acts := acts + [ReadClock(1)];
    s := Step(c, t3, Probe(1)).value;
    Extend(c, first, acts, Probe(1), t3, s);
    acts := acts + [Probe(1)];
  }
}
