/**
 When a lookup of `api/score_cache.py` is answered from the cache: exactly when
 the latest value stored for its key, and not cleared since, was computed under
 the token the lookup read and is not older than the maximum age.
 */
module CacheHits {
  import opened Wrappers
  import opened ScoreCache

  /**
   The decision of a probe in every reachable state: the entry is returned, with
   its age, exactly if its token is the lookup's and it is not too old; otherwise
   the lookup goes on to compute, and in neither case does the cache change.
   */
  lemma ProbeDecides(c: Config, first: Snapshot, acts: seq<Action>, s: State, id: nat)
    requires Run(c, first, acts) == Some(s) && id in s.lookups && s.lookups[id].HasTime?
    ensures Step(c, s, Probe(id)).Some? && s.lookups[id].start < |s.db|
    ensures var (l, s') := (s.lookups[id], Step(c, s, Probe(id)).value);
      var hit := && l.key in s.entries && s.entries[l.key].generation == s.db[l.start].generation
                 && l.now <= s.entries[l.key].computedAt + c.maxAge;
      && s'.entries == s.entries && s'.db == s.db
      && (hit <==> id !in s'.lookups) && (hit <==> s'.answers != s.answers)
      && (hit ==>
            && |s'.answers| == |s.answers| + 1 && s'.answers[..|s.answers|] == s.answers
            && var a := s'.answers[|s.answers|];
               a.hit && a.key == l.key && a.value == s.entries[l.key].value && a.age == l.now - s.entries[l.key].computedAt)
      && (!hit ==> id in s'.lookups && s'.lookups[id] == Missed(l.key, l.token, l.start))
  {
    RunKeepsInv(c, first, acts);
    assert LookupOk(c, s.db, s.lookups[id]);
  }

  /** A finished computation is stored under the token read before it began, and returned as a miss of age zero. */
  lemma StoreReplaces(c: Config, s: State, id: nat)
    requires s.db != [] && id in s.lookups && s.lookups[id].Computed?
    ensures Step(c, s, Store(id)).Some?
    ensures var (l, s') := (s.lookups[id], Step(c, s, Store(id)).value);
      && l.key in s'.entries && s'.entries - {l.key} == s.entries - {l.key}
      && s'.entries[l.key].value == l.value && s'.entries[l.key].generation == l.token
      && s'.entries[l.key].computedAt == s.clock
      && |s'.answers| == |s.answers| + 1 && id !in s'.lookups
      && var a := s'.answers[|s.answers|]; !a.hit && a.key == l.key && a.value == l.value && a.age == 0.0
  {
  }

  /**
   Program order, in every state: a lookup's steps come one after the other and
   each exactly once, a running lookup cannot be begun again, and a commit is a
   score write exactly if its token is larger.
   */
  lemma StepsComeInOrder(c: Config, s: State, id: nat, key: Key, n: Snapshot)
    requires s.db != []
    ensures Step(c, s, ReadToken(id, key)).Some? <==> id !in s.lookups
    ensures Step(c, s, ReadClock(id)).Some? <==> id in s.lookups && s.lookups[id].HasToken?
    ensures Step(c, s, Probe(id)).Some? <==> id in s.lookups && s.lookups[id].HasTime?
    ensures Step(c, s, Compute(id)).Some? <==> id in s.lookups && s.lookups[id].Missed?
    ensures Step(c, s, ComputeRaises(id)).Some? <==> id in s.lookups && s.lookups[id].Missed?
    ensures Step(c, s, Store(id)).Some? <==> id in s.lookups && s.lookups[id].Computed?
    ensures Step(c, s, CommitScores(n)).Some? <==> n.generation > s.db[|s.db| - 1].generation
    ensures Step(c, s, Maintain(n)).Some? <==> n.generation == s.db[|s.db| - 1].generation
  {
  }

  /** A computation that raises leaves no trace: the next lookup of the key computes again. */
  lemma RaiseLeavesNothing(c: Config, s: State, id: nat)
    requires s.db != [] && id in s.lookups && s.lookups[id].Missed?
    ensures var s' := Step(c, s, ComputeRaises(id));
      s'.Some? && id !in s'.value.lookups && s'.value == s.(lookups := s'.value.lookups)
      && s'.value.lookups == s.lookups - {id}
  {
  }

  /** The action replaces or removes the entry of `key`. */
  predicate Touches(s: State, a: Action, key: Key) {
    a.Clear? || (a.Store? && a.id in s.lookups && s.lookups[a.id].key == key)
  }

  lemma UntouchedEntry(c: Config, s: State, a: Action, s': State, key: Key)
    requires s.db != [] && Step(c, s, a) == Some(s') && !Touches(s, a, key)
    ensures key in s'.entries <==> key in s.entries
    ensures key in s.entries ==> s'.entries[key] == s.entries[key]
  {
  }

  lemma {:induction false} EntryStays(c: Config, first: Snapshot, acts: seq<Action>, m: nat, early: State, late: State, key: Key)
    requires m <= |acts| && Run(c, first, acts[..m]) == Some(early) && Run(c, first, acts) == Some(late)
    requires forall k :: m <= k < |acts| && Run(c, first, acts[..k]).Some? ==> !Touches(Run(c, first, acts[..k]).value, acts[k], key)
    ensures key in late.entries <==> key in early.entries
    ensures key in early.entries ==> late.entries[key] == early.entries[key]
    decreases |acts|
  {
    if m == |acts| {
      assert acts[..m] == acts;
    } else {
      var (front, a) := (acts[..|acts| - 1], acts[|acts| - 1]);
      assert front[..m] == acts[..m];
      assert forall k :: m <= k < |front| ==> front[..k] == acts[..k];
      var s := Run(c, first, front).value;
      EntryStays(c, first, front, m, early, s, key);
      hide Step;
      UntouchedEntry(c, s, a, late, key);
    }
  }

  lemma {:induction false} DbIsPrefix(c: Config, first: Snapshot, acts: seq<Action>, m: nat, early: State, late: State)
    requires m <= |acts| && Run(c, first, acts[..m]) == Some(early) && Run(c, first, acts) == Some(late)
    ensures early.db <= late.db
    decreases |acts|
  {
    if m == |acts| {
      assert acts[..m] == acts;
    } else {
      var (front, a) := (acts[..|acts| - 1], acts[|acts| - 1]);
      assert front[..m] == acts[..m];
      var s := Run(c, first, front).value;
      DbIsPrefix(c, first, front, m, early, s);
      hide Step;
      DbOnlyGrows(c, s, a, late);
    }
  }

  /**
   Over every run: after one lookup stored a value for a key, another lookup of
   that key, probing before the entry is replaced or cleared, is answered with
   that value if and only if no score write was committed between the two token
   reads and its clock reading is within the maximum age of the store.
   */
  lemma LaterLookupHitsIff(c: Config, first: Snapshot, acts: seq<Action>, m: nat, storing: State, s: State, id: nat)
    requires m < |acts| && Run(c, first, acts[..m]) == Some(storing) && acts[m].Store? && Run(c, first, acts) == Some(s)
    requires acts[m].id in storing.lookups && storing.lookups[acts[m].id].Computed?
    requires id in s.lookups && s.lookups[id].HasTime? && s.lookups[id].key == storing.lookups[acts[m].id].key
    requires forall k :: m < k < |acts| && Run(c, first, acts[..k]).Some? ==>
      !Touches(Run(c, first, acts[..k]).value, acts[k], s.lookups[id].key)
    ensures var (w, l) := (storing.lookups[acts[m].id], s.lookups[id]);
      && w.start < |s.db| && l.start < |s.db| && Step(c, s, Probe(id)).Some?
      && var s' := Step(c, s, Probe(id)).value;
         var hit := s.db[w.start].generation == s.db[l.start].generation && l.now <= storing.clock + c.maxAge;
      && (hit <==> s'.answers != s.answers)
      && (hit ==> |s'.answers| == |s.answers| + 1 && s'.answers[|s.answers|].hit && s'.answers[|s.answers|].value == w.value)
      && (!hit ==> id in s'.lookups && s'.lookups[id].Missed?)
  {
    var (w, l) := (storing.lookups[acts[m].id], s.lookups[id]);
    RunKeepsInv(c, first, acts[..m]);
    assert LookupOk(c, storing.db, w);
    assert acts[..m + 1][..m] == acts[..m];
    StoreReplaces(c, storing, acts[m].id);
    var stored := Run(c, first, acts[..m + 1]).value;
    DbIsPrefix(c, first, acts, m, storing, s);
    hide Step;
    EntryStays(c, first, acts, m + 1, stored, s, l.key);
    ProbeDecides(c, first, acts, s, id);
  }

  /** Over every run: after a `clear`, a lookup that probes before anything is stored for its key goes on to compute. */
  lemma ClearedKeyIsComputed(c: Config, first: Snapshot, acts: seq<Action>, m: nat, before: State, s: State, id: nat)
    requires m < |acts| && acts[m] == Clear && Run(c, first, acts[..m]) == Some(before) && Run(c, first, acts) == Some(s)
    requires id in s.lookups && s.lookups[id].HasTime?
    requires forall k :: m < k < |acts| && Run(c, first, acts[..k]).Some? ==>
      !Touches(Run(c, first, acts[..k]).value, acts[k], s.lookups[id].key)
    ensures Step(c, s, Probe(id)).Some?
    ensures var s' := Step(c, s, Probe(id)).value; id in s'.lookups && s'.lookups[id].Missed? && s'.answers == s.answers
  {
    assert acts[..m + 1][..m] == acts[..m];
    var cleared := Run(c, first, acts[..m + 1]).value;
    assert cleared.entries == map[];
    hide Step;
    EntryStays(c, first, acts, m + 1, cleared, s, s.lookups[id].key);
    ProbeDecides(c, first, acts, s, id);
  }
}
