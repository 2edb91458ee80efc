/**
 What the trade source of `ingestion/horizon_streamer.py` hands to
 `run_streaming`: which events it yields, where it resumes, and that with the
 duplicate check on it yields no trade twice.
 */
module CursorSource {
  import opened Wrappers
  import opened CursorStream

  // ---------------------------------------------------------------- one event

  /** An event is yielded exactly if nothing says it is too old or a duplicate; it is passed either way. */
  lemma YieldedIff(cfg: Config, s: State, id: bool, age: real)
    requires s.session.Some? && s.session.value.stage == Reading && s.session.value.pos < s.head
    ensures var (ss, next) := (s.session.value, Step(cfg, s, Fetch(id, age)));
      && next.Some? && next.value.session.Some?
      && var ss' := next.value.session.value;
         var isOld := cfg.replayWindow > 0.0 && age > cfg.replayWindow;
         && (ss'.stage == Fetched(ss.pos) <==> cfg.dedup == Off || (!isOld && ss.pos !in s.marked))
         && (ss'.stage != Fetched(ss.pos) ==> ss'.stage == Reading && next.value.marked == s.marked)
         && (ss'.stage == Fetched(ss.pos) && cfg.dedup != Off ==> next.value.marked == s.marked + {ss.pos})
         && ss'.pos == ss.pos + 1 && ss'.buffer == ss.buffer && ss'.last == ss.last
  {
  }

  /** Once its mark has expired, a trade that is not too old is yielded again. */
  lemma ExpiredMarkYieldsAgain(cfg: Config, s: State, id: bool, age: real) returns (s1: State, s2: State)
    requires s.session.Some? && s.session.value.stage == Reading && s.session.value.pos < s.head
    requires cfg.replayWindow <= 0.0 || age <= cfg.replayWindow
    ensures Step(cfg, s, Forget(s.session.value.pos)) == Some(s1) && Step(cfg, s1, Fetch(id, age)) == Some(s2)
    ensures s2.session.Some? && s2.session.value.stage == Fetched(s.session.value.pos)
  {
    s1 := Step(cfg, s, Forget(s.session.value.pos)).value;
    s2 := Step(cfg, s1, Fetch(id, age)).value;
  }

  // ---------------------------------------------------------------- where it resumes

  /** Nothing connects, and no event with an id comes. */
  predicate NoNewToken(acts: seq<Action>) {
    forall i :: 0 <= i < |acts| ==>
      !acts[i].Start? && !acts[i].Reconnect? && !acts[i].Reject? && (acts[i].Fetch? ==> !acts[i].id)
  }

  lemma {:induction false} StreamKept(cfg: Config, s: State, acts: seq<Action>, s': State)
    requires s.session.Some? && NoNewToken(acts) && Run(cfg, s, acts) == Some(s') && s'.session.Some?
    ensures s'.session.value.stream == s.session.value.stream
    decreases |acts|
  {
    if acts != [] {
      var next := Step(cfg, s, acts[0]).value;
      if next.session.Some? {
        StreamKept(cfg, next, acts[1..], s');
      } else {
        EndedStays(cfg, next, acts[1..], s');
      }
    }
  }

  lemma {:induction false} EndedStays(cfg: Config, s: State, acts: seq<Action>, s': State)
    requires s.session.None? && Run(cfg, s, acts) == Some(s')
    requires forall i :: 0 <= i < |acts| ==> !acts[i].Start?
    ensures s'.session.None?
    decreases |acts|
  {
    if acts != [] {
      EndedStays(cfg, Step(cfg, s, acts[0]).value, acts[1..], s');
    }
  }

  /** A connection resumes behind the last event that had an id, whatever came after it. */
  lemma ResumesBehindLastId(cfg: Config, s: State, age: real, acts: seq<Action>, s1: State, s2: State)
    requires s.session.Some? && NoNewToken(acts)
    requires Step(cfg, s, Fetch(true, age)) == Some(s1) && Run(cfg, s1, acts) == Some(s2)
    requires s2.session.Some? && s2.session.value.stage == Reading
    ensures Step(cfg, s2, Reconnect).Some?
    ensures var s3 := Step(cfg, s2, Reconnect).value;
      s3 == s2.(session := Some(s2.session.value.(pos := s.session.value.pos + 1)))
  {
    StreamKept(cfg, s1, acts, s2);
  }

  /** A session that starts with a paging token on file, and has seen no id since, resumes there; without one, at the head. */
  lemma ResumesAtFile(cfg: Config, s: State, now: real, acts: seq<Action>, s1: State, s2: State)
    requires FileOk(s) && s.session.None? && NoNewToken(acts)
    requires Step(cfg, s, Start(now)) == Some(s1) && Run(cfg, s1, acts) == Some(s2)
    requires s2.session.Some? && s2.session.value.stage == Reading
    ensures s1.session.Some? && s1.session.value.buffer == [] && s1.session.value.stage == Reading
    ensures s1.session.value.pos == if HasCursor(s) then s.file.value.next else s.head
    ensures Step(cfg, s2, Reconnect).Some? && Step(cfg, s2, Reconnect).value.session.Some?
    ensures Step(cfg, s2, Reconnect).value.session.value.pos == if HasCursor(s) then s.file.value.next else s2.head
  {
    StreamKept(cfg, s1, acts, s2);
  }

  /** A rejected token is given up: that connection and the next ones, until an id comes, begin at the head. */
  lemma RejectedTokenIsForgotten(cfg: Config, s: State, acts: seq<Action>, s1: State, s2: State)
    requires Step(cfg, s, Reject) == Some(s1) && NoNewToken(acts) && Run(cfg, s1, acts) == Some(s2)
    requires s2.session.Some? && s2.session.value.stage == Reading
    ensures s1.session.Some? && s1.session.value.pos == s.head
    ensures Step(cfg, s2, Reconnect).Some? && Step(cfg, s2, Reconnect).value.session.Some?
    ensures Step(cfg, s2, Reconnect).value.session.value.pos == s2.head
    ensures Step(cfg, s2, Reject).None?
  {
    StreamKept(cfg, s1, acts, s2);
  }

  // ---------------------------------------------------------------- no trade twice

  /** The trades the source yields during a run, in order. */
  function Yielded(cfg: Config, s: State, acts: seq<Action>): seq<nat>
    requires Run(cfg, s, acts).Some?
    decreases |acts|
  {
    if acts == [] then []
    else
      var s' := Step(cfg, s, acts[0]).value;
      var handed := acts[0].Fetch? && s'.session.Some? && s'.session.value.stage.Fetched?;
      (if handed then [s'.session.value.stage.trade] else []) + Yielded(cfg, s', acts[1..])
  }

  /** No mark is lost: none expires, and a store inside the process is not started anew. */
  predicate MarksKept(cfg: Config, acts: seq<Action>) {
    && cfg.dedup != Off
    && forall i :: 0 <= i < |acts| ==> !acts[i].Forget? && (acts[i].Start? ==> cfg.dedup == Shared)
  }

  /** A marked trade is not yielded, nor any trade by a process that is gone with its store. */
  lemma {:induction false} MarkedNotYielded(cfg: Config, s: State, acts: seq<Action>, n: nat)
    requires Run(cfg, s, acts).Some? && MarksKept(cfg, acts)
    requires n in s.marked || (cfg.dedup == InProcess && s.session.None?)
    ensures n !in Yielded(cfg, s, acts)
    decreases |acts|
  {
    if acts != [] {
      MarkedNotYielded(cfg, Step(cfg, s, acts[0]).value, acts[1..], n);
    }
  }

  /** In every run that keeps the marks, through every reconnect and rejection, no trade is yielded twice. */
  lemma {:induction false} NoTradeTwice(cfg: Config, s: State, acts: seq<Action>)
    requires Run(cfg, s, acts).Some? && MarksKept(cfg, acts)
    ensures var ys := Yielded(cfg, s, acts); forall i, j :: 0 <= i < j < |ys| ==> ys[i] != ys[j]
    decreases |acts|
  {
    if acts != [] {
      var s' := Step(cfg, s, acts[0]).value;
      NoTradeTwice(cfg, s', acts[1..]);
      if acts[0].Fetch? && s'.session.Some? && s'.session.value.stage.Fetched? {
        MarkedNotYielded(cfg, s', acts[1..], s'.session.value.stage.trade);
      } else {
        assert Yielded(cfg, s, acts) == Yielded(cfg, s', acts[1..]);
      }
    }
  }
}
