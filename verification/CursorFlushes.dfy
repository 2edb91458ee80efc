/**
 When `run_streaming` of `run_pipeline.py` flushes, and what a flush leaves: the
 timing is told from the session's own clock readings alone.
 */
module CursorFlushes {
  import opened Wrappers
  import opened CursorStream

  /** When the session last began or completed a flush, and its latest clock reading after a trade. */
  datatype Watch = Watch(flushed: real, read: real)

  function Observe(w: Watch, a: Action): Watch {
    match a
    case Start(began) => w.(flushed := began)
    case Check(now) => w.(read := now)
    case Clear => w.(flushed := w.read)
    case _ => w
  }

  function Watched(w: Watch, acts: seq<Action>): Watch
    decreases |acts|
  {
    if acts == [] then w else Watched(Observe(w, acts[0]), acts[1..])
  }

  /** The session's `last_flush_time` is what was observed. */
  predicate Agrees(s: State, w: Watch) {
    s.session.Some? ==>
      var ss := s.session.value;
      && ss.lastFlush == w.flushed
      && (ss.stage.Flushing? && !ss.stage.final ==> ss.stage.now == w.read)
      && (ss.stage.Saved? && !ss.stage.isFinal ==> ss.stage.at == w.read)
      && (ss.stage.Persisted? ==> ss.stage.stamp == w.read)
  }

  lemma StepAgrees(cfg: Config, s: State, a: Action, s': State, w: Watch)
    requires Step(cfg, s, a) == Some(s') && Agrees(s, w)
    ensures Agrees(s', Observe(w, a))
  {
    hide Unsaved, Items;
  }

  lemma {:induction false} RunAgrees(cfg: Config, s: State, acts: seq<Action>, s': State, w: Watch)
    requires Agrees(s, w) && Run(cfg, s, acts) == Some(s')
    ensures Agrees(s', Watched(w, acts))
    decreases |acts|
  {
    hide Step, Agrees;
    if acts != [] {
      var next := Step(cfg, s, acts[0]).value;
      StepAgrees(cfg, s, acts[0], next, w);
      RunAgrees(cfg, next, acts[1..], s', Observe(w, acts[0]));
    }
  }

  /**
   After every trade, in every run: the buffer is flushed exactly if it has
   reached the batch size, or the clock reads at least one interval more than it
   did when the session started or last completed a flush.
   */
  lemma FlushedIffDue(cfg: Config, start: nat, acts: seq<Action>, s: State, now: real)
    requires Run(cfg, Init(start), acts) == Some(s) && s.session.Some? && s.session.value.stage == Advanced
    ensures Step(cfg, s, Check(now)).Some? && Step(cfg, s, Check(now)).value.session.Some?
    ensures var (ss, flushed) := (s.session.value, Watched(Watch(0.0, 0.0), acts).flushed);
      var next := Step(cfg, s, Check(now)).value.session.value;
      && next.buffer == ss.buffer
      && (next.stage == Flushing(false, now) <==> |ss.buffer| >= cfg.batchSize || now >= flushed + cfg.interval)
      && (next.stage != Flushing(false, now) ==> next.stage == Reading)
  {
    hide Unsaved, Items;
    RunAgrees(cfg, Init(start), acts, s, Watch(0.0, 0.0));
  }

  /** A flush that is not cut short saves the whole buffer, then puts the cursor on file, then empties the buffer. */
  lemma FlushCompletes(cfg: Config, s: State) returns (s1: State, s2: State, s3: State)
    requires s.session.Some? && s.session.value.stage.Flushing? && !s.session.value.stage.final
    ensures Step(cfg, s, Save) == Some(s1) && Step(cfg, s1, Persist) == Some(s2) && Step(cfg, s2, Clear) == Some(s3)
    ensures var ss := s.session.value;
      && s1.file == s.file && s1.saved == s.saved + Items(ss.buffer)
      && s2.file == Some(ss.last) && s2.saved == s1.saved
      && s3.session.Some? && s3.session.value.buffer == [] && s3.session.value.stage == Reading
      && s3.session.value.pos == ss.pos && s3.file == s2.file && s3.saved == s1.saved
  {
    s1 := Step(cfg, s, Save).value;
    s2 := Step(cfg, s1, Persist).value;
    s3 := Step(cfg, s2, Clear).value;
  }

  /** The state after the session is over: marks inside the process go with it. */
  predicate Over(cfg: Config, s: State, s': State) {
    s' == s.(session := None, marked := s'.marked) && s'.marked == if cfg.dedup == Shared then s.marked else {}
  }

  /**
   A keyboard interrupt ends the session at once if nothing is buffered or the
   handler is already at work; otherwise the handler saves the whole buffer, puts
   the cursor on file and then ends it.
   */
  lemma InterruptFlushes(cfg: Config, s: State, when: real) returns (s1: State, s2: State, s3: State)
    requires s.session.Some?
    ensures Step(cfg, s, Interrupt(when)) == Some(s1)
    ensures var ss := s.session.value;
      if ss.buffer == [] || Ending(ss.stage) then Over(cfg, s, s1)
      else
        && Step(cfg, s1, Save) == Some(s2) && Step(cfg, s2, Persist) == Some(s3)
        && s2.file == s.file && s2.saved == s.saved + Items(ss.buffer)
        && Over(cfg, s2.(file := Some(ss.last)), s3)
  {
    s1 := Step(cfg, s, Interrupt(when)).value;
    s2, s3 := s1, s1;
    if s1.session.Some? {
      s2 := Step(cfg, s1, Save).value;
      s3 := Step(cfg, s2, Persist).value;
    }
  }
}
