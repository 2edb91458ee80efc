/**
 `run_streaming` of `run_pipeline.py` with the flush order of
 `_flush_streaming_buffer`, over the trade source of
 `ingestion/horizon_streamer.py`.

 Trades are numbered by their place in the ledger's trade stream.  Between any
 two statements the process may crash or be interrupted from the keyboard;
 while it waits for the next trade the source may reconnect or have its cursor
 rejected; afterwards it may be started again, and so on.
 */
module CursorStream {
  import opened Wrappers

  /** "now", or the paging token after which `next` is the first trade. */
  datatype Cursor = Now | From(next: nat)

  /** Where the source remembers the trades it has handed out, if anywhere. */
  datatype Dedup = Off | InProcess | Shared  // Shared marks survive a restart

  /** With dedup on, a trade older than a positive replay window is skipped as well. */
  datatype Config = Config(batchSize: int, interval: real, dedup: Dedup, replayWindow: real)

  datatype Stage =
    | Reading                                  // waiting for the next trade
    | Fetched(trade: nat)                      // the source is about to yield it
    | Appended                                 // in the buffer, last_cursor not updated
    | Advanced                                 // last_cursor updated, flush not decided
    | Flushing(final: bool, now: real)         // nothing saved yet
    | Saved(isFinal: bool, at: real)           // scores saved, cursor not written
    | Persisted(stamp: real)                   // cursor written, buffer not cleared

  datatype Session = Session(
    pos: nat,          // next trade the source will see
    stream: Cursor,    // the source's own cursor
    last: Cursor,      // last_cursor
    buffer: seq<nat>, lastFlush: real, stage: Stage)

  datatype State = State(
    file: Option<Cursor>,     // the cursor file
    saved: set<nat>,          // trades whose accounts were scored and saved
    marked: set<nat>,         // trades the dedup store knows
    head: nat,                // trades that have happened so far
    session: Option<Session>,
    // history: where the first connection began, how many later connections were
    // made at "now", and the trades passed over though neither saved nor buffered
    begun: bool, origin: nat, jumps: nat, dropped: set<nat>)

  datatype Action =
    | Occur                            // a trade happens on the ledger
    | Start(began: real)
    | Fetch(id: bool, age: real)       // the next event, with or without an event id
    | Append
    | Advance
    | Check(now: real)
    | Save
    | Persist
    | Clear
    | Reconnect
    | Reject                           // HTTP 404 or 410: the source falls back to "now"
    | Interrupt(when: real)            // KeyboardInterrupt
    | Stop                             // crash, other exception, or end of the source's stream
    | Forget(trade: nat)               // a dedup mark expires

  // ---------------------------------------------------------------- steps

  function Init(head: nat): State { State(None, {}, {}, head, None, false, head, 0, {}) }

  function In(s: State, ss: Session): State { s.(session := Some(ss)) }

  function End(cfg: Config, s: State): State {
    s.(session := None, marked := if cfg.dedup == Shared then s.marked else {})
  }

  /** The trades since the origin that are neither saved nor buffered. */
  function Unsaved(s: State, buffer: seq<nat>): set<nat> {
    set n | s.origin <= n < s.head && n !in s.saved && n !in buffer
  }

  /** Connecting at a cursor; at "now" everything not in hand is passed over. */
  function Place(s: State, ss: Session, c: Cursor): State {
    if c.From? then In(s, ss.(pos := c.next, stream := c))
    else In(s, ss.(pos := s.head, stream := Now)).(jumps := s.jumps + 1, dropped := s.dropped + Unsaved(s, ss.buffer))
  }

  function Connect(s: State, now: real): State {
    var c := if s.file.Some? then s.file.value else Now;
    var ss := Session(s.head, c, c, [], now, Reading);
    if s.begun then Place(s, ss, c) else In(s, ss).(begun := true, origin := s.head)
  }

  /** `_check_trade_dedup`: the replay check comes before the duplicate check. */
  predicate Skips(cfg: Config, s: State, n: nat, age: real) {
    cfg.dedup != Off && ((cfg.replayWindow > 0.0 && age > cfg.replayWindow) || n in s.marked)
  }

  function Next(cfg: Config, s: State, ss: Session, id: bool, age: real): State {
    var n := ss.pos;
    var moved := ss.(pos := n + 1, stream := if id then From(n + 1) else ss.stream);
    if Skips(cfg, s, n, age) then
      In(s, moved).(dropped := if n in s.saved || n in ss.buffer then s.dropped else s.dropped + {n})
    else
      In(s, moved.(stage := Fetched(n))).(marked := if cfg.dedup == Off then s.marked else s.marked + {n})
  }

  predicate Due(cfg: Config, ss: Session, now: real) {
    |ss.buffer| >= cfg.batchSize || now - ss.lastFlush >= cfg.interval
  }

  /** The interrupt handler is flushing; nothing is fetched any more. */
  predicate Ending(stage: Stage) { (stage.Flushing? && stage.final) || (stage.Saved? && stage.isFinal) }

  function Items(b: seq<nat>): set<nat> { set n | n in b }

  /** A step of the running session. */
  function SessionStep(cfg: Config, s: State, ss: Session, a: Action): Option<State> {
    match a
    case Fetch(id, age) => if ss.stage == Reading && ss.pos < s.head then Some(Next(cfg, s, ss, id, age)) else None
    case Append =>
      if ss.stage.Fetched? then
        Some(In(s, ss.(buffer := ss.buffer + [ss.stage.trade], stage := Appended)).(dropped := s.dropped - {ss.stage.trade}))
      else None
    case Advance => if ss.stage == Appended then Some(In(s, ss.(last := ss.stream, stage := Advanced))) else None
    case Check(now) =>
      if ss.stage != Advanced then None
      else Some(In(s, ss.(stage := if Due(cfg, ss, now) then Flushing(false, now) else Reading)))
    case Save =>
      if ss.stage.Flushing? then
        Some(In(s, ss.(stage := Saved(ss.stage.final, ss.stage.now))).(saved := s.saved + Items(ss.buffer)))
      else None
    case Persist =>
      if !ss.stage.Saved? then None
      else if ss.stage.isFinal then Some(End(cfg, s.(file := Some(ss.last))))
      else Some(In(s, ss.(stage := Persisted(ss.stage.at))).(file := Some(ss.last)))
    case Clear =>
      if ss.stage.Persisted? then Some(In(s, ss.(buffer := [], lastFlush := ss.stage.stamp, stage := Reading))) else None
    case Reconnect => if ss.stage == Reading then Some(Place(s, ss, ss.stream)) else None
    case Reject => if ss.stage == Reading && ss.stream.From? then Some(Place(s, ss, Now)) else None
    case Interrupt(when) =>
      // a second one hits the handler itself
      if ss.buffer == [] || Ending(ss.stage) then Some(End(cfg, s)) else Some(In(s, ss.(stage := Flushing(true, when))))
    case Stop => Some(End(cfg, s))
    case _ => None
  }

  function Step(cfg: Config, s: State, a: Action): Option<State> {
    match a
    case Occur => Some(s.(head := s.head + 1))
    case Forget(n) => Some(s.(marked := s.marked - {n}))
    case Start(now) => if s.session.None? then Some(Connect(s, now)) else None
    case _ => if s.session.Some? then SessionStep(cfg, s, s.session.value, a) else None
  }

  function Run(cfg: Config, s: State, acts: seq<Action>): Option<State>
    decreases |acts|
  {
    if acts == [] then Some(s)
    else
      match Step(cfg, s, acts[0])
      case None => None
      case Some(s') => Run(cfg, s', acts[1..])
  }

  // ---------------------------------------------------------------- invariant

  predicate Handled(s: State, n: nat) { n in s.saved || n in s.dropped }

  function InFlight(ss: Session): set<nat> { if ss.stage.Fetched? then {ss.stage.trade} else {} }

  /** The trades from the origin up to `c` are dealt with or in `more`. */
  predicate Covered(s: State, c: nat, more: set<nat>) { forall n :: s.origin <= n < c ==> Handled(s, n) || n in more }

  predicate HasCursor(s: State) { s.file.Some? && s.file.value.From? }

  /** The cursor file: every trade before it, since the origin, is dealt with. */
  predicate FileOk(s: State) {
    && s.origin <= s.head
    && (!s.begun ==> s.session.None? && s.file.None?)
    && (HasCursor(s) ==> s.origin <= s.file.value.next <= s.head && Covered(s, s.file.value.next, {}))
  }

  predicate Below(c: Cursor, n: nat) { c.From? ==> c.next <= n }

  /** The cursors of a session, where real: file <= last_cursor <= the source's cursor <= position. */
  predicate CursorsOk(s: State, ss: Session) {
    && s.origin <= ss.pos <= s.head
    && (ss.stream.From? ==> s.origin <= ss.stream.next <= ss.pos && Below(ss.last, ss.stream.next))
    && (ss.last.From? ==> s.origin <= ss.last.next <= ss.pos)
    && (HasCursor(s) ==>
          var c := s.file.value.next;
          && c <= ss.pos && (ss.stream.From? ==> c <= ss.stream.next) && (ss.last.From? ==> c <= ss.last.next))
    && (ss.stage.Fetched? ==>
          var n := ss.stage.trade;
          && s.origin <= n < ss.pos && Below(ss.last, n) && (HasCursor(s) ==> s.file.value.next <= n))
  }

  predicate PositionCovered(s: State, ss: Session) {
    !Ending(ss.stage) ==> Covered(s, ss.pos, Items(ss.buffer) + InFlight(ss))
  }

  predicate LastCovered(s: State, ss: Session) {
    && (ss.last.From? ==> Covered(s, ss.last.next, Items(ss.buffer)))
    && (ss.stage.Saved? || ss.stage.Persisted? ==> Items(ss.buffer) <= s.saved)
  }

  /** The source hands over every trade it is asked for in one session. */
  predicate Quiet(cfg: Config) { cfg.dedup == Off || (cfg.dedup == InProcess && cfg.replayWindow <= 0.0) }

  /** The trades on record as passed over are unsaved, and there is a reason for them. */
  predicate DropsOk(cfg: Config, s: State) {
    && s.dropped !! s.saved
    && (s.session.Some? ==> s.dropped !! Items(s.session.value.buffer))
    && (Quiet(cfg) && s.jumps == 0 ==> s.dropped == {})
  }

  predicate StoreOk(cfg: Config, s: State) {
    (forall n :: n in s.marked ==> n < s.head) && (cfg.dedup != Shared ==> MarksOk(s))
  }

  /** Without a shared store, marks are of trades this session has in hand or saved. */
  predicate MarksOk(s: State) {
    if s.session.None? then s.marked == {}
    else
      var ss := s.session.value;
      !Ending(ss.stage) ==> s.marked <= s.saved + Items(ss.buffer) + InFlight(ss)
  }

  predicate SizeOk(cfg: Config, ss: Session) {
    if ss.stage.Reading? || ss.stage.Fetched? then ss.buffer == [] || |ss.buffer| < cfg.batchSize
    else |ss.buffer| <= (if cfg.batchSize > 1 then cfg.batchSize else 1)
  }

  ghost predicate Inv(cfg: Config, s: State) {
    && FileOk(s) && DropsOk(cfg, s) && StoreOk(cfg, s)
    && (s.session.Some? ==>
          && CursorsOk(s, s.session.value) && SizeOk(cfg, s.session.value)
          && PositionCovered(s, s.session.value) && LastCovered(s, s.session.value))
  }

  lemma StepKeepsFile(cfg: Config, s: State, a: Action, s': State)
    requires Step(cfg, s, a) == Some(s') && Inv(cfg, s)
    ensures FileOk(s')
  {
    hide DropsOk, StoreOk;
  }

  lemma StepKeepsCursors(cfg: Config, s: State, a: Action, s': State)
    requires Step(cfg, s, a) == Some(s') && Inv(cfg, s) && s'.session.Some?
    ensures CursorsOk(s', s'.session.value)
  {
    hide DropsOk, StoreOk, PositionCovered, LastCovered, Covered;
  }

  lemma StepKeepsPosition(cfg: Config, s: State, a: Action, s': State)
    requires Step(cfg, s, a) == Some(s') && Inv(cfg, s) && s'.session.Some?
    ensures PositionCovered(s', s'.session.value)
  {
    hide DropsOk, StoreOk, SizeOk;
    if a.Append? {
      var ss := s.session.value;
      assert Items(ss.buffer + [ss.stage.trade]) == Items(ss.buffer) + {ss.stage.trade};
    }
  }

  lemma StepKeepsLast(cfg: Config, s: State, a: Action, s': State)
    requires Step(cfg, s, a) == Some(s') && Inv(cfg, s) && s'.session.Some?
    ensures LastCovered(s', s'.session.value)
  {
    hide DropsOk, StoreOk, SizeOk;
    if a.Append? {
      var ss := s.session.value;
      assert Items(ss.buffer + [ss.stage.trade]) == Items(ss.buffer) + {ss.stage.trade};
    } else if a.Start? {
      assert forall n :: Handled(s, n) ==> Handled(s', n);
    }
  }

  lemma StepKeepsDrops(cfg: Config, s: State, a: Action, s': State)
    requires Step(cfg, s, a) == Some(s') && Inv(cfg, s)
    ensures DropsOk(cfg, s')
  {
    hide PositionCovered, CursorsOk, FileOk, Covered, LastCovered, SizeOk;
    if a.Append? {
      var ss := s.session.value;
      assert Items(ss.buffer + [ss.stage.trade]) == Items(ss.buffer) + {ss.stage.trade};
    }
  }

  lemma StepKeepsStore(cfg: Config, s: State, a: Action, s': State)
    requires Step(cfg, s, a) == Some(s') && Inv(cfg, s)
    ensures StoreOk(cfg, s')
  {
    hide PositionCovered, CursorsOk, FileOk, Covered, DropsOk, SizeOk, Unsaved;
    if a.Append? {
      var ss := s.session.value;
      assert Items(ss.buffer + [ss.stage.trade]) == Items(ss.buffer) + {ss.stage.trade};
    }
  }

  lemma StepKeepsSize(cfg: Config, s: State, a: Action, s': State)
    requires Step(cfg, s, a) == Some(s') && Inv(cfg, s) && s'.session.Some?
    ensures SizeOk(cfg, s'.session.value)
  {
    hide PositionCovered, LastCovered, CursorsOk, FileOk, DropsOk, StoreOk;
  }

  lemma StepKeepsInv(cfg: Config, s: State, a: Action, s': State)
    requires Step(cfg, s, a) == Some(s') && Inv(cfg, s)
    ensures Inv(cfg, s')
  {
    hide Step;
    StepKeepsFile(cfg, s, a, s');
    StepKeepsDrops(cfg, s, a, s');
    StepKeepsStore(cfg, s, a, s');
    if s'.session.Some? {
      StepKeepsCursors(cfg, s, a, s');
      StepKeepsPosition(cfg, s, a, s');
      StepKeepsLast(cfg, s, a, s');
      StepKeepsSize(cfg, s, a, s');
    }
  }

  lemma {:induction false} RunKeepsInv(cfg: Config, s: State, acts: seq<Action>, s': State)
    requires Inv(cfg, s) && Run(cfg, s, acts) == Some(s')
    ensures Inv(cfg, s')
    decreases |acts|
  {
    hide Inv, Step;
    if acts != [] {
      var next := Step(cfg, s, acts[0]).value;
      StepKeepsInv(cfg, s, acts[0], next);
      RunKeepsInv(cfg, next, acts[1..], s');
    }
  }

  // ---------------------------------------------------------------- main results

  /**
   Over every sequence of trades, flushes, crashes, interrupts, rejections and
   restarts: of the trades from the origin up to the persisted cursor, exactly
   those on record as passed over are unsaved.
   */
  lemma PersistedCursorIsCovered(cfg: Config, start: nat, acts: seq<Action>, s: State, c: nat)
    requires Run(cfg, Init(start), acts) == Some(s) && s.file == Some(From(c))
    ensures s.origin <= c <= s.head
    ensures forall n :: s.origin <= n < c ==> (n in s.saved <==> n !in s.dropped)
    ensures Quiet(cfg) && s.jumps == 0 ==> s.dropped == {}
  {
    RunKeepsInv(cfg, Init(start), acts, s);
    assert Covered(s, c, {});
    forall n | s.origin <= n < c ensures n in s.saved <==> n !in s.dropped {
      assert Handled(s, n);
    }
  }

  /** In a running session every trade up to the position is saved, in hand, or on record as passed over. */
  lemma NothingUnrecorded(cfg: Config, start: nat, acts: seq<Action>, s: State, n: nat)
    requires Run(cfg, Init(start), acts) == Some(s) && s.session.Some?
    requires !Ending(s.session.value.stage) && s.origin <= n < s.session.value.pos
    ensures n in s.saved || n in s.session.value.buffer || s.session.value.stage == Fetched(n) || n in s.dropped
    ensures n in s.dropped ==> n !in s.saved && n !in s.session.value.buffer && !(Quiet(cfg) && s.jumps == 0)
  {
    RunKeepsInv(cfg, Init(start), acts, s);
    assert Handled(s, n) || n in Items(s.session.value.buffer) + InFlight(s.session.value);
  }

  /** The buffer stays within the batch size (or one trade, for a batch size below one). */
  lemma BufferIsBounded(cfg: Config, start: nat, acts: seq<Action>, s: State)
    requires Run(cfg, Init(start), acts) == Some(s) && s.session.Some?
    ensures |s.session.value.buffer| <= if cfg.batchSize > 1 then cfg.batchSize else 1
  {
    RunKeepsInv(cfg, Init(start), acts, s);
  }
}
