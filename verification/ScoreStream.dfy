/**
 The bounded-buffer relay of `api/grpc_scoring_service.py`: a producer thread
 fills a bounded queue, the RPC thread drains it into the response stream.

 The two threads are one labelled transition system.  Every statement that
 reads or writes something shared (the queue, the two events, the flags, the
 clock) is a step of its own, so an action sequence is one interleaving.
 */
module ScoreStream {
  import opened Wrappers

  // ---------------------------------------------------------------- data

  datatype Score = Score(wallet: string, assetPair: string, score: int)

  datatype Failure = StreamAbort(code: string) | OtherError(message: string)

  /** What one `next()` on the producer's iterator does. */
  datatype SourceEvent = Item(item: Score) | Exhausted | Raises(failure: Failure)

  /** `source(k)` is the k-th `next()`; the iterator may be infinite. */
  datatype Config = Config(capacity: nat, slowTimeout: real, source: nat -> SourceEvent) {
    // Enforced by the settings validator, which leaves the timeout unconstrained.
    ghost predicate Valid() { capacity > 0 }
  }

  const POLL: real := 0.05

  /** Where `_put` is: its loop test, reading the clock, waiting for room, refused. */
  datatype Phase =
    | Checking
    | Arming
    | Entering(timeout: real)
    | Waiting(endTime: real)
    | Overdue(fullAt: real)

  /** Where the producer thread is.  `start` is when `_put` fixed its deadline. */
  datatype Producer =
    | Fetching
    | Putting(item: Score, start: real, phase: Phase)
    | Finishing
    | Cancelling
    | Done

  datatype Outcome = Completed | SlowAbort | Aborted(code: string) | Raised(failure: Failure) | Closed

  datatype Consumer =
    | Getting
    | CheckFinished
    | CheckEmpty
    | Delivering(next: Score)
    | AtYield
    | Leaving
    | ReadSlow
    | ReadError
    | Over(outcome: Outcome)

  /** Why the producer's loop ended. */
  datatype Exit = ExitExhausted | ExitRaised | ExitSlow | ExitStopped

  datatype State = State(
    buf: seq<Score>, stop: bool, finished: bool, slow: bool, error: Option<Failure>,
    cancelled: bool, clock: real, producer: Producer, consumer: Consumer,
    yielded: seq<Score>,
    // history: items accepted by the queue, why the producer left its loop,
    // the latest instant at which the queue had room
    accepted: nat, exit: Option<Exit>, roomAt: real)

  datatype Action = Produce | Consume | GetTimesOut | Resume | Close | Tick(elapsed: real)

  // ---------------------------------------------------------------- steps

  function Init(clock: real): State {
    State([], false, false, false, None, false, clock, Fetching, Getting, [], 0, None, clock)
  }

  function RealMin(a: real, b: real): real { if a <= b then a else b }

  function RealMax(a: real, b: real): real { if a >= b then a else b }

  function Leave(s: State, why: Exit): State { s.(producer := Finishing, exit := Some(why)) }

  function ProducerStep(c: Config, s: State): Option<State> {
    match s.producer
    case Fetching =>
      (match c.source(s.accepted)
       case Item(x) => Some(s.(producer := Putting(x, s.clock, Checking)))
       case Exhausted => Some(Leave(s, ExitExhausted))
       case Raises(e) => Some(Leave(s, ExitRaised).(error := Some(e))))
    case Putting(x, t, phase) => PutStep(c, s, x, t, phase)
    case Finishing => Some(s.(finished := true, producer := Cancelling))
    case Cancelling => Some(s.(cancelled := s.slow, producer := Done))
    case Done => None
  }

  /** One step of `_put(x)`, whose deadline is `t + slowTimeout`. */
  function PutStep(c: Config, s: State, x: Score, t: real, phase: Phase): (r: Option<State>)
    ensures r.Some? && r.value.producer.Putting? ==>
              r.value.producer.item == x && r.value.producer.start == t
    ensures r.Some? ==>
              && r.value.consumer == s.consumer && r.value.yielded == s.yielded
              && r.value.stop == s.stop && r.value.clock == s.clock && r.value.roomAt == s.roomAt
    ensures r.Some? && !(phase.Waiting? && |s.buf| < c.capacity) ==>
              r.value.buf == s.buf && r.value.accepted == s.accepted
  {
    match phase
    case Checking =>
      Some(if s.stop then Leave(s, ExitStopped) else s.(producer := Putting(x, t, Arming)))
    case Arming =>
      var timeout := RealMin(POLL, RealMax(t + c.slowTimeout - s.clock, 0.0));
      Some(s.(producer := Putting(x, t, Entering(timeout))))
    case Entering(timeout) => Some(s.(producer := Putting(x, t, Waiting(s.clock + timeout))))
    case Waiting(end) =>
      if |s.buf| < c.capacity then
        Some(s.(buf := s.buf + [x], accepted := s.accepted + 1, producer := Fetching))
      else if s.clock >= end then Some(s.(producer := Putting(x, t, Overdue(s.clock))))
      else None
    case Overdue(_) =>
      Some(if s.clock >= t + c.slowTimeout then Leave(s, ExitSlow).(slow := true)
           else s.(producer := Putting(x, t, Checking)))
  }

  function ConsumerStep(s: State): Option<State> {
    match s.consumer
    case Getting =>
      if s.buf == [] then None
      else Some(s.(buf := s.buf[1..], consumer := Delivering(s.buf[0]), roomAt := s.clock))
    case CheckFinished => Some(s.(consumer := if s.finished then CheckEmpty else Getting))
    case CheckEmpty => Some(s.(consumer := if s.buf == [] then Leaving else Getting))
    case Delivering(x) => Some(s.(yielded := s.yielded + [x], consumer := AtYield))
    case AtYield => None
    case Leaving => Some(s.(stop := true, consumer := ReadSlow))
    case ReadSlow => Some(s.(consumer := if s.slow then Over(SlowAbort) else ReadError))
    case ReadError =>
      Some(s.(consumer := Over(
                match s.error
                case None => Completed
                case Some(StreamAbort(code)) => Aborted(code)
                case Some(OtherError(m)) => Raised(OtherError(m)))))
    case Over(_) => None
  }

  /** The state after one action, or None when the action is not enabled. */
  function Step(c: Config, s: State, a: Action): Option<State> {
    match a
    case Produce => ProducerStep(c, s)
    case Consume => ConsumerStep(s)
    case GetTimesOut =>
      if s.consumer == Getting && s.buf == [] then Some(s.(consumer := CheckFinished)) else None
    case Resume => if s.consumer == AtYield then Some(s.(consumer := Getting)) else None
    case Close =>
      if s.consumer == AtYield then Some(s.(stop := true, consumer := Over(Closed))) else None
    case Tick(d) =>
      if d < 0.0 then None
      else Some(s.(clock := s.clock + d,
                   roomAt := if |s.buf| < c.capacity then s.clock + d else s.roomAt))
  }

  /** The state an interleaving ends in, or None when it is not possible. */
  function Run(c: Config, t0: real, acts: seq<Action>): Option<State> {
    if acts == [] then Some(Init(t0))
    else
      match Run(c, t0, acts[..|acts| - 1])
      case None => None
      case Some(s) => Step(c, s, acts[|acts| - 1])
  }

  // ---------------------------------------------------------------- invariant

  function Held(s: State): seq<Score> {
    if s.consumer.Delivering? then [s.consumer.next] else []
  }

  /** Everything the queue ever accepted, in the order the client sees it. */
  function Delivered(s: State): seq<Score> { s.yielded + Held(s) + s.buf }

  /** `items` is exactly what the source's first |items| calls hand out. */
  ghost predicate FirstItems(c: Config, items: seq<Score>) {
    forall k :: 0 <= k < |items| ==> c.source(k) == Item(items[k])
  }

  predicate Draining(k: Consumer) {
    k.Leaving? || k.ReadSlow? || k.ReadError? || (k.Over? && k.outcome != Closed)
  }

  ghost predicate ConservationInv(c: Config, s: State) {
    && |s.buf| <= c.capacity
    && |Delivered(s)| == s.accepted
    && FirstItems(c, Delivered(s))
    && (s.producer.Putting? ==> c.source(s.accepted) == Item(s.producer.item))
  }

  ghost predicate ProducerInv(c: Config, s: State) {
    && (s.finished <==> s.producer.Cancelling? || s.producer.Done?)
    && (s.exit.Some? <==> s.finished || s.producer.Finishing?)
    && (s.slow <==> s.exit == Some(ExitSlow))
    && (s.error.Some? <==> s.exit == Some(ExitRaised))
    && (s.exit == Some(ExitExhausted) ==> c.source(s.accepted) == Exhausted)
    && (s.exit == Some(ExitRaised) ==> c.source(s.accepted) == Raises(s.error.value))
    && (s.exit == Some(ExitSlow) ==> c.source(s.accepted).Item?)
    && (s.producer.Putting? ==> c.source(s.accepted).Item?)
    && (s.exit == Some(ExitStopped) ==> s.stop)
    && (s.cancelled <==> s.producer.Done? && s.slow)
  }

  ghost predicate ConsumerInv(s: State) {
    && (s.stop <==> s.consumer.ReadSlow? || s.consumer.ReadError? || s.consumer.Over?)
    && (s.consumer.CheckEmpty? ==> s.finished)
    && (Draining(s.consumer) ==> s.finished && s.buf == [] && s.exit != Some(ExitStopped))
    && (s.consumer.ReadError? ==> !s.slow)
    && (s.consumer.Over? ==>
          match s.consumer.outcome
          case Completed => !s.slow && s.error == None
          case SlowAbort => s.slow
          case Aborted(code) => !s.slow && s.error == Some(StreamAbort(code))
          case Raised(e) => e.OtherError? && !s.slow && s.error == Some(e)
          case Closed => true)
  }

  /**
   As long as a put is pending, room in the queue cannot disappear; and when
   one poll can span the whole timeout, a poll ends no earlier than the deadline.
   */
  ghost predicate TimeInv(c: Config, s: State) {
    && s.roomAt <= s.clock
    && (|s.buf| < c.capacity ==> s.roomAt == s.clock)
    && PutTimeInv(c, s.producer, s.clock)
    && (s.producer.Putting? && |s.buf| >= c.capacity ==> s.roomAt <= s.producer.start)
  }

  ghost predicate PutTimeInv(c: Config, p: Producer, clock: real) {
    p.Putting? ==>
      && p.start <= clock
      && match p.phase
         case Entering(timeout) => c.slowTimeout <= POLL ==> p.start + c.slowTimeout <= clock + timeout
         case Waiting(end) => c.slowTimeout <= POLL ==> p.start + c.slowTimeout <= end
         case Overdue(fullAt) =>
           p.start <= fullAt <= clock && (c.slowTimeout <= POLL ==> p.start + c.slowTimeout <= fullAt)
         case _ => true
  }

  ghost predicate Inv(c: Config, s: State) {
    ConservationInv(c, s) && ProducerInv(c, s) && ConsumerInv(s) && TimeInv(c, s)
  }

  predicate CanPut(c: Config, s: State) {
    s.producer.Putting? && s.producer.phase.Waiting? && |s.buf| < c.capacity
  }

  lemma FirstItemsExtended(c: Config, items: seq<Score>, x: Score)
    requires FirstItems(c, items) && c.source(|items|) == Item(x)
    ensures FirstItems(c, items + [x])
  {
  }

  /** The producer's steps other than a successful put leave the data alone. */
  lemma ProduceWithoutPut(c: Config, s: State, s': State)
    requires ProducerStep(c, s) == Some(s') && !CanPut(c, s)
    ensures s'.buf == s.buf && s'.accepted == s.accepted
    ensures s'.producer.Putting? && s.producer.Putting? ==>
              s'.producer.item == s.producer.item && s'.producer.start == s.producer.start
    ensures s'.producer.Putting? && !s.producer.Putting? ==>
              c.source(s.accepted) == Item(s'.producer.item) && s'.producer.start == s.clock
  {
  }

  lemma ProduceKeepsConservation(c: Config, s: State, s': State)
    requires ConservationInv(c, s) && ProducerStep(c, s) == Some(s')
    ensures ConservationInv(c, s')
  {
    ProduceFrame(c, s, s');
    if CanPut(c, s) {
      var x := s.producer.item;
      FirstItemsExtended(c, Delivered(s), x);
      assert s'.buf == s.buf + [x];
      assert Delivered(s') == Delivered(s) + [x];
    } else {
      ProduceWithoutPut(c, s, s');
      assert Delivered(s') == Delivered(s);
    }
  }

  lemma ConsumeKeepsConservation(c: Config, s: State, s': State)
    requires ConservationInv(c, s) && ConsumerStep(s) == Some(s')
    ensures ConservationInv(c, s')
  {
    ConsumeFrame(s, s');
    ConsumeKeepsOrder(s, s');
  }

  lemma ConsumeKeepsOrder(s: State, s': State)
    requires ConsumerStep(s) == Some(s')
    ensures Delivered(s') == Delivered(s) && |s'.buf| <= |s.buf|
  {
    match s.consumer
    case Getting => assert s.buf == [s.buf[0]] + s'.buf && s'.yielded == s.yielded;
    case Delivering(x) => assert s'.buf == s.buf && s'.yielded == s.yielded + [x];
    case _ =>
  }

  lemma StepKeepsConservation(c: Config, s: State, a: Action, s': State)
    requires ConservationInv(c, s) && Step(c, s, a) == Some(s')
    ensures ConservationInv(c, s')
  {
    match a
    case Produce => ProduceKeepsConservation(c, s, s');
    case Consume => ConsumeKeepsConservation(c, s, s');
    case _ => assert Delivered(s') == Delivered(s);
  }

  /** Neither thread writes what only the other one owns. */
  lemma ProduceFrame(c: Config, s: State, s': State)
    requires ProducerStep(c, s) == Some(s')
    ensures s'.consumer == s.consumer && s'.yielded == s.yielded && s'.stop == s.stop
    ensures s'.clock == s.clock && s'.roomAt == s.roomAt
    ensures s.producer.Cancelling? ==>
              && s'.producer.Done? && s'.finished == s.finished && s'.buf == s.buf
              && s'.exit == s.exit && s'.slow == s.slow && s'.error == s.error
  {
  }

  lemma ConsumeFrame(s: State, s': State)
    requires ConsumerStep(s) == Some(s')
    ensures s'.producer == s.producer && s'.finished == s.finished && s'.slow == s.slow
    ensures s'.error == s.error && s'.accepted == s.accepted && s'.exit == s.exit
    ensures s'.cancelled == s.cancelled && s'.clock == s.clock
    ensures s.stop ==> s'.stop
  {
  }

  lemma StepKeepsProducerInv(c: Config, s: State, a: Action, s': State)
    requires ProducerInv(c, s) && Step(c, s, a) == Some(s')
    ensures ProducerInv(c, s')
  {
    if a.Consume? {
      ConsumeFrame(s, s');
    }
  }

  lemma StepKeepsConsumerInv(c: Config, s: State, a: Action, s': State)
    requires ProducerInv(c, s) && ConsumerInv(s) && Step(c, s, a) == Some(s')
    ensures ConsumerInv(s')
  {
    if a.Produce? {
      ProduceFrame(c, s, s');
    }
  }

  lemma PutKeepsPutTime(c: Config, s: State, s': State)
    requires c.Valid() && PutTimeInv(c, s.producer, s.clock) && ProducerStep(c, s) == Some(s')
    ensures PutTimeInv(c, s'.producer, s'.clock)
  {
    if s.producer.Putting? {
      assert ProducerStep(c, s) == PutStep(c, s, s.producer.item, s.producer.start, s.producer.phase);
    }
  }

  lemma StepKeepsTimeInv(c: Config, s: State, a: Action, s': State)
    requires c.Valid() && |s.buf| <= c.capacity && TimeInv(c, s) && Step(c, s, a) == Some(s')
    ensures TimeInv(c, s')
  {
    if a.Produce? {
      ProduceFrame(c, s, s');
      PutKeepsPutTime(c, s, s');
      if !CanPut(c, s) {
        ProduceWithoutPut(c, s, s');
      }
    } else if a.Consume? {
      ConsumeFrame(s, s');
    }
  }

  lemma StepKeepsInv(c: Config, s: State, a: Action, s': State)
    requires c.Valid() && Inv(c, s) && Step(c, s, a) == Some(s')
    ensures Inv(c, s')
  {
    StepKeepsConservation(c, s, a, s');
    StepKeepsProducerInv(c, s, a, s');
    StepKeepsConsumerInv(c, s, a, s');
    StepKeepsTimeInv(c, s, a, s');
  }

  /** What every interleaving keeps. */
  lemma {:induction false} RunKeepsInv(c: Config, t0: real, acts: seq<Action>)
    requires c.Valid() && Run(c, t0, acts).Some?
    ensures Inv(c, Run(c, t0, acts).value)
  {
    if acts != [] {
      var last := |acts| - 1;
      RunKeepsInv(c, t0, acts[..last]);
      StepKeepsInv(c, Run(c, t0, acts[..last]).value, acts[last], Run(c, t0, acts).value);
    }
  }

  // ---------------------------------------------------------------- safety

  /**
   No loss, duplication or reordering, and bounded memory, at every moment of
   every interleaving.
   */
  lemma NothingLostOrReordered(c: Config, t0: real, acts: seq<Action>, s: State)
    requires c.Valid() && Run(c, t0, acts) == Some(s)
    ensures FirstItems(c, s.yielded + Held(s) + s.buf)
    ensures FirstItems(c, s.yielded)
    ensures |s.buf| <= c.capacity
  {
    RunKeepsInv(c, t0, acts);
    forall k | 0 <= k < |s.yielded| ensures c.source(k) == Item(s.yielded[k]) {
      assert Delivered(s)[k] == s.yielded[k];
    }
  }

  /** What an outcome says about the iterator, given what the client received. */
  ghost predicate OutcomeJustified(c: Config, o: Outcome, received: seq<Score>) {
    && FirstItems(c, received)
    && match o
       case Completed => c.source(|received|) == Exhausted
       case Aborted(code) => c.source(|received|) == Raises(StreamAbort(code))
       case Raised(e) => e.OtherError? && c.source(|received|) == Raises(e)
       case SlowAbort => c.source(|received|).Item?
       case Closed => true
  }

  lemma InvJustifiesOutcome(c: Config, s: State)
    requires ProducerInv(c, s) && ConsumerInv(s) && s.consumer.Over?
    requires |Delivered(s)| == s.accepted && FirstItems(c, s.yielded)
    ensures OutcomeJustified(c, s.consumer.outcome, s.yielded)
    ensures s.consumer.outcome != Closed ==> s.accepted == |s.yielded| && s.buf == []
  {
    if s.consumer.outcome != Closed {
      assert |Delivered(s)| == |s.yielded|;
      match s.exit.value
      case ExitExhausted =>
      case ExitRaised =>
      case ExitSlow =>
      case ExitStopped =>
    }
  }

  /**
   What the client has received when the stream is over.  Reading `finished`
   before `empty` is what makes every case but Closed exact: the queue cannot
   refill after the producer has finished, so a normal end follows everything
   produced, and an error is raised only after every accepted item was yielded.
   */
  lemma OutcomeIsExact(c: Config, t0: real, acts: seq<Action>, s: State)
    requires c.Valid() && Run(c, t0, acts) == Some(s) && s.consumer.Over?
    ensures OutcomeJustified(c, s.consumer.outcome, s.yielded)
    ensures s.consumer.outcome != Closed ==> s.accepted == |s.yielded| && s.buf == []
    ensures s.consumer.outcome != Closed ==> (s.consumer.outcome == SlowAbort <==> s.slow)
  {
    NothingLostOrReordered(c, t0, acts, s);
    RunKeepsInv(c, t0, acts);
    InvJustifiesOutcome(c, s);
  }

  /** Every prefix of a possible interleaving is possible. */
  lemma {:induction false} PrefixRuns(c: Config, t0: real, acts: seq<Action>, m: nat)
    requires m <= |acts| && Run(c, t0, acts).Some?
    ensures Run(c, t0, acts[..m]).Some?
    decreases |acts|
  {
    if m == |acts| {
      assert acts[..m] == acts;
    } else {
      var front := acts[..|acts| - 1];
      assert front[..m] == acts[..m];
      PrefixRuns(c, t0, front, m);
    }
  }

  // ---------------------------------------------------------------- after the client left

  /** The producer has not yet passed the loop test that reads `stop`. */
  predicate BeforeStopTest(p: Producer) { !p.Putting? || p.phase.Checking? }

  /** Since `early`, at most one more item was accepted, by a put past its loop test. */
  predicate FewLatePuts(early: State, s: State) {
    && s.stop && early.accepted <= s.accepted <= early.accepted + 1
    && (s.accepted == early.accepted || BeforeStopTest(s.producer))
  }

  lemma StepKeepsFewLatePuts(c: Config, early: State, s: State, a: Action, s': State)
    requires Step(c, s, a) == Some(s') && FewLatePuts(early, s)
    ensures FewLatePuts(early, s')
  {
    if a.Produce? {
      ProduceFrame(c, s, s');
      if !CanPut(c, s) {
        ProduceWithoutPut(c, s, s');
      }
    }
  }

  /** After the consumer has left, at most the put in flight still lands. */
  lemma {:induction false} AtMostOneLatePut(c: Config, t0: real, acts: seq<Action>, m: nat, early: State, late: State)
    requires m <= |acts| && Run(c, t0, acts) == Some(late)
    requires Run(c, t0, acts[..m]) == Some(early) && early.stop
    ensures FewLatePuts(early, late)
    decreases |acts|
  {
    if m == |acts| {
      assert acts[..m] == acts;
    } else {
      var last := |acts| - 1;
      var front := acts[..last];
      assert front[..m] == acts[..m];
      var s := Run(c, t0, front).value;
      AtMostOneLatePut(c, t0, front, m, early, s);
      StepKeepsFewLatePuts(c, early, s, acts[last], late);
    }
  }

  // ---------------------------------------------------------------- slow clients

  predicate Refused(p: Producer) { p.Putting? && p.phase.Overdue? }

  lemma RefusalSeesFullQueue(c: Config, s: State, s': State)
    requires TimeInv(c, s) && ProducerStep(c, s) == Some(s') && Refused(s'.producer)
    ensures s'.roomAt <= s'.producer.start && s'.producer.phase.fullAt == s'.clock
  {
    ProduceFrame(c, s, s');
    assert s.producer.Putting?;
    assert s.producer.phase.Waiting?;
    ProduceWithoutPut(c, s, s');
  }

  lemma SlowOnlyAfterRefusal(c: Config, s: State, a: Action, s': State)
    requires TimeInv(c, s) && Step(c, s, a) == Some(s') && !s.slow && s'.slow
    ensures a.Produce? && Refused(s.producer)
    ensures s.producer.start + c.slowTimeout <= s.clock
    ensures c.slowTimeout <= POLL ==> s.producer.start + c.slowTimeout <= s.producer.phase.fullAt
  {
  }

  /** A refused put remembers when it was refused; up to then the queue was full. */
  ghost predicate FullUntilRefused(c: Config, early: State, s: State) {
    && early.clock <= s.clock
    && (|early.buf| < c.capacity ==> early.clock <= s.roomAt)
    && (Refused(s.producer) && s.producer.start < early.clock < s.producer.phase.fullAt
        ==> |early.buf| >= c.capacity)
  }

  lemma StepKeepsFullUntilRefused(c: Config, early: State, s: State, a: Action, s': State)
    requires c.Valid() && TimeInv(c, s) && Step(c, s, a) == Some(s') && FullUntilRefused(c, early, s)
    ensures FullUntilRefused(c, early, s')
  {
    if a.Produce? {
      ProduceFrame(c, s, s');
      if Refused(s'.producer) {
        RefusalSeesFullQueue(c, s, s');
      }
    } else if a.Consume? {
      ConsumeFrame(s, s');
    }
  }

  lemma RunKeepsTimeInv(c: Config, t0: real, acts: seq<Action>)
    requires c.Valid() && Run(c, t0, acts).Some?
    ensures TimeInv(c, Run(c, t0, acts).value)
  {
    RunKeepsInv(c, t0, acts);
  }

  lemma {:induction false} RefusedHistory(c: Config, t0: real, acts: seq<Action>, m: nat, early: State, late: State)
    requires c.Valid() && m <= |acts| && Run(c, t0, acts) == Some(late)
    requires Run(c, t0, acts[..m]) == Some(early)
    ensures FullUntilRefused(c, early, late)
    decreases |acts|
  {
    if m == |acts| {
      assert acts[..m] == acts;
      RunKeepsTimeInv(c, t0, acts);
    } else {
      var last := |acts| - 1;
      var front := acts[..last];
      assert front[..m] == acts[..m];
      var s := Run(c, t0, front).value;
      RefusedHistory(c, t0, front, m, early, s);
      RunKeepsTimeInv(c, t0, front);
      StepKeepsFullUntilRefused(c, early, s, acts[last], late);
    }
  }

  /**
   A client is marked slow only by a put that waited past its deadline; and
   when the timeout is no longer than one poll, only if the queue was full at
   every moment of the run between the start of that put and its deadline.
   */
  lemma SlowIsJustified(c: Config, t0: real, acts: seq<Action>, m: nat, early: State, s: State, a: Action, s': State)
    requires c.Valid() && m <= |acts| && Run(c, t0, acts) == Some(s) && Step(c, s, a) == Some(s')
    requires Run(c, t0, acts[..m]) == Some(early)
    requires !s.slow && s'.slow
    ensures Refused(s.producer) && s.producer.start + c.slowTimeout <= s.clock
    ensures c.slowTimeout <= POLL && s.producer.start < early.clock < s.producer.start + c.slowTimeout
            ==> |early.buf| >= c.capacity
  {
    RunKeepsInv(c, t0, acts);
    SlowOnlyAfterRefusal(c, s, a, s');
    RefusedHistory(c, t0, acts, m, early, s);
  }

  // With a longer timeout a put refused early in its wait can be suspended, miss
  // the room the client then makes, and read the clock only after the deadline:
  // provided the source has enough items to fill the queue and one more.

  lemma Extend(c: Config, t0: real, acts: seq<Action>, a: Action, s: State, s': State)
    requires Run(c, t0, acts) == Some(s) && Step(c, s, a) == Some(s')
    ensures Run(c, t0, acts + [a]) == Some(s')
  {
    hide Step;
    var all := acts + [a];
    assert all[..|all| - 1] == acts;
  }

  /** Nobody has read anything, and the producer is about to fetch item k. */
  ghost predicate Filled(c: Config, s: State, t0: real, k: nat) {
    && |s.buf| == k == s.accepted && s.clock == t0 && s.producer == Fetching
    && s.consumer == Getting && !s.stop && !s.slow && s.yielded == []
  }

  /** Bring a fetched item to the point where it waits for room. */
  lemma ReachWaiting(c: Config, t0: real, acts: seq<Action>, s: State) returns (acts': seq<Action>, s': State)
    requires Run(c, t0, acts) == Some(s) && s.producer.Fetching? && !s.stop
    requires c.source(s.accepted).Item? && c.slowTimeout > POLL
    ensures Run(c, t0, acts') == Some(s')
    ensures s' == s.(producer := Putting(c.source(s.accepted).item, s.clock, Waiting(s.clock + POLL)))
  {
    hide Run;
    var x := c.source(s.accepted).item;
    var s1 := s.(producer := Putting(x, s.clock, Checking));
    Extend(c, t0, acts, Produce, s, s1);
    var s2 := s.(producer := Putting(x, s.clock, Arming));
    Extend(c, t0, acts + [Produce], Produce, s1, s2);
    var s3 := s.(producer := Putting(x, s.clock, Entering(POLL)));
    Extend(c, t0, acts + [Produce] + [Produce], Produce, s2, s3);
    s' := s.(producer := Putting(x, s.clock, Waiting(s.clock + POLL)));
    Extend(c, t0, acts + [Produce] + [Produce] + [Produce], Produce, s3, s');
    acts' := acts + [Produce] + [Produce] + [Produce] + [Produce];
  }

  lemma {:induction false} FillQueue(c: Config, t0: real, k: nat) returns (acts: seq<Action>, s: State)
    requires k <= c.capacity && c.slowTimeout > POLL
    requires forall i: nat :: i < k ==> c.source(i).Item?
    ensures Run(c, t0, acts) == Some(s) && Filled(c, s, t0, k)
  {
    if k == 0 {
      acts, s := [], Init(t0);
    } else {
      var acts0, s0 := FillQueue(c, t0, k - 1);
      var acts1, s1 := ReachWaiting(c, t0, acts0, s0);
      s := s1.(buf := s1.buf + [s1.producer.item], accepted := s1.accepted + 1, producer := Fetching);
      Extend(c, t0, acts1, Produce, s1, s);
      acts := acts1 + [Produce];
    }
  }

  /**
   The failing family: for every timeout longer than one poll and any capacity
   there is an interleaving that marks a client slow although the queue had
   room from POLL after the start of the put until the deadline.
   */
  lemma PrematureSlowMark(c: Config, t0: real) returns (acts: seq<Action>, room: State, s: State)
    requires c.Valid() && c.slowTimeout > POLL
    requires forall i: nat :: i <= c.capacity ==> c.source(i).Item?
    ensures Run(c, t0, acts) == Some(s) && s.slow && s.clock == t0 + c.slowTimeout
    ensures |acts| >= 2 && Run(c, t0, acts[..|acts| - 2]) == Some(room)
    ensures Refused(room.producer) && room.producer.start == t0 && acts[|acts| - 2].Tick?
    ensures room.clock == t0 + POLL && |room.buf| == |s.buf| < c.capacity
  {
    var acts0, s0 := FillQueue(c, t0, c.capacity);
    var acts1, s1 := ReachWaiting(c, t0, acts0, s0);
    var acts2, s2 := RefuseThenRead(c, t0, acts1, s1);
    room := s2;
    acts, s := DeadlinePasses(c, t0, acts2, room);
  }

  /** A put is refused after one poll; the client then reads an item. */
  lemma RefuseThenRead(c: Config, t0: real, acts: seq<Action>, s: State) returns (acts': seq<Action>, room: State)
    requires c.Valid() && Run(c, t0, acts) == Some(s) && s.clock == t0
    requires s.producer.Putting? && s.producer.start == t0 && s.producer.phase == Waiting(t0 + POLL)
    requires s.consumer == Getting && |s.buf| == c.capacity
    ensures Run(c, t0, acts') == Some(room)
    ensures Refused(room.producer) && room.producer.start == t0
    ensures room.clock == t0 + POLL && |room.buf| < c.capacity
  {
    hide Run;
    var s2 := s.(clock := t0 + POLL);
    Extend(c, t0, acts, Tick(POLL), s, s2);
    var s3 := s2.(producer := Putting(s.producer.item, t0, Overdue(t0 + POLL)));
    var acts2 := acts + [Tick(POLL)];
    Extend(c, t0, acts2, Produce, s2, s3);
    room := s3.(buf := s3.buf[1..], consumer := Delivering(s3.buf[0]), roomAt := s3.clock);
    Extend(c, t0, acts2 + [Produce], Consume, s3, room);
    acts' := acts2 + [Produce] + [Consume];
  }

  /** The suspended put wakes up past its deadline. */
  lemma DeadlinePasses(c: Config, t0: real, acts: seq<Action>, room: State) returns (acts': seq<Action>, s: State)
    requires c.Valid() && c.slowTimeout > POLL && Run(c, t0, acts) == Some(room)
    requires Refused(room.producer) && room.producer.start == t0 && room.clock == t0 + POLL
    ensures Run(c, t0, acts') == Some(s) && s.slow && s.clock == t0 + c.slowTimeout && s.buf == room.buf
    ensures |acts'| == |acts| + 2 && acts'[..|acts'| - 2] == acts && acts'[|acts|].Tick?
  {
    hide Run;
    var wait := Tick(c.slowTimeout - POLL);
    var late := Step(c, room, wait).value;
    Extend(c, t0, acts, wait, room, late);
    s := Leave(late, ExitSlow).(slow := true);
    Extend(c, t0, acts + [wait], Produce, late, s);
    acts' := acts + [wait] + [Produce];
  }

  /** The put about to mark the client slow saw a full queue from its start to its deadline. */
  ghost predicate JustifiedMark(c: Config, t0: real, acts: seq<Action>, p: Producer) {
    forall m :: 0 <= m <= |acts| && p.Putting? && Run(c, t0, acts[..m]).Some? ==>
      var early := Run(c, t0, acts[..m]).value;
      p.start < early.clock < p.start + c.slowTimeout ==> |early.buf| >= c.capacity
  }

  /** In every run. */
  ghost predicate MarksJustified(c: Config, t0: real) {
    forall acts, a :: Run(c, t0, acts).Some? && MarksSlow(c, Run(c, t0, acts).value, a) ==>
      JustifiedMark(c, t0, acts, Run(c, t0, acts).value.producer)
  }

  ghost predicate MarksSlow(c: Config, s: State, a: Action) { !s.slow && Step(c, s, a).Some? && Step(c, s, a).value.slow }

  /** A put that finds room is not refused, and without a refusal no client is marked. */
  lemma RoomMeansNoMark(c: Config, s: State, a: Action)
    requires !Refused(s.producer)
    ensures !MarksSlow(c, s, a)
    ensures (s.producer.Putting? ==> |s.buf| < c.capacity) && Step(c, s, a).Some? ==> !Refused(Step(c, s, a).value.producer)
  {
  }

  lemma ShortSourceHasRoom(c: Config, s: State, i: nat)
    requires ConservationInv(c, s) && i <= c.capacity && !c.source(i).Item? && s.producer.Putting?
    ensures |s.buf| < c.capacity
  {
    ItemsBeforeEnd(c, Delivered(s), i);
  }

  /** What was handed out came before the source's end. */
  lemma ItemsBeforeEnd(c: Config, items: seq<Score>, i: nat)
    requires FirstItems(c, items) && !c.source(i).Item?
    ensures |items| <= i
  {
    assert forall k: nat :: k < |items| ==> c.source(k).Item?;
  }

  /** A source that ends before the queue is full and one item waits never has a put refused. */
  lemma {:induction false} ShortSourceNeverRefused(c: Config, t0: real, acts: seq<Action>, s: State, i: nat)
    requires c.Valid() && i <= c.capacity && !c.source(i).Item? && Run(c, t0, acts) == Some(s)
    ensures !Refused(s.producer)
  {
    if acts != [] {
      var front := acts[..|acts| - 1];
      var before := Run(c, t0, front).value;
      ShortSourceNeverRefused(c, t0, front, before, i);
      RunKeepsInv(c, t0, front);
      hide Step, ConservationInv;
      if before.producer.Putting? {
        ShortSourceHasRoom(c, before, i);
      }
      RoomMeansNoMark(c, before, acts[|acts| - 1]);
    }
  }

  /**
   Exactly when every slow mark is justified: the timeout is at most one poll,
   or the source cannot fill the queue and have one more item waiting.
   */
  lemma MarksJustifiedIff(c: Config, t0: real)
    requires c.Valid()
    ensures MarksJustified(c, t0) <==> c.slowTimeout <= POLL || exists i: nat :: i <= c.capacity && !c.source(i).Item?
  {
    if i: nat :| i <= c.capacity && !c.source(i).Item? {
      forall acts, a | Run(c, t0, acts).Some? ensures !MarksSlow(c, Run(c, t0, acts).value, a) {
        ShortSourceNeverRefused(c, t0, acts, Run(c, t0, acts).value, i);
        RoomMeansNoMark(c, Run(c, t0, acts).value, a);
      }
    } else if c.slowTimeout <= POLL {
      forall acts, a | Run(c, t0, acts).Some? && MarksSlow(c, Run(c, t0, acts).value, a)
        ensures JustifiedMark(c, t0, acts, Run(c, t0, acts).value.producer)
      {
        ShortTimeoutJustifies(c, t0, acts, a, Run(c, t0, acts).value);
      }
    } else {
      var acts, room, s := PrematureSlowMark(c, t0);
      UnjustifiedMark(c, t0, acts, room, s);
    }
  }

  lemma ShortTimeoutJustifies(c: Config, t0: real, acts: seq<Action>, a: Action, s: State)
    requires c.Valid() && c.slowTimeout <= POLL && Run(c, t0, acts) == Some(s) && MarksSlow(c, s, a)
    ensures JustifiedMark(c, t0, acts, s.producer)
  {
    hide Step;
    forall m | 0 <= m <= |acts| && s.producer.Putting? && Run(c, t0, acts[..m]).Some?
      ensures var early := Run(c, t0, acts[..m]).value;
        s.producer.start < early.clock < s.producer.start + c.slowTimeout ==> |early.buf| >= c.capacity
    {
      SlowIsJustified(c, t0, acts, m, Run(c, t0, acts[..m]).value, s, a, Step(c, s, a).value);
    }
  }

  lemma UnjustifiedMark(c: Config, t0: real, acts: seq<Action>, room: State, s: State)
    requires c.Valid() && c.slowTimeout > POLL && |acts| >= 2 && Run(c, t0, acts) == Some(s) && s.slow
    requires Run(c, t0, acts[..|acts| - 2]) == Some(room) && Refused(room.producer) && room.producer.start == t0
    requires room.clock == t0 + POLL && |room.buf| < c.capacity
    requires acts[|acts| - 2].Tick?
    ensures !MarksJustified(c, t0)
  {
    var (front, a) := (acts[..|acts| - 1], acts[|acts| - 1]);
    assert front[..|front| - 1] == acts[..|acts| - 2];
    var late := Run(c, t0, front).value;
    RunKeepsInv(c, t0, acts[..|acts| - 2]);
    assert late.producer == room.producer && !late.slow && MarksSlow(c, late, a);
    assert front[..|front| - 1] == front[..|acts| - 2];
    assert !JustifiedMark(c, t0, front, late.producer);
  }

  // ---------------------------------------------------------------- BatchScoreWallets

  /** A request reduced to its stored score, if the lookup finds one. */
  type Lookups = seq<Option<Score>>

  const RESOURCE_EXHAUSTED := "RESOURCE_EXHAUSTED"

  /** One `next()` on the batch generator suspended before request `pos`. */
  function PullBatch(reqs: Lookups, maxBatch: nat, pos: nat): (r: (SourceEvent, nat))
    ensures r.1 <= |reqs| || r.1 == pos
    decreases |reqs| - pos
  {
    if pos >= |reqs| then (Exhausted, pos)
    else if pos + 1 > maxBatch then (Raises(StreamAbort(RESOURCE_EXHAUSTED)), pos)
    else
      match reqs[pos]
      case Some(x) => (Item(x), pos + 1)
      case None => PullBatch(reqs, maxBatch, pos + 1)
  }

  /** The generator's position before its k-th `next()`. */
  function BatchPosition(reqs: Lookups, maxBatch: nat, k: nat): nat {
    if k == 0 then 0 else PullBatch(reqs, maxBatch, BatchPosition(reqs, maxBatch, k - 1)).1
  }

  function BatchSource(reqs: Lookups, maxBatch: nat): nat -> SourceEvent {
    (k: nat) => PullBatch(reqs, maxBatch, BatchPosition(reqs, maxBatch, k)).0
  }

  /** The scores a list of requests has available, in order. */
  function Available(reqs: Lookups): seq<Score> {
    if reqs == [] then []
    else (if reqs[0].Some? then [reqs[0].value] else []) + Available(reqs[1..])
  }

  function Within(reqs: Lookups, maxBatch: nat): Lookups {
    if |reqs| <= maxBatch then reqs else reqs[..maxBatch]
  }

  lemma {:induction false} PullMeetsNextAvailable(reqs: Lookups, maxBatch: nat, pos: nat)
    requires pos <= |Within(reqs, maxBatch)|
    ensures var rest := Available(Within(reqs, maxBatch)[pos..]);
            var r := PullBatch(reqs, maxBatch, pos);
            if rest == [] then
              r.0 == (if |reqs| > maxBatch then Raises(StreamAbort(RESOURCE_EXHAUSTED)) else Exhausted)
            else
              && r.0 == Item(rest[0]) && pos < r.1 <= |Within(reqs, maxBatch)|
              && Available(Within(reqs, maxBatch)[r.1..]) == rest[1..]
    decreases |reqs| - pos
  {
    var w := Within(reqs, maxBatch);
    if pos < |w| {
      assert w[pos..][1..] == w[pos + 1..] && w[pos..][0] == reqs[pos];
      if reqs[pos].None? {
        PullMeetsNextAvailable(reqs, maxBatch, pos + 1);
      }
    }
  }

  lemma {:induction false} BatchPositionSkipsToNext(reqs: Lookups, maxBatch: nat, k: nat)
    requires k <= |Available(Within(reqs, maxBatch))|
    ensures BatchPosition(reqs, maxBatch, k) <= |Within(reqs, maxBatch)|
    ensures Available(Within(reqs, maxBatch)[BatchPosition(reqs, maxBatch, k)..])
            == Available(Within(reqs, maxBatch))[k..]
  {
    var w := Within(reqs, maxBatch);
    if k == 0 {
      assert w[0..] == w;
    } else {
      BatchPositionSkipsToNext(reqs, maxBatch, k - 1);
      PullMeetsNextAvailable(reqs, maxBatch, BatchPosition(reqs, maxBatch, k - 1));
      assert Available(w)[k - 1..][1..] == Available(w)[k..];
    }
  }

  /** The generator hands out exactly the available scores of the first maxBatch requests. */
  lemma BatchSourceIsAvailable(reqs: Lookups, maxBatch: nat, k: nat)
    requires k <= |Available(Within(reqs, maxBatch))|
    ensures var all := Available(Within(reqs, maxBatch));
            BatchSource(reqs, maxBatch)(k) ==
            if k < |all| then Item(all[k])
            else if |reqs| > maxBatch then Raises(StreamAbort(RESOURCE_EXHAUSTED)) else Exhausted
  {
    BatchPositionSkipsToNext(reqs, maxBatch, k);
    PullMeetsNextAvailable(reqs, maxBatch, BatchPosition(reqs, maxBatch, k));
  }

  lemma BatchOutcome(c: Config, reqs: Lookups, maxBatch: nat, o: Outcome, received: seq<Score>)
    requires c.source == BatchSource(reqs, maxBatch) && OutcomeJustified(c, o, received)
    requires o != Closed && o != SlowAbort
    ensures received == Available(Within(reqs, maxBatch))
    ensures o == if |reqs| > maxBatch then Aborted(RESOURCE_EXHAUSTED) else Completed
  {
    var all := Available(Within(reqs, maxBatch));
    if |received| > |all| {
      assert c.source(|all|) == Item(received[|all|]);
      BatchSourceIsAvailable(reqs, maxBatch, |all|);
      assert false;
    }
    BatchSourceIsAvailable(reqs, maxBatch, |received|);
    forall k | 0 <= k < |received| ensures received[k] == all[k] {
      BatchSourceIsAvailable(reqs, maxBatch, k);
      assert c.source(k) == Item(received[k]);
    }
  }

  /**
   BatchScoreWallets: unless the client was slow or left, it received exactly
   the available scores of the first maxBatch requests, and the call is aborted
   if and only if there were more requests than that.
   */
  lemma BatchDeliversAvailableScores(c: Config, reqs: Lookups, maxBatch: nat, t0: real, acts: seq<Action>, s: State)
    requires c.Valid() && c.source == BatchSource(reqs, maxBatch)
    requires Run(c, t0, acts) == Some(s) && s.consumer.Over?
    requires s.consumer.outcome != Closed && s.consumer.outcome != SlowAbort
    ensures s.yielded == Available(Within(reqs, maxBatch))
    ensures s.consumer.outcome == if |reqs| > maxBatch then Aborted(RESOURCE_EXHAUSTED) else Completed
  {
    OutcomeIsExact(c, t0, acts, s);
    BatchOutcome(c, reqs, maxBatch, s.consumer.outcome, s.yielded);
  }
}
