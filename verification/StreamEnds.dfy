/**
 A stream can always end: from every reachable state of the relay of
 `api/grpc_scoring_service.py` some continuation reaches its end, and if the
 source ends, one in which the client does not have to leave.  And it does end
 under fair scheduling: over a source that ends, every run takes a bounded
 number of steps other than polling.
 */
module StreamEnds {
  import opened Wrappers
  import opened ScoreStream

  function Continue(c: Config, s: State, acts: seq<Action>): Option<State>
    decreases |acts|
  {
    if acts == [] then Some(s)
    else
      match Step(c, s, acts[0])
      case None => None
      case Some(next) => Continue(c, next, acts[1..])
  }

  lemma Before(c: Config, s: State, a: Action, next: State, acts: seq<Action>)
    requires Step(c, s, a) == Some(next)
    ensures Continue(c, s, [a] + acts) == Continue(c, next, acts)
  {
    assert ([a] + acts)[1..] == acts;
  }

  /** How far the producer is from handing over an item or finishing. */
  function ProducerRank(p: Producer): nat {
    match p
    case Fetching => 8
    case Putting(_, _, phase) =>
      (match phase
       case Overdue(_) => 7
       case Checking => 6
       case Arming => 5
       case Entering(_) => 4
       case Waiting(_) => 3)
    case Finishing => 2
    case Cancelling => 1
    case Done => 0
  }

  /** How far the consumer is from its end, or from taking the next item. */
  function ConsumerRank(s: State): nat {
    var drained := s.finished && s.buf == [];
    match s.consumer
    case Over(_) => 0
    case ReadError => 1
    case ReadSlow => 2
    case Leaving => 3
    case CheckEmpty => if s.buf == [] then 4 else 20
    case CheckFinished => if drained then 5 else 21
    case Getting => if drained then 6 else 10
    case AtYield => 11
    case Delivering(_) => 12
  }

  /** The next step towards the end: consume what there is, and let the producer work otherwise. */
  function Onwards(s: State): Action {
    match s.consumer
    case Getting =>
      if s.buf != [] then Consume else if s.finished then GetTimesOut else Produce
    case AtYield => Resume
    case _ => Consume
  }

  /** Items not yet accepted, items not yet taken, then the producer, then the consumer. */
  lemma OnwardsProgresses(c: Config, s: State, last: nat)
    requires c.Valid() && Inv(c, s) && !s.consumer.Over? && !c.source(last).Item?
    ensures Step(c, s, Onwards(s)).Some?
    ensures var s' := Step(c, s, Onwards(s)).value;
      && s.accepted <= s'.accepted <= last
      && (s'.accepted == s.accepted ==>
            || |s'.buf| < |s.buf|
            || (|s'.buf| == |s.buf| && ProducerRank(s'.producer) < ProducerRank(s.producer))
            || (|s'.buf| == |s.buf| && ProducerRank(s'.producer) == ProducerRank(s.producer) && ConsumerRank(s') < ConsumerRank(s)))
      && (s'.consumer.Over? ==> s'.consumer.outcome != Closed)
  {
    ItemsBeforeEnd(c, Delivered(s), last);
  }

  /** If the source ends, every stream can run to its end with a client that stays. */
  lemma {:induction false} CanEndByItself(c: Config, s: State, last: nat) returns (acts: seq<Action>, end: State)
    requires c.Valid() && Inv(c, s) && !c.source(last).Item? && (s.consumer.Over? ==> s.consumer.outcome != Closed)
    ensures Continue(c, s, acts) == Some(end) && end.consumer.Over? && end.consumer.outcome != Closed
    decreases if s.accepted <= last then last - s.accepted else 0, |s.buf|, ProducerRank(s.producer), ConsumerRank(s)
  {
    acts, end := [], s;
    if !s.consumer.Over? {
      OnwardsProgresses(c, s, last);
      var next := Step(c, s, Onwards(s)).value;
      StepKeepsInv(c, s, Onwards(s), next);
      hide Step, Inv;
      acts, end := CanEndByItself(c, next, last);
      Before(c, s, Onwards(s), next, acts);
      acts := [Onwards(s)] + acts;
    }
  }

  /** How far a client that leaves at its next item is from the end. */
  function Distance(s: State): nat {
    match s.consumer
    case Over(_) => 0
    case ReadError => 1
    case AtYield => 1
    case ReadSlow => 2
    case Delivering(_) => 2
    case Leaving => 3
    case CheckEmpty => 4
    case CheckFinished => if s.finished then 5 else 30
    case Getting => if s.buf != [] then 3 else if s.finished then 6 else 10 + ProducerRank(s.producer)
  }

  function Homewards(s: State): Action { if s.consumer == AtYield then Close else Onwards(s) }

  lemma HomewardsProgresses(c: Config, s: State)
    requires c.Valid() && Inv(c, s) && !s.consumer.Over?
    ensures Step(c, s, Homewards(s)).Some? && Distance(Step(c, s, Homewards(s)).value) < Distance(s)
  {
  }

  lemma {:induction false} CanEndFrom(c: Config, s: State) returns (acts: seq<Action>, end: State)
    requires c.Valid() && Inv(c, s)
    ensures Continue(c, s, acts) == Some(end) && end.consumer.Over?
    decreases Distance(s)
  {
    acts, end := [], s;
    if !s.consumer.Over? {
      HomewardsProgresses(c, s);
      var next := Step(c, s, Homewards(s)).value;
      StepKeepsInv(c, s, Homewards(s), next);
      hide Step, Inv;
      acts, end := CanEndFrom(c, next);
      Before(c, s, Homewards(s), next, acts);
      acts := [Homewards(s)] + acts;
    }
  }

  /**
   No reachable state is stuck: every stream can still end, by itself if the
   source does, whatever both threads have done so far.
   */
  lemma EveryStreamCanEnd(c: Config, t0: real, done: seq<Action>, s: State) returns (acts: seq<Action>, end: State)
    requires c.Valid() && Run(c, t0, done) == Some(s)
    ensures Continue(c, s, acts) == Some(end) && end.consumer.Over?
    ensures (exists i: nat :: !c.source(i).Item?) && s.consumer != Over(Closed) ==> end.consumer.outcome != Closed
  {
    RunKeepsInv(c, t0, done);
    if i: nat :| !c.source(i).Item? && s.consumer != Over(Closed) {
      acts, end := CanEndByItself(c, s, i);
    } else {
      acts, end := CanEndFrom(c, s);
    }
  }

  // ---------------------------------------------------------------- every run is short, polling aside

  /**
   Steps that only wait: the clock, the consumer's timed-out `get` with the
   checks that send it back, and the loop of a put that found no room.
   */
  predicate Polls(c: Config, s: State, a: Action) {
    match a
    case Tick(_) => true
    case GetTimesOut => true
    case Consume => s.consumer.CheckFinished? || (s.consumer.CheckEmpty? && s.buf != [])
    case Produce =>
      s.producer.Putting? && Step(c, s, a).Some? && Step(c, s, a).value.producer.Putting?
    case _ => false
  }

  /** Steps still ahead of the producer when `left` items are not accepted yet. */
  function ProducerAhead(p: Producer, left: int): int {
    match p
    case Fetching => 5 * left + 3
    case Putting(_, _, _) => 5 * left + 2
    case Finishing => 2
    case Cancelling => 1
    case Done => 0
  }

  function ConsumerAhead(k: Consumer): int {
    match k
    case Delivering(_) => 6
    case AtYield => 5
    case Getting => 4
    case CheckFinished => 4
    case CheckEmpty => 4
    case Leaving => 3
    case ReadSlow => 2
    case ReadError => 1
    case Over(_) => 0
  }

  /** Each item costs a fetch, a put, a get, a delivery and a resumption. */
  function Ahead(s: State, last: nat): int {
    ProducerAhead(s.producer, last - s.accepted) + 3 * |s.buf| + ConsumerAhead(s.consumer)
  }

  /** What a producer step does to its own share. */
  lemma ProducerShare(c: Config, s: State, s': State, left: nat)
    requires ProducerStep(c, s) == Some(s') && (s.producer.Putting? ==> left > 0)
    ensures if CanPut(c, s) then s'.producer == Fetching && s'.accepted == s.accepted + 1 && |s'.buf| == |s.buf| + 1
      else ProducerAhead(s'.producer, left) + (if s.producer.Putting? && s'.producer.Putting? then 0 else 1)
           <= ProducerAhead(s.producer, left)
  {
  }

  lemma ProducerWorks(c: Config, s: State, s': State, last: nat)
    requires s.accepted <= last && (s.producer.Putting? ==> s.accepted < last) && ProducerStep(c, s) == Some(s')
    ensures Ahead(s', last) + (if s.producer.Putting? && s'.producer.Putting? then 0 else 1) <= Ahead(s, last)
  {
    ProduceFrame(c, s, s');
    ProducerShare(c, s, s', last - s.accepted);
    if !CanPut(c, s) {
      ProduceWithoutPut(c, s, s');
    }
    hide ProducerStep, ConsumerAhead;
  }

  lemma ConsumerWorks(s: State, s': State, last: nat)
    requires ConsumerStep(s) == Some(s')
    ensures Ahead(s', last) + (if s.consumer.CheckFinished? || (s.consumer.CheckEmpty? && s.buf != []) then 0 else 1) <= Ahead(s, last)
  {
    ConsumeFrame(s, s');
    hide ProducerAhead;
    assert s.consumer.Getting? ==> |s'.buf| == |s.buf| - 1;
  }

  lemma StepsAheadShrink(c: Config, s: State, a: Action, s': State, last: nat)
    requires Inv(c, s) && !c.source(last).Item? && Step(c, s, a) == Some(s')
    ensures Ahead(s', last) + (if Polls(c, s, a) then 0 else 1) <= Ahead(s, last)
  {
    ItemsBeforeEnd(c, Delivered(s), last);
    hide ProducerStep, ConsumerStep, ProducerAhead, ConservationInv, ConsumerInv, TimeInv;
    if a.Produce? {
      ProducerWorks(c, s, s', last);
    } else if a.Consume? {
      ConsumerWorks(s, s', last);
    }
  }

  /** The steps of a run that do not poll. */
  function Working(c: Config, t0: real, acts: seq<Action>): nat {
    if acts == [] then 0
    else
      var front := acts[..|acts| - 1];
      var before := Run(c, t0, front);
      Working(c, t0, front) + (if before.Some? && !Polls(c, before.value, acts[|acts| - 1]) then 1 else 0)
  }

  /**
   However both threads and the client are scheduled, a run over a source that
   ends after `last` items has at most 5 * last + 7 steps that do not poll.
   */
  lemma {:induction false} WorkIsBounded(c: Config, t0: real, acts: seq<Action>, s: State, last: nat)
    requires c.Valid() && Run(c, t0, acts) == Some(s) && !c.source(last).Item?
    ensures Working(c, t0, acts) + Ahead(s, last) <= 5 * last + 7
    ensures Working(c, t0, acts) <= 5 * last + 7
  {
    RunKeepsInv(c, t0, acts);
    assert Ahead(s, last) >= 0 by {
      ItemsBeforeEnd(c, Delivered(s), last);
    }
    if acts != [] {
      var front := acts[..|acts| - 1];
      var before := Run(c, t0, front).value;
      WorkIsBounded(c, t0, front, before, last);
      RunKeepsInv(c, t0, front);
      hide Step, Inv, Polls, Ahead;
      StepsAheadShrink(c, before, acts[|acts| - 1], s, last);
    }
  }
}
