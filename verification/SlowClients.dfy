/**
 When the relay of `api/grpc_scoring_service.py` gives up on a client: the
 converse of `ScoreStream.SlowIsJustified`.  A refused put marks the client
 exactly from its deadline on, no poll outlasts the deadline it was armed
 for, and a client that stops reading is marked within five producer steps of
 the deadline, however the threads are scheduled.
 */
module SlowClients {
  import opened Wrappers
  import opened ScoreStream

  function Deadline(c: Config, p: Producer): real
    requires p.Putting?
  {
    p.start + c.slowTimeout
  }

  // ---------------------------------------------------------------- one decision

  /**
   What a refused put does next, in every reachable state: at or after its
   deadline it marks the client and leaves, before it it tries again.
   */
  lemma RefusedPutDecides(c: Config, t0: real, acts: seq<Action>, s: State)
    requires c.Valid() && Run(c, t0, acts) == Some(s) && Refused(s.producer)
    ensures !s.slow && Step(c, s, Produce).Some?
    ensures var s' := Step(c, s, Produce).value;
      && (s'.slow <==> s.clock >= Deadline(c, s.producer))
      && (s'.slow ==> s'.producer == Finishing)
      && (!s'.slow ==> s'.producer == s.producer.(phase := Checking))
      && s'.buf == s.buf && s'.accepted == s.accepted
  {
    RunKeepsInv(c, t0, acts);
  }

  lemma OthersLeaveProducer(c: Config, s: State, a: Action, s': State)
    requires Step(c, s, a) == Some(s') && !a.Produce?
    ensures s'.producer == s.producer && s'.clock >= s.clock && s'.slow == s.slow
  {
    if a.Consume? {
      ConsumeFrame(s, s');
    }
  }

  /** Steps of the consumer, the client and the clock leave a refused put where it is. */
  lemma {:induction false} WaitsForItsStep(c: Config, t0: real, acts: seq<Action>, m: nat, early: State, late: State)
    requires m <= |acts| && Run(c, t0, acts[..m]) == Some(early) && Run(c, t0, acts) == Some(late)
    requires forall k :: m <= k < |acts| ==> !acts[k].Produce?
    ensures late.producer == early.producer && late.clock >= early.clock && late.slow == early.slow
    decreases |acts|
  {
    if m == |acts| {
      assert acts[..m] == acts;
    } else {
      var (front, a) := (acts[..|acts| - 1], acts[|acts| - 1]);
      assert front[..m] == acts[..m];
      var s := Run(c, t0, front).value;
      WaitsForItsStep(c, t0, front, m, early, s);
      hide Step;
      OthersLeaveProducer(c, s, a, late);
    }
  }

  /**
   Over every run: a put that was refused, and whose deadline had passed by its
   next step, marks the client with that step; it is never seen putting again.
   */
  lemma OverduePutGivesUp(c: Config, t0: real, acts: seq<Action>, m: nat, early: State, s: State, late: State)
    requires c.Valid() && m < |acts| && Run(c, t0, acts[..m]) == Some(early) && Refused(early.producer)
    requires Run(c, t0, acts[..|acts| - 1]) == Some(s) && Run(c, t0, acts) == Some(late)
    requires acts[|acts| - 1] == Produce && forall k :: m <= k < |acts| - 1 ==> !acts[k].Produce?
    ensures late.slow <==> s.clock >= Deadline(c, early.producer)
    ensures late.slow <==> !late.producer.Putting?
    ensures early.clock >= Deadline(c, early.producer) ==> late.slow
  {
    var front := acts[..|acts| - 1];
    assert front[..m] == acts[..m];
    WaitsForItsStep(c, t0, front, m, early, s);
    RefusedPutDecides(c, t0, front, s);
  }

  /** The call is cancelled exactly for a slow client, by the producer's last step. */
  lemma CancelledIffSlow(c: Config, t0: real, acts: seq<Action>, s: State)
    requires c.Valid() && Run(c, t0, acts) == Some(s)
    ensures s.cancelled <==> s.slow && s.producer.Done?
    ensures s.consumer == Over(SlowAbort) ==> s.slow && s.finished
  {
    RunKeepsInv(c, t0, acts);
  }

  // ---------------------------------------------------------------- polling

  /**
   A poll is armed for one POLL or for what is left until the deadline,
   whichever is shorter, and for nothing once the deadline has passed.
   */
  lemma PollStopsAtDeadline(c: Config, s: State)
    requires s.producer.Putting? && s.producer.phase.Arming?
    ensures Step(c, s, Produce).Some?
    ensures var p := Step(c, s, Produce).value.producer;
      && p.Putting? && p.phase.Entering? && p.start == s.producer.start
      && 0.0 <= p.phase.timeout <= POLL
      && s.clock + p.phase.timeout <= RealMax(s.clock, Deadline(c, s.producer))
      && (p.phase.timeout < POLL ==> Deadline(c, s.producer) <= s.clock + p.phase.timeout)
  {
  }

  /** It is refused no earlier than that, and only on a full queue; with room it puts. */
  lemma PollRefusesLate(c: Config, s: State)
    requires s.producer.Putting? && s.producer.phase.Waiting?
    ensures Step(c, s, Produce).None? <==> |s.buf| >= c.capacity && s.clock < s.producer.phase.endTime
    ensures Step(c, s, Produce).Some? ==>
      var s' := Step(c, s, Produce).value;
      if |s.buf| < c.capacity then s'.buf == s.buf + [s.producer.item] && s'.producer == Fetching
      else Refused(s'.producer) && s'.producer.start == s.producer.start
  {
  }

  // ---------------------------------------------------------------- a client that stops reading

  /** Producer steps a put past its deadline still takes on a full queue. */
  function StepsLeft(p: Phase): nat {
    match p
    case Checking => 5
    case Arming => 4
    case Entering(_) => 3
    case Waiting(_) => 2
    case Overdue(_) => 1
  }

  function Produced(acts: seq<Action>): nat {
    if acts == [] then 0
    else Produced(acts[..|acts| - 1]) + (if acts[|acts| - 1].Produce? then 1 else 0)
  }

  /** A pending put that is past its deadline, on a full queue nobody reads. */
  ghost predicate Stuck(c: Config, s: State) {
    && s.producer.Putting? && s.clock >= Deadline(c, s.producer)
    && |s.buf| >= c.capacity && !s.stop
  }

  lemma StuckStep(c: Config, s: State, a: Action, s': State)
    requires Stuck(c, s) && Step(c, s, a) == Some(s') && !a.Consume? && !a.Close?
    ensures s'.slow || Stuck(c, s')
    ensures Stuck(c, s') ==>
      StepsLeft(s'.producer.phase) == StepsLeft(s.producer.phase) - (if a.Produce? then 1 else 0)
  {
  }

  lemma SlowStays(c: Config, s: State, a: Action, s': State)
    requires Step(c, s, a) == Some(s') && s.slow
    ensures s'.slow
  {
  }

  lemma {:induction false} StuckRun(c: Config, t0: real, acts: seq<Action>, m: nat, early: State, late: State)
    requires m <= |acts| && Run(c, t0, acts[..m]) == Some(early) && Run(c, t0, acts) == Some(late)
    requires Stuck(c, early) && forall k :: m <= k < |acts| ==> !acts[k].Consume? && !acts[k].Close?
    ensures late.slow ||
      (Stuck(c, late) && StepsLeft(late.producer.phase) + Produced(acts[m..]) == StepsLeft(early.producer.phase))
    decreases |acts|
  {
    hide Step, Stuck, StepsLeft;
    if m == |acts| {
      assert acts[..m] == acts && acts[m..] == [];
    } else {
      var (front, a) := (acts[..|acts| - 1], acts[|acts| - 1]);
      assert front[..m] == acts[..m];
      assert acts[m..][..|acts[m..]| - 1] == front[m..];
      var s := Run(c, t0, front).value;
      StuckRun(c, t0, front, m, early, s);
      if s.slow {
        SlowStays(c, s, a, late);
      } else {
        StuckStep(c, s, a, late);
      }
    }
  }

  /**
   A client that neither reads nor leaves while a put is past its deadline is
   marked slow by the fifth producer step at the latest, in every schedule.
   */
  lemma StoppedReaderIsMarked(c: Config, t0: real, acts: seq<Action>, m: nat, early: State, late: State)
    requires m <= |acts| && Run(c, t0, acts[..m]) == Some(early) && Run(c, t0, acts) == Some(late)
    requires early.producer.Putting? && early.clock >= Deadline(c, early.producer)
    requires |early.buf| >= c.capacity && !early.stop
    requires forall k :: m <= k < |acts| ==> !acts[k].Consume? && !acts[k].Close?
    requires Produced(acts[m..]) >= 5
    ensures late.slow
  {
    hide Run;
    StuckRun(c, t0, acts, m, early, late);
  }
}
