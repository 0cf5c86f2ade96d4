/** The executor cannot deadlock, and only the timers can postpone its end. */
module ExecutorProgress {
  import opened Wrappers
  import opened ExecutorModel
  import opened ExecutorSafety

  /** The two timers: a `queue.get` that times out, and the flusher's sleep while the run goes on.  The sleep
      that shutdown finds under way is not cancelled; the run has to wait for it, so its end counts as a step
      of the run. */
  predicate Timer(s: State, a: Action) {
    (a.Work? && a.step.GetTimeout?) || (a.FlusherWake? && !s.shutdown)
  }

  // ---------- a measure that every other action decreases ----------

  function WorkerRank(w: Worker): int {
    match w
    case Exited(_) => 0
    case Idle => 1
    case Saving(_) => 2
    case FlushHold => 3
    case FlushWait => 4
    case AddHold(_) => 7
    case AddWait(_) => 8
    case Working(_) => 9
  }

  function ProducerRank(p: Producer): int {
    match p
    case Streaming => 1
    case Putting(_) => 11
    case _ => 0
  }

  function MainRank(m: Main): int {
    match m
    case AwaitProducer => 11
    case AwaitJoin => 10
    case Gathering => 4
    case MainWait => 3
    case MainHold => 2
    case MainSaving(_) => 1
    case Finished => 0
  }

  /** A sleeping flusher costs nothing during the run; after shutdown it still has one tick to go. */
  function FlusherRank(s: State): int {
    match s.flusher
    case FlusherExited => 0
    case Sleeping => if s.shutdown then 5 else 0
    case Head => 1
    case FlusherHold => 2
    case FlusherWait => 3
    case FlusherSaving(_) => 4
  }

  function Measure(c: Config, s: State): int {
    4 * (11 * (c.lines - s.pulled) + ProducerRank(s.producer) + 9 * |s.queue| + Total(s.workers, WorkerRank)
         + 2 * |s.buffer| + MainRank(s.main))
    + FlusherRank(s)
  }

  lemma MeasureNonNegative(c: Config, s: State)
    requires s.pulled <= c.lines
    ensures Measure(c, s) >= 0
  {
    TotalNonNegative(s.workers, WorkerRank);
  }

  lemma WorkDecreases(c: Config, s: State, i: nat, step: WorkerStep)
    requires WorkerEnabled(s, i, step)
    ensures step.GetTimeout? ==> Measure(c, WorkerEffect(c, s, i, step)) == Measure(c, s)
    ensures !step.GetTimeout? ==> Measure(c, WorkerEffect(c, s, i, step)) < Measure(c, s)
  {
    TotalUpdate(s.workers, i, WorkerEffect(c, s, i, step).workers[i], WorkerRank);
  }

  lemma ProducerMeasure(c: Config, s: State, a: Action)
    requires Enabled(c, s, a) && OfProducer(a)
    ensures Measure(c, Effect(c, s, a)) < Measure(c, s)
  {
  }

  lemma FlusherMeasure(c: Config, s: State, a: Action)
    requires Enabled(c, s, a) && OfFlusher(a)
    ensures !Timer(s, a) ==> Measure(c, Effect(c, s, a)) < Measure(c, s)
    ensures Timer(s, a) ==> Measure(c, Effect(c, s, a)) <= Measure(c, s) + 3
  {
  }

  lemma MainMeasure(c: Config, s: State, a: Action)
    requires Enabled(c, s, a) && !a.Work? && !OfProducer(a) && !OfFlusher(a)
    ensures Measure(c, Effect(c, s, a)) < Measure(c, s)
  {
  }

  /** Every action but a timer's strictly decreases the measure; a `get` that times out leaves it
      unchanged, and a flusher tick adds at most 3. */
  lemma StepMeasure(c: Config, s: State, a: Action)
    requires Enabled(c, s, a)
    ensures !Timer(s, a) ==> Measure(c, Effect(c, s, a)) < Measure(c, s)
    ensures Timer(s, a) ==> Measure(c, Effect(c, s, a)) <= Measure(c, s) + if a.FlusherWake? then 3 else 0
  {
    if a.Work? {
      WorkDecreases(c, s, a.i, a.step);
    } else if OfProducer(a) {
      ProducerMeasure(c, s, a);
    } else if OfFlusher(a) {
      FlusherMeasure(c, s, a);
    } else {
      MainMeasure(c, s, a);
    }
  }

  // ---------- no deadlock ----------

  /** Whoever is inside the lock can take its next step. */
  lemma LockHolderMoves(c: Config, s: State) returns (a: Action)
    requires LockInv(s) && !s.lock.Free?
    ensures Enabled(c, s, a) && !Timer(s, a)
  {
    match s.lock
    case ByWorker(i) =>
      a := Work(i, if s.shutdown then Cancel else if s.workers[i].AddHold? then Add else Flush);
    case ByFlusher => a := FlusherFlush;
    case ByMain => a := MainFlush;
  }

  lemma BusyWorkerMoves(c: Config, s: State, i: nat) returns (a: Action)
    requires LockInv(s) && s.lock.Free? && !s.shutdown && i < |s.workers| && Busy(s.workers[i]) == 1
    ensures Enabled(c, s, a) && !Timer(s, a)
  {
    match s.workers[i]
    case Working(_) => a := Work(i, StagesPass);
    case AddWait(_) => a := Work(i, AddAcquire);
    case FlushWait => a := Work(i, FlushAcquire);
    case Saving(_) => a := Work(i, SaveDone(true));
    case _ => assert false;
  }

  lemma ShutdownMoves(c: Config, s: State) returns (a: Action)
    requires PhaseInv(c, s) && LockInv(s) && s.lock.Free? && s.shutdown && !s.main.Finished?
    ensures Enabled(c, s, a) && !Timer(s, a)
  {
    if i: nat :| i < |s.workers| && !s.workers[i].Exited? {
      a := Work(i, Cancel);
    } else {
      match s.flusher
      case Head => a := FlusherCheck;
      case Sleeping => a := FlusherWake;
      case FlusherWait => a := FlusherAcquire;
      case FlusherSaving(_) => a := FlusherSaved(true);
      case _ =>
        a := if s.main.Gathering? then MainGathered
             else if s.main.MainWait? then MainAcquire
             else MainSaved(true);
    }
  }

  lemma IdleSystemMoves(c: Config, s: State) returns (a: Action)
    requires Inv(c, s) && s.lock.Free? && !s.shutdown
    requires forall i | 0 <= i < |s.workers| :: s.workers[i].Idle?
    ensures Enabled(c, s, a) && !Timer(s, a)
  {
    TotalIsConstant(s.workers, Busy, 0);
    if s.queue != [] { return Work(0, Get); }
    match s.producer
    case Streaming => a := if s.pulled < c.lines then Pull else if c.raises then SourceRaise else SourceEnd;
    case Putting(_) => a := Put;
    case Ended => a := if s.main.AwaitProducer? then MainJoin else MainShutdown;
    case Raised => a := MainShutdown;
  }

  /** In every state short of the end some task can take a step that is not a timer's of the run: neither a full
      queue, nor the batch lock, nor `join` can block the run for good. */
  lemma NoDeadlock(c: Config, s: State) returns (a: Action)
    requires Inv(c, s) && !s.main.Finished?
    ensures Enabled(c, s, a) && !Timer(s, a)
  {
    if !s.lock.Free? {
      a := LockHolderMoves(c, s);
    } else if s.shutdown {
      a := ShutdownMoves(c, s);
    } else if i: nat :| i < |s.workers| && Busy(s.workers[i]) == 1 {
      a := BusyWorkerMoves(c, s, i);
    } else {
      a := IdleSystemMoves(c, s);
    }
  }

  // ---------- how long a run can be ----------

  /** How many actions of a run are not timers', and how many are flusher ticks. */
  function Moves(c: Config, s: State, actions: seq<Action>): nat
    requires Exec(c, s, actions).Some?
    decreases |actions|
  {
    if actions == [] then 0
    else (if Timer(s, actions[0]) then 0 else 1) + Moves(c, Effect(c, s, actions[0]), actions[1..])
  }

  function Ticks(actions: seq<Action>): nat {
    if actions == [] then 0 else (if actions[0].FlusherWake? then 1 else 0) + Ticks(actions[1..])
  }

  /** How many sleeps of the flusher the end of the run still has to wait for. */
  function TicksLeft(s: State): int {
    if s.flusher.FlusherExited? || (s.shutdown && !s.flusher.Sleeping?) then 0 else 1
  }

  lemma TickStep(c: Config, s: State, a: Action)
    requires PhaseInv(c, s) && Enabled(c, s, a) && !Timer(s, a)
    ensures TicksLeft(Effect(c, s, a)) + (if a.FlusherWake? then 1 else 0) <= TicksLeft(s)
  {
  }

  /** From every reachable state the run can be completed, by actions that are not timers', but for
      at most one last sleep of the flusher. */
  lemma {:induction false} CanFinish(c: Config, s: State) returns (actions: seq<Action>, end: State)
    requires Inv(c, s)
    ensures Exec(c, s, actions) == Some(end) && end.main.Finished?
    ensures Moves(c, s, actions) == |actions| && Ticks(actions) <= TicksLeft(s) <= 1
    decreases Measure(c, s)
  {
    if s.main.Finished? {
      return [], s;
    }
    var a := NoDeadlock(c, s);
    var s' := Effect(c, s, a);
    StepInv(c, s, a);
    StepMeasure(c, s, a);
    MeasureNonNegative(c, s);
    MeasureNonNegative(c, s');
    TickStep(c, s, a);
    var rest, last := CanFinish(c, s');
    actions, end := [a] + rest, last;
  }

  /** Every run is finite up to its timers: each line accounts for at most 44 actions, each worker and
      each flusher tick for a few more. */
  lemma {:induction false} RunLength(c: Config, s: State, actions: seq<Action>)
    requires Inv(c, s) && Exec(c, s, actions).Some?
    ensures Moves(c, s, actions) <= Measure(c, s) + 3 * Ticks(actions)
    decreases |actions|
  {
    MeasureNonNegative(c, s);
    if actions == [] {
    } else {
      var s' := Effect(c, s, actions[0]);
      StepInv(c, s, actions[0]);
      StepMeasure(c, s, actions[0]);
      RunLength(c, s', actions[1..]);
    }
  }
}
