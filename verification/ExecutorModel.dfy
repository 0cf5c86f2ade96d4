/** The executor of core/pipeline.py as a transition system.

    Every task of a run (one producer, the workers, the flusher, and `run` itself) has a program
    counter, and one action is the code a task executes between two of its `await`s.  A run is any
    finite list of actions, each enabled where it is taken, so quantifying over runs quantifies over
    every interleaving the event loop may choose.

    A record is the position of its line in the source.  The last fields of `State` are the
    repository's log and the book-keeping of records that leave the pipeline elsewhere. */
module ExecutorModel {
  import opened Wrappers

  type Record = nat

  /** `raises`: the source raises after yielding its `lines` lines instead of ending normally. */
  datatype Config = Config(lines: nat, raises: bool, numWorkers: nat, queueSize: nat, batchSize: nat) {
    predicate Valid() {
      numWorkers >= 1 && queueSize >= 1 && batchSize >= 1
    }
  }

  datatype Producer = Streaming | Putting(record: Record) | Ended | Raised

  /** `Idle`: waiting in `queue.get`.  `AddWait`/`AddHold`: before and inside the first lock of
      `_buffer_for_batch`.  `FlushWait`/`FlushHold`/`Saving`: before the lock of `_flush_batch`,
      inside it, and awaiting `save_batch`.  `Exited(true)`: cancelled after its record was buffered
      and before it was counted. */
  datatype Worker =
    | Idle
    | Working(record: Record)
    | AddWait(record: Record)
    | AddHold(record: Record)
    | FlushWait
    | FlushHold
    | Saving(batch: seq<Record>)
    | Exited(uncredited: bool)

  /** The record a worker is responsible for before it is buffered. */
  function Carried(w: Worker): seq<Record> {
    if w.Working? || w.AddWait? || w.AddHold? then [w.record] else []
  }

  function SavingBatch(w: Worker): seq<Record> {
    if w.Saving? then w.batch else []
  }

  /** Has put its record into the buffer and not yet counted it. */
  predicate Buffered(w: Worker) {
    w.FlushWait? || w.FlushHold? || w.Saving?
  }

  predicate Holds(w: Worker) {
    w.AddHold? || w.FlushHold?
  }

  datatype Flusher = Head | Sleeping | FlusherWait | FlusherHold | FlusherSaving(batch: seq<Record>) | FlusherExited

  /** `Finished`: the finally block is done; `run` then returns, or raises again what the source raised. */
  datatype Main =
    | AwaitProducer
    | AwaitJoin
    | Gathering
    | MainWait
    | MainHold
    | MainSaving(batch: seq<Record>)
    | Finished

  datatype Lock = Free | ByWorker(worker: nat) | ByFlusher | ByMain

  datatype State = State(
    producer: Producer,
    pulled: nat,
    queue: seq<Record>,
    unfinished: int,            // asyncio.Queue's count of puts without task_done
    workers: seq<Worker>,
    flusher: Flusher,
    main: Main,
    lock: Lock,
    shutdown: bool,
    buffer: seq<Record>,
    processed: int,
    failed: int,
    saved: seq<Record>,         // the repository
    dropped: seq<Record>,       // a stage raised
    lost: seq<Record>,          // save_batch raised RepositoryError
    abandoned: seq<Record>,     // its worker was cancelled before buffering it
    cut: seq<Record>,           // its save_batch call was cancelled
    owed: int                   // `unfinished` when the finally block began
  )

  datatype WorkerStep =
    | GetTimeout | Get | StagesPass | StagesFail | AddAcquire | Add | FlushAcquire | Flush | SaveDone(ok: bool)
    | Cancel

  datatype Action =
    | Pull | Put | SourceEnd | SourceRaise
    | Work(i: nat, step: WorkerStep)
    | FlusherCheck | FlusherWake | FlusherAcquire | FlusherFlush | FlusherSaved(ok: bool)
    | MainJoin | MainShutdown | MainGathered | MainAcquire | MainFlush | MainSaved(ok: bool)

  function Init(c: Config): State {
    State(Streaming, 0, [], 0, seq(c.numWorkers, _ => Idle), Head, AwaitProducer, Free, false,
          [], 0, 0, [], [], [], [], [], 0)
  }

  /** After `cancel()` a worker's next resumption raises, so `Cancel` is all it can still do. */
  predicate WorkerEnabled(s: State, i: nat, step: WorkerStep) {
    i < |s.workers| && s.shutdown == step.Cancel? &&
    var w := s.workers[i];
    match step
    case GetTimeout => w.Idle?
    case Get => w.Idle? && s.queue != []
    case StagesPass => w.Working?
    case StagesFail => w.Working?
    case AddAcquire => w.AddWait? && s.lock.Free?
    case Add => w.AddHold?
    case FlushAcquire => w.FlushWait? && s.lock.Free?
    case Flush => w.FlushHold?
    case SaveDone(_) => w.Saving?
    case Cancel => !w.Exited?
  }

  predicate Enabled(c: Config, s: State, a: Action) {
    match a
    case Work(i, step) => WorkerEnabled(s, i, step)
    case Pull => s.producer.Streaming? && s.pulled < c.lines
    case Put => s.producer.Putting? && |s.queue| < c.queueSize
    case SourceEnd => s.producer.Streaming? && s.pulled == c.lines && !c.raises
    case SourceRaise => s.producer.Streaming? && s.pulled == c.lines && c.raises
    case FlusherCheck => s.flusher.Head?
    case FlusherWake => s.flusher.Sleeping?
    case FlusherAcquire => s.flusher.FlusherWait? && s.lock.Free?
    case FlusherFlush => s.flusher.FlusherHold?
    case FlusherSaved(_) => s.flusher.FlusherSaving?
    case MainJoin => s.main.AwaitProducer? && s.producer.Ended?
    case MainShutdown =>
      || (s.main.AwaitProducer? && s.producer.Raised?)
      || (s.main.AwaitJoin? && s.unfinished == 0)
    case MainGathered =>
      s.main.Gathering? && s.flusher.FlusherExited? && forall i | 0 <= i < |s.workers| :: s.workers[i].Exited?
    case MainAcquire => s.main.MainWait? && s.lock.Free?
    case MainFlush => s.main.MainHold?
    case MainSaved(_) => s.main.MainSaving?
  }

  /** How `save_batch` returning or raising settles a batch. */
  function Settle(s: State, batch: seq<Record>, ok: bool): State {
    if ok then s.(saved := s.saved + batch)
    else s.(lost := s.lost + batch, failed := s.failed + |batch|, processed := s.processed - |batch|)
  }

  /** The end of `_consume`'s body after a record was buffered: count it and mark the task done. */
  function Credit(s: State, i: nat): State
    requires i < |s.workers|
  {
    s.(processed := s.processed + 1, unfinished := s.unfinished - 1, workers := s.workers[i := Idle])
  }

  function WorkerEffect(c: Config, s: State, i: nat, step: WorkerStep): State
    requires WorkerEnabled(s, i, step)
  {
    var w := s.workers[i];
    match step
    case GetTimeout => s
    case Get => s.(queue := s.queue[1..], workers := s.workers[i := Working(s.queue[0])])
    case StagesPass => s.(workers := s.workers[i := AddWait(w.record)])
    case StagesFail =>
      s.(dropped := s.dropped + [w.record], failed := s.failed + 1, unfinished := s.unfinished - 1,
         workers := s.workers[i := Idle])
    case AddAcquire => s.(lock := ByWorker(i), workers := s.workers[i := AddHold(w.record)])
    case Add =>
      var s1 := s.(buffer := s.buffer + [w.record], lock := Free);
      if |s1.buffer| >= c.batchSize then s1.(workers := s.workers[i := FlushWait]) else Credit(s1, i)
    case FlushAcquire => s.(lock := ByWorker(i), workers := s.workers[i := FlushHold])
    case Flush =>
      if s.buffer == [] then Credit(s.(lock := Free), i)
      else s.(buffer := [], lock := Free, workers := s.workers[i := Saving(s.buffer)])
    case SaveDone(ok) => Credit(Settle(s, w.batch, ok), i)
    case Cancel => CancelEffect(s, i)
  }

  /** `CancelledError` at worker `i`'s current await: `async with` releases the lock, and the
      `finally` of a worker that holds an unfinished record runs `task_done`. */
  function CancelEffect(s: State, i: nat): State
    requires i < |s.workers|
  {
    var w := s.workers[i];
    s.(abandoned := s.abandoned + Carried(w),
       cut := s.cut + SavingBatch(w),
       unfinished := s.unfinished - if w.Idle? then 0 else 1,
       lock := if Holds(w) then Free else s.lock,
       workers := s.workers[i := Exited(Buffered(w))])
  }

  function Effect(c: Config, s: State, a: Action): State
    requires Enabled(c, s, a)
  {
    match a
    case Work(i, step) => WorkerEffect(c, s, i, step)
    case Pull => s.(producer := Putting(s.pulled), pulled := s.pulled + 1)
    case Put =>
      s.(producer := Streaming, queue := s.queue + [s.producer.record], unfinished := s.unfinished + 1)
    case SourceEnd => s.(producer := Ended)
    case SourceRaise => s.(producer := Raised)
    case FlusherCheck => s.(flusher := if s.shutdown then FlusherExited else Sleeping)
    case FlusherWake => s.(flusher := FlusherWait)
    case FlusherAcquire => s.(flusher := FlusherHold, lock := ByFlusher)
    case FlusherFlush =>
      if s.buffer == [] then s.(flusher := Head, lock := Free)
      else s.(flusher := FlusherSaving(s.buffer), buffer := [], lock := Free)
    case FlusherSaved(ok) => Settle(s, s.flusher.batch, ok).(flusher := Head)
    case MainJoin => s.(main := AwaitJoin)
    case MainShutdown => s.(main := Gathering, shutdown := true, owed := s.unfinished)
    case MainGathered => s.(main := MainWait)
    case MainAcquire => s.(main := MainHold, lock := ByMain)
    case MainFlush =>
      if s.buffer == [] then s.(main := Finished, lock := Free)
      else s.(main := MainSaving(s.buffer), buffer := [], lock := Free)
    case MainSaved(ok) => Settle(s, s.main.batch, ok).(main := Finished)
  }

  /** Runs `actions` from `s`; None when one of them is not enabled where it is taken. */
  function Exec(c: Config, s: State, actions: seq<Action>): Option<State>
    decreases |actions|
  {
    if actions == [] then Some(s)
    else if Enabled(c, s, actions[0]) then Exec(c, Effect(c, s, actions[0]), actions[1..])
    else None
  }

  ghost predicate Reachable(c: Config, s: State) {
    exists actions :: Exec(c, Init(c), actions) == Some(s)
  }
}
