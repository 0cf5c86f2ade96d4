/** The class of core/pipeline.py.  Each method is the code one task runs between two awaits, and
    `Run` is the event loop: it resumes the tasks in the order of an arbitrary schedule. */
module PipelineExecutors {
  import opened Wrappers
  import opened ExecutorModel
  import opened ExecutorSafety
  import opened ExecutorAtomic

  datatype RunResult = RunResult(recordsProcessed: int, recordsFailed: int)

  class PipelineExecutor {
    const source: seq<string>
    const sourceRaises: bool
    const numWorkers: nat
    const queueSize: nat
    const batchSize: nat

    var queue: seq<Record>
    var unfinishedTasks: int
    var batchBuffer: seq<Record>
    var batchLock: Lock
    var shutdownEvent: bool
    var recordsProcessed: int
    var recordsFailed: int

    // where each task is suspended
    var pulled: nat
    var producer: Producer
    var workers: seq<Worker>
    var flusher: Flusher
    var main: Main

    // the repository, and the records that did not reach it
    ghost var saved: seq<Record>
    ghost var dropped: seq<Record>
    ghost var lost: seq<Record>
    ghost var abandoned: seq<Record>
    ghost var cut: seq<Record>
    ghost var owed: int

    function Settings(): Config {
      Config(|source|, sourceRaises, numWorkers, queueSize, batchSize)
    }

    /** What decides which tasks are ready. */
    function Visible(): State
      reads this
    {
      State(producer, pulled, queue, unfinishedTasks, workers, flusher, main, batchLock, shutdownEvent,
            batchBuffer, recordsProcessed, recordsFailed, [], [], [], [], [], 0)
    }

    ghost function Abs(): State
      reads this
    {
      State(producer, pulled, queue, unfinishedTasks, workers, flusher, main, batchLock, shutdownEvent,
            batchBuffer, recordsProcessed, recordsFailed, saved, dropped, lost, abandoned, cut, owed)
    }

    constructor (source: seq<string>, sourceRaises: bool, numWorkers: nat, queueSize: nat, batchSize: nat)
      ensures this.source == source && this.sourceRaises == sourceRaises
      ensures this.numWorkers == numWorkers && this.queueSize == queueSize && this.batchSize == batchSize
      ensures Abs() == Init(Settings())
    {
      this.source, this.sourceRaises := source, sourceRaises;
      this.numWorkers, this.queueSize, this.batchSize := numWorkers, queueSize, batchSize;
      queue, unfinishedTasks, batchBuffer, batchLock, shutdownEvent := [], 0, [], Free, false;
      recordsProcessed, recordsFailed := 0, 0;
      pulled, producer, flusher, main := 0, Streaming, Head, AwaitProducer;
      workers := seq(numWorkers, _ => Idle);
      saved, dropped, lost, abandoned, cut, owed := [], [], [], [], [], 0;
    }

    // ---------- _produce ----------

    method PullLine()
      requires Enabled(Settings(), Abs(), Pull)
      modifies this
      ensures Abs() == Effect(Settings(), old(Abs()), Pull)
    {
      producer := Putting(pulled);
      pulled := pulled + 1;
    }

    method PutRecord()
      requires Enabled(Settings(), Abs(), Put)
      modifies this
      ensures Abs() == Effect(Settings(), old(Abs()), Put)
    {
      queue := queue + [producer.record];
      unfinishedTasks := unfinishedTasks + 1;
      producer := Streaming;
    }

    // ---------- _consume and _buffer_for_batch ----------

    method TaskDone(i: nat)
      requires i < |workers|
      modifies this`unfinishedTasks, this`workers
      ensures unfinishedTasks == old(unfinishedTasks) - 1 && workers == old(workers)[i := Idle]
    {
      unfinishedTasks := unfinishedTasks - 1;
      workers := workers[i := Idle];
    }

    method GetRecord(i: nat)
      requires WorkerEnabled(Abs(), i, Get)
      modifies this
      ensures Abs() == WorkerEffect(Settings(), old(Abs()), i, Get)
    {
      var record := queue[0];
      queue := queue[1..];
      workers := workers[i := Working(record)];
    }

    method StagesDone(i: nat, passed: bool)
      requires WorkerEnabled(Abs(), i, if passed then StagesPass else StagesFail)
      modifies this
      ensures Abs() == WorkerEffect(Settings(), old(Abs()), i, if passed then StagesPass else StagesFail)
    {
      var record := workers[i].record;
      if passed {
        workers := workers[i := AddWait(record)];
      } else {
        dropped := dropped + [record];
        recordsFailed := recordsFailed + 1;
        TaskDone(i);
      }
    }

    method BufferForBatch(i: nat)
      requires WorkerEnabled(Abs(), i, Add)
      modifies this
      ensures Abs() == WorkerEffect(Settings(), old(Abs()), i, Add)
    {
      batchBuffer := batchBuffer + [workers[i].record];
      var shouldFlush := |batchBuffer| >= batchSize;
      batchLock := Free;
      if shouldFlush {
        workers := workers[i := FlushWait];
      } else {
        recordsProcessed := recordsProcessed + 1;
        TaskDone(i);
      }
    }

    // ---------- _flush_batch, shared by the workers, the flusher and run ----------

    /** The body of the lock: an empty result means there was nothing to save. */
    method SwapBuffer() returns (toSave: seq<Record>)
      modifies this`batchBuffer, this`batchLock
      ensures toSave == old(batchBuffer) && batchBuffer == [] && batchLock == Free
    {
      toSave := batchBuffer;
      if batchBuffer != [] {
        batchBuffer := [];
      }
      batchLock := Free;
    }

    method SaveBatchReturned(toSave: seq<Record>, ok: bool)
      modifies this`saved, this`lost, this`recordsFailed, this`recordsProcessed
      ensures Abs() == Settle(old(Abs()), toSave, ok)
    {
      if ok {
        saved := saved + toSave;
      } else {
        lost := lost + toSave;
        recordsFailed := recordsFailed + |toSave|;
        recordsProcessed := recordsProcessed - |toSave|;
      }
    }

    method WorkerFlush(i: nat)
      requires WorkerEnabled(Abs(), i, Flush)
      modifies this
      ensures Abs() == WorkerEffect(Settings(), old(Abs()), i, Flush)
    {
      var toSave := SwapBuffer();
      if toSave == [] {
        recordsProcessed := recordsProcessed + 1;
        TaskDone(i);
      } else {
        workers := workers[i := Saving(toSave)];
      }
    }

    method WorkerSaved(i: nat, ok: bool)
      requires WorkerEnabled(Abs(), i, SaveDone(ok))
      modifies this
      ensures Abs() == WorkerEffect(Settings(), old(Abs()), i, SaveDone(ok))
    {
      SaveBatchReturned(workers[i].batch, ok);
      recordsProcessed := recordsProcessed + 1;
      TaskDone(i);
    }

    /** Cancelled in `queue.get`, with no record in hand. */
    method CancelledIdle(i: nat)
      requires WorkerEnabled(Abs(), i, Cancel) && workers[i].Idle?
      modifies this
      ensures Abs() == WorkerEffect(Settings(), old(Abs()), i, Cancel)
    {
      workers := workers[i := Exited(false)];
      assert abandoned + [] == abandoned && cut + [] == cut;
    }

    /** Cancelled in a stage or on the way into the buffer. */
    method CancelledCarrying(i: nat)
      requires WorkerEnabled(Abs(), i, Cancel) && !workers[i].Idle? && !Buffered(workers[i])
      modifies this
      ensures Abs() == WorkerEffect(Settings(), old(Abs()), i, Cancel)
    {
      abandoned := abandoned + [workers[i].record];
      assert cut + [] == cut;
      if workers[i].AddHold? { batchLock := Free; }
      unfinishedTasks := unfinishedTasks - 1;
      workers := workers[i := Exited(false)];
    }

    /** Cancelled on the way out of the buffer or in `save_batch`. */
    method CancelledBuffered(i: nat)
      requires WorkerEnabled(Abs(), i, Cancel) && Buffered(workers[i])
      modifies this
      ensures Abs() == WorkerEffect(Settings(), old(Abs()), i, Cancel)
    {
      cut := cut + SavingBatch(workers[i]);
      assert abandoned + [] == abandoned;
      if workers[i].FlushHold? { batchLock := Free; }
      unfinishedTasks := unfinishedTasks - 1;
      workers := workers[i := Exited(true)];
    }

    method WorkerCancelled(i: nat)
      requires WorkerEnabled(Abs(), i, Cancel)
      modifies this
      ensures Abs() == WorkerEffect(Settings(), old(Abs()), i, Cancel)
    {
      if workers[i].Idle? {
        CancelledIdle(i);
      } else if Buffered(workers[i]) {
        CancelledBuffered(i);
      } else {
        CancelledCarrying(i);
      }
    }

    method Consume(i: nat, step: WorkerStep)
      requires WorkerEnabled(Abs(), i, step)
      modifies this
      ensures Abs() == WorkerEffect(Settings(), old(Abs()), i, step)
    {
      match step
      case GetTimeout =>
      case Get => GetRecord(i);
      case StagesPass => StagesDone(i, true);
      case StagesFail => StagesDone(i, false);
      case AddAcquire => batchLock, workers := ByWorker(i), workers[i := AddHold(workers[i].record)];
      case Add => BufferForBatch(i);
      case FlushAcquire => batchLock, workers := ByWorker(i), workers[i := FlushHold];
      case Flush => WorkerFlush(i);
      case SaveDone(ok) => WorkerSaved(i, ok);
      case Cancel => WorkerCancelled(i);
    }

    // ---------- _batch_flusher and run ----------

    method BatchFlusher(a: Action)
      requires a.FlusherCheck? || a.FlusherWake? || a.FlusherAcquire? || a.FlusherFlush? || a.FlusherSaved?
      requires Enabled(Settings(), Abs(), a)
      modifies this
      ensures Abs() == Effect(Settings(), old(Abs()), a)
    {
      match a
      case FlusherCheck => flusher := if shutdownEvent then FlusherExited else Sleeping;
      case FlusherWake => flusher := FlusherWait;
      case FlusherAcquire => flusher, batchLock := FlusherHold, ByFlusher;
      case FlusherFlush =>
        var toSave := SwapBuffer();
        flusher := if toSave == [] then Head else FlusherSaving(toSave);
      case FlusherSaved(ok) =>
        SaveBatchReturned(flusher.batch, ok);
        flusher := Head;
    }

    method FinalFlush(a: Action)
      requires a.MainAcquire? || a.MainFlush? || a.MainSaved?
      requires Enabled(Settings(), Abs(), a)
      modifies this
      ensures Abs() == Effect(Settings(), old(Abs()), a)
    {
      match a
      case MainAcquire => main, batchLock := MainHold, ByMain;
      case MainFlush =>
        var toSave := SwapBuffer();
        main := if toSave == [] then Finished else MainSaving(toSave);
      case MainSaved(ok) =>
        SaveBatchReturned(main.batch, ok);
        main := Finished;
    }

    method MainTask(a: Action)
      requires a.MainJoin? || a.MainShutdown? || a.MainGathered?
      requires Enabled(Settings(), Abs(), a)
      modifies this
      ensures Abs() == Effect(Settings(), old(Abs()), a)
    {
      match a
      case MainJoin => main := AwaitJoin;
      case MainShutdown =>
        owed := unfinishedTasks;
        shutdownEvent := true;
        main := Gathering;
      case MainGathered => main := MainWait;
    }

    method Resume(a: Action)
      requires Enabled(Settings(), Abs(), a)
      modifies this
      ensures Abs() == Effect(Settings(), old(Abs()), a)
    {
      match a
      case Pull => PullLine();
      case Put => PutRecord();
      case SourceEnd => producer := Ended;
      case SourceRaise => producer := Raised;
      case Work(i, step) => Consume(i, step);
      case FlusherCheck => BatchFlusher(a);
      case FlusherWake => BatchFlusher(a);
      case FlusherAcquire => BatchFlusher(a);
      case FlusherFlush => BatchFlusher(a);
      case FlusherSaved(_) => BatchFlusher(a);
      case MainJoin => MainTask(a);
      case MainShutdown => MainTask(a);
      case MainGathered => MainTask(a);
      case _ => FinalFlush(a);
    }

    /** Resumes ready tasks in the order of `schedule`; an entry whose task is not ready, or that would
        interrupt the task at the lock, is passed over.  The result is what `run` returns, if the schedule
        takes it that far; when the source raised, `run` raises that again and there is none. */
    method Run(schedule: seq<Action>) returns (result: Option<RunResult>)
      requires Settings().Valid() && Abs() == Init(Settings())
      modifies this
      ensures Attainable(Settings(), Abs())
      ensures main.Finished? ==> recordsProcessed + recordsFailed == |source| - owed && owed >= 0
      ensures recordsProcessed >= |saved|
      ensures result.Some? <==> main.Finished? && !sourceRaises
      ensures result.Some? ==>
                && result.value == RunResult(recordsProcessed, recordsFailed)
                && recordsProcessed + recordsFailed == |source|
                && recordsProcessed == |saved| && recordsFailed == |dropped| + |lost|
                && forall r: Record :: multiset(saved + dropped + lost)[r] == if r < |source| then 1 else 0
    {
      InitAttainable(Settings());
      for k := 0 to |schedule|
        invariant Attainable(Settings(), Abs())
      {
        assert Allowed(Settings(), Visible(), schedule[k]) <==> Allowed(Settings(), Abs(), schedule[k]);
        if Allowed(Settings(), Visible(), schedule[k]) {
          AttainableStep(Settings(), Abs(), schedule[k]);
          Resume(schedule[k]);
        }
      }
      ProcessedCoversSaved(Settings(), Abs());
      AttainableReachable(Settings(), Abs());
      if main.Finished? {
        Shortfall(Settings(), Abs());
        if !sourceRaises {
          RunConserves(Settings(), Abs());
          return Some(RunResult(recordsProcessed, recordsFailed));
        }
      }
      return None;
    }
  }
}
