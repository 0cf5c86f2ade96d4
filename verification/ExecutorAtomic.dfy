/** The runs of the code as it stands.  Nothing awaits inside either body of the batch lock, so the lock is never
    held where a task is suspended and `async with` on it never suspends: once a task has reached the lock it
    runs on to the end of the lock's body.  These runs are among those of `ExecutorModel`, so whatever holds
    there holds here; this module proves what only holds here. */
module ExecutorAtomic {
  import opened Wrappers
  import opened ExecutorModel
  import opened ExecutorSafety
  import opened ExecutorProgress

  // ---------- runs ----------

  function Adding(w: Worker): int { if w.AddWait? || w.AddHold? then 1 else 0 }

  /** How many tasks are between reaching the lock and leaving its body. */
  function LockCode(s: State): int {
    Total(s.workers, Adding) + Total(s.workers, AwaitsFlush)
    + (if s.flusher.FlusherWait? || s.flusher.FlusherHold? then 1 else 0)
    + (if s.main.MainWait? || s.main.MainHold? then 1 else 0)
  }

  predicate LockAction(a: Action) {
    || (a.Work? && (a.step.AddAcquire? || a.step.Add? || a.step.FlushAcquire? || a.step.Flush?))
    || a.FlusherAcquire? || a.FlusherFlush? || a.MainAcquire? || a.MainFlush?
  }

  predicate Allowed(c: Config, s: State, a: Action) {
    Enabled(c, s, a) && (LockCode(s) > 0 ==> LockAction(a))
  }

  function ExecAtomic(c: Config, s: State, actions: seq<Action>): Option<State>
    decreases |actions|
  {
    if actions == [] then Some(s)
    else if Allowed(c, s, actions[0]) then ExecAtomic(c, Effect(c, s, actions[0]), actions[1..])
    else None
  }

  ghost predicate Attainable(c: Config, s: State) {
    exists actions :: ExecAtomic(c, Init(c), actions) == Some(s)
  }

  lemma {:induction false} AtomicIsExec(c: Config, s: State, actions: seq<Action>)
    requires ExecAtomic(c, s, actions).Some?
    ensures Exec(c, s, actions) == ExecAtomic(c, s, actions)
    decreases |actions|
  {
    if actions == [] {
    } else {
      AtomicIsExec(c, Effect(c, s, actions[0]), actions[1..]);
    }
  }

  /** Every attainable state is a reachable one. */
  lemma AttainableReachable(c: Config, s: State)
    requires Attainable(c, s)
    ensures Reachable(c, s)
  {
    var actions :| ExecAtomic(c, Init(c), actions) == Some(s);
    AtomicIsExec(c, Init(c), actions);
  }

  lemma InitAttainable(c: Config)
    ensures Attainable(c, Init(c))
  {
    assert ExecAtomic(c, Init(c), []) == Some(Init(c));
  }

  lemma {:induction false} AtomicAppend(c: Config, s: State, actions: seq<Action>, more: seq<Action>)
    requires ExecAtomic(c, s, actions).Some?
    ensures ExecAtomic(c, s, actions + more) == ExecAtomic(c, ExecAtomic(c, s, actions).value, more)
    decreases |actions|
  {
    if actions == [] {
      assert actions + more == more;
    } else {
      assert (actions + more)[1..] == actions[1..] + more;
      AtomicAppend(c, Effect(c, s, actions[0]), actions[1..], more);
    }
  }

  lemma AttainableExec(c: Config, s: State, actions: seq<Action>)
    requires Attainable(c, s) && ExecAtomic(c, s, actions).Some?
    ensures Attainable(c, ExecAtomic(c, s, actions).value)
  {
    var before :| ExecAtomic(c, Init(c), before) == Some(s);
    AtomicAppend(c, Init(c), before, actions);
  }

  lemma AttainableStep(c: Config, s: State, a: Action)
    requires Attainable(c, s) && Allowed(c, s, a)
    ensures Attainable(c, Effect(c, s, a))
  {
    assert ExecAtomic(c, s, [a]) == Some(Effect(c, s, a));
    AttainableExec(c, s, [a]);
  }

  // ---------- the invariant ----------

  /** How much further `processed` is than what this worker's batch has added to the repository: a worker
      that saves a full batch has counted all of it but its own record. */
  function Ahead(batchSize: int): Worker -> int {
    (w: Worker) =>
      if w.Saving? || w == Exited(true) then batchSize - 1 else if w.FlushWait? || w.FlushHold? then -1 else 0
  }

  function CutShare(batchSize: int): Worker -> int {
    (w: Worker) => if w == Exited(true) then batchSize else 0
  }

  predicate FullBatches(c: Config, ws: seq<Worker>) {
    forall i | 0 <= i < |ws| && ws[i].Saving? :: |ws[i].batch| == c.batchSize
  }

  predicate AtomicInv(c: Config, s: State) {
    && c.Valid() && LockCode(s) <= 1
    && (s.shutdown ==> Total(s.workers, Adding) == 0 && Total(s.workers, AwaitsFlush) == 0)
    && |s.buffer| < c.batchSize + Total(s.workers, AwaitsFlush)
    && (Total(s.workers, AwaitsFlush) > 0 ==> |s.buffer| == c.batchSize)
    && FullBatches(c, s.workers) && |FlusherBatch(s)| < c.batchSize && |MainBatch(s)| < c.batchSize
    && |s.cut| == Total(s.workers, CutShare(c.batchSize))
    && s.processed == |s.saved| + |s.buffer| + |FlusherBatch(s)| + |MainBatch(s)| + Total(s.workers, Ahead(c.batchSize))
  }

  lemma InitAtomic(c: Config)
    requires c.Valid()
    ensures AtomicInv(c, Init(c))
  {
    var ws := Init(c).workers;
    TotalIsConstant(ws, Adding, 0);
    TotalIsConstant(ws, AwaitsFlush, 0);
    TotalIsConstant(ws, CutShare(c.batchSize), 0);
    TotalIsConstant(ws, Ahead(c.batchSize), 0);
  }

  /** What one worker's step does to the four sums. */
  lemma SumsUpdate(ws: seq<Worker>, i: nat, w: Worker, b: int)
    requires i < |ws|
    ensures Total(ws[i := w], Adding) + Adding(ws[i]) == Total(ws, Adding) + Adding(w)
    ensures Total(ws[i := w], AwaitsFlush) + AwaitsFlush(ws[i]) == Total(ws, AwaitsFlush) + AwaitsFlush(w)
    ensures Total(ws[i := w], CutShare(b)) + CutShare(b)(ws[i]) == Total(ws, CutShare(b)) + CutShare(b)(w)
    ensures Total(ws[i := w], Ahead(b)) + Ahead(b)(ws[i]) == Total(ws, Ahead(b)) + Ahead(b)(w)
    ensures Total(ws, Adding) >= Adding(ws[i]) && Total(ws, AwaitsFlush) >= AwaitsFlush(ws[i])
    ensures Total(ws[i := w], Adding) >= 0 && Total(ws[i := w], AwaitsFlush) >= 0
  {
    TotalUpdate(ws, i, w, Adding);
    TotalUpdate(ws, i, w, AwaitsFlush);
    TotalUpdate(ws, i, w, CutShare(b));
    TotalUpdate(ws, i, w, Ahead(b));
    TotalAtLeast(ws, i, Adding);
    TotalAtLeast(ws, i, AwaitsFlush);
    TotalNonNegative(ws[i := w], Adding);
    TotalNonNegative(ws[i := w], AwaitsFlush);
  }

  lemma AtomicLockStep(c: Config, s: State, i: nat, step: WorkerStep)
    requires AtomicInv(c, s) && Allowed(c, s, Work(i, step)) && LockAction(Work(i, step))
    ensures AtomicInv(c, WorkerEffect(c, s, i, step))
  {
    SumsUpdate(s.workers, i, WorkerEffect(c, s, i, step).workers[i], c.batchSize);
  }

  lemma AtomicRestStep(c: Config, s: State, i: nat, step: WorkerStep)
    requires AtomicInv(c, s) && Allowed(c, s, Work(i, step)) && !LockAction(Work(i, step)) && !step.SaveDone?
    ensures AtomicInv(c, WorkerEffect(c, s, i, step))
  {
    SumsUpdate(s.workers, i, WorkerEffect(c, s, i, step).workers[i], c.batchSize);
  }

  lemma AtomicSaveDone(c: Config, s: State, i: nat, ok: bool)
    requires AtomicInv(c, s) && Allowed(c, s, Work(i, SaveDone(ok)))
    ensures AtomicInv(c, WorkerEffect(c, s, i, SaveDone(ok)))
  {
    SumsUpdate(s.workers, i, Idle, c.batchSize);
  }

  lemma AtomicProducer(c: Config, s: State, a: Action)
    requires AtomicInv(c, s) && Allowed(c, s, a) && OfProducer(a)
    ensures AtomicInv(c, Effect(c, s, a))
  {
  }

  lemma AtomicFlusher(c: Config, s: State, a: Action)
    requires AtomicInv(c, s) && Allowed(c, s, a) && OfFlusher(a)
    ensures AtomicInv(c, Effect(c, s, a))
  {
    TotalNonNegative(s.workers, Adding);
    TotalNonNegative(s.workers, AwaitsFlush);
  }

  lemma AtomicMain(c: Config, s: State, a: Action)
    requires AtomicInv(c, s) && Allowed(c, s, a) && !a.Work? && !OfProducer(a) && !OfFlusher(a)
    ensures AtomicInv(c, Effect(c, s, a))
  {
    TotalNonNegative(s.workers, Adding);
    TotalNonNegative(s.workers, AwaitsFlush);
  }

  lemma AtomicStep(c: Config, s: State, a: Action)
    requires AtomicInv(c, s) && Allowed(c, s, a)
    ensures AtomicInv(c, Effect(c, s, a))
  {
    if OfProducer(a) {
      AtomicProducer(c, s, a);
    } else if OfFlusher(a) {
      AtomicFlusher(c, s, a);
    } else if !a.Work? {
      AtomicMain(c, s, a);
    } else if LockAction(a) {
      AtomicLockStep(c, s, a.i, a.step);
    } else if a.step.SaveDone? {
      AtomicSaveDone(c, s, a.i, a.step.ok);
    } else {
      AtomicRestStep(c, s, a.i, a.step);
    }
  }

  lemma {:induction false} ExecAtomicInv(c: Config, s: State, actions: seq<Action>)
    requires AtomicInv(c, s) && ExecAtomic(c, s, actions).Some?
    ensures AtomicInv(c, ExecAtomic(c, s, actions).value)
    decreases |actions|
  {
    if actions == [] {
    } else {
      AtomicStep(c, s, actions[0]);
      ExecAtomicInv(c, Effect(c, s, actions[0]), actions[1..]);
    }
  }

  lemma AttainableInv(c: Config, s: State)
    requires c.Valid() && Attainable(c, s)
    ensures Inv(c, s) && AtomicInv(c, s)
  {
    AttainableReachable(c, s);
    ReachableInv(c, s);
    var actions :| ExecAtomic(c, Init(c), actions) == Some(s);
    InitAtomic(c);
    ExecAtomicInv(c, Init(c), actions);
  }

  // ---------- what follows ----------

  /** Is saving a batch, or was cancelled while it did. */
  function Saves(w: Worker): int { if w.Saving? || w == Exited(true) then 1 else 0 }

  lemma Distribute(b: int, n: int, k: int)
    ensures b * (n + k) == b * n + b * k
  {
  }

  lemma {:induction false} AheadIsSaves(ws: seq<Worker>, b: int)
    ensures Total(ws, Ahead(b)) == (b - 1) * Total(ws, Saves) - Total(ws, AwaitsFlush)
  {
    if ws == [] {
    } else {
      var n := |ws| - 1;
      AheadIsSaves(ws[..n], b);
      Distribute(b - 1, Total(ws[..n], Saves), Saves(ws[n]));
    }
  }

  lemma ProductNonNegative(b: int, n: int)
    requires b >= 0 && n >= 0
    ensures b * n >= 0
  {
  }

  /** Whenever no task is at the lock, the buffer is below batch_size, and `processed` exceeds the records
      saved, buffered and in the flusher's or the final batch by batch_size - 1 for each worker that saves
      a batch or was cancelled doing so. */
  lemma ProcessedIsAhead(c: Config, s: State)
    requires c.Valid() && Attainable(c, s) && LockCode(s) == 0
    ensures |s.buffer| < c.batchSize
    ensures s.processed == |s.saved| + |s.buffer| + |FlusherBatch(s)| + |MainBatch(s)|
                           + (c.batchSize - 1) * Total(s.workers, Saves)
  {
    AttainableInv(c, s);
    TotalNonNegative(s.workers, Adding);
    TotalNonNegative(s.workers, AwaitsFlush);
    AheadIsSaves(s.workers, c.batchSize);
  }

  /** So `processed` is never below what was saved, and never negative, in any state of any such run. */
  lemma ProcessedCoversSaved(c: Config, s: State)
    requires c.Valid() && Attainable(c, s)
    ensures s.processed >= |s.saved| >= 0
    ensures LockCode(s) == 0 ==> s.processed >= |s.saved| + |s.buffer|
  {
    AttainableInv(c, s);
    TotalNonNegative(s.workers, Adding);
    TotalNonNegative(s.workers, AwaitsFlush);
    TotalNonNegative(s.workers, Saves);
    AheadIsSaves(s.workers, c.batchSize);
    ProductNonNegative(c.batchSize - 1, Total(s.workers, Saves));
  }

  /** How tight the batches are: a worker saves exactly batch_size records, the flusher and the final drain
      fewer, and the buffer reaches batch_size only inside the lock code of the worker that filled it. */
  lemma BatchesExact(c: Config, s: State)
    requires c.Valid() && Attainable(c, s)
    ensures |s.buffer| <= c.batchSize && (LockCode(s) == 0 ==> |s.buffer| < c.batchSize)
    ensures forall i | 0 <= i < |s.workers| && s.workers[i].Saving? :: |s.workers[i].batch| == c.batchSize
    ensures s.flusher.FlusherSaving? ==> 1 <= |s.flusher.batch| < c.batchSize
    ensures s.main.MainSaving? ==> 1 <= |s.main.batch| < c.batchSize
  {
    AttainableInv(c, s);
    TotalNonNegative(s.workers, Adding);
    TotalNonNegative(s.workers, AwaitsFlush);
  }

  // ---------- progress ----------

  lemma SomeoneWaits(s: State) returns (i: nat)
    requires LockInv(s) && s.lock.Free? && Total(s.workers, Adding) + Total(s.workers, AwaitsFlush) > 0
    ensures i < |s.workers| && (s.workers[i].AddWait? || s.workers[i].FlushWait?)
  {
    if forall k | 0 <= k < |s.workers| :: !s.workers[k].AddWait? && !s.workers[k].FlushWait? {
      TotalIsConstant(s.workers, Adding, 0);
      TotalIsConstant(s.workers, AwaitsFlush, 0);
      assert false;
    }
    i :| i < |s.workers| && (s.workers[i].AddWait? || s.workers[i].FlushWait?);
  }

  /** The task at the lock can go on, without a timer. */
  lemma LockCodeMoves(c: Config, s: State) returns (a: Action)
    requires AtomicInv(c, s) && LockInv(s) && LockCode(s) > 0
    ensures Allowed(c, s, a) && !Timer(s, a)
  {
    TotalNonNegative(s.workers, Adding);
    TotalNonNegative(s.workers, AwaitsFlush);
    match s.lock
    case ByWorker(i) =>
      TotalAtLeast(s.workers, i, Adding);
      TotalAtLeast(s.workers, i, AwaitsFlush);
      a := Work(i, if s.workers[i].AddHold? then Add else Flush);
    case ByFlusher => a := FlusherFlush;
    case ByMain => a := MainFlush;
    case Free =>
      if s.flusher.FlusherWait? {
        a := FlusherAcquire;
      } else if s.main.MainWait? {
        a := MainAcquire;
      } else {
        var i := SomeoneWaits(s);
        a := Work(i, if s.workers[i].AddWait? then AddAcquire else FlushAcquire);
      }
  }

  lemma NextAllowed(c: Config, s: State) returns (a: Action)
    requires Inv(c, s) && AtomicInv(c, s) && !s.main.Finished?
    ensures Allowed(c, s, a) && !Timer(s, a)
  {
    if LockCode(s) > 0 {
      a := LockCodeMoves(c, s);
    } else {
      a := NoDeadlock(c, s);
    }
  }

  /** Every attainable state has a continuation to the end, by such a run. */
  lemma {:induction false} CompletesRun(c: Config, s: State) returns (actions: seq<Action>, end: State)
    requires Inv(c, s) && AtomicInv(c, s)
    ensures ExecAtomic(c, s, actions) == Some(end) && end.main.Finished?
    decreases Measure(c, s)
  {
    if s.main.Finished? {
      return [], s;
    }
    var a := NextAllowed(c, s);
    var next := Effect(c, s, a);
    StepInv(c, s, a);
    AtomicStep(c, s, a);
    StepMeasure(c, s, a);
    MeasureNonNegative(c, s);
    MeasureNonNegative(c, next);
    var rest, last := CompletesRun(c, next);
    actions, end := [a] + rest, last;
  }
}
