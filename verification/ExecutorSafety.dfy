/** What every reachable state of the executor keeps: where the records are, what the counters
    mean, and how large the queue, the buffer and a batch can get. */
module ExecutorSafety {
  import opened Wrappers
  import opened ExecutorModel

  // ---------- sums over the workers ----------

  function Total(ws: seq<Worker>, f: Worker -> int): int {
    if ws == [] then 0 else Total(ws[..|ws| - 1], f) + f(ws[|ws| - 1])
  }

  lemma {:induction false} TotalUpdate(ws: seq<Worker>, i: nat, w: Worker, f: Worker -> int)
    requires i < |ws|
    ensures Total(ws[i := w], f) + f(ws[i]) == Total(ws, f) + f(w)
  {
    var n := |ws| - 1;
    if i < n {
      assert ws[i := w][..n] == ws[..n][i := w];
      TotalUpdate(ws[..n], i, w, f);
    } else {
      assert ws[i := w][..n] == ws[..n];
    }
  }

  lemma {:induction false} TotalIsConstant(ws: seq<Worker>, f: Worker -> int, k: int)
    requires forall i | 0 <= i < |ws| :: f(ws[i]) == k
    ensures Total(ws, f) == k * |ws|
  {
    if ws == [] {
    } else {
      TotalIsConstant(ws[..|ws| - 1], f, k);
    }
  }

  lemma {:induction false} TotalNonNegative(ws: seq<Worker>, f: Worker -> int)
    requires forall w :: f(w) >= 0
    ensures Total(ws, f) >= 0
  {
    if ws == [] {
    } else {
      TotalNonNegative(ws[..|ws| - 1], f);
    }
  }

  lemma {:induction false} TotalAtMost(ws: seq<Worker>, f: Worker -> int)
    requires forall w :: 0 <= f(w) <= 1
    ensures 0 <= Total(ws, f) <= |ws|
  {
    if ws == [] {
    } else {
      TotalAtMost(ws[..|ws| - 1], f);
    }
  }

  lemma {:induction false} TotalAtLeast(ws: seq<Worker>, i: nat, f: Worker -> int)
    requires i < |ws| && forall w :: f(w) >= 0
    ensures Total(ws, f) >= f(ws[i])
  {
    TotalNonNegative(ws[..|ws| - 1], f);
    if i < |ws| - 1 { TotalAtLeast(ws[..|ws| - 1], i, f); }
  }

  /** Holds a record that `queue.join` still waits for. */
  function Busy(w: Worker): int { if w.Idle? || w.Exited? then 0 else 1 }

  /** Has put its record into the buffer and not yet counted it. */
  function Uncounted(w: Worker): int { if Buffered(w) then 1 else 0 }

  /** Saw `should_flush` and has not yet swapped the buffer out. */
  function Pending(w: Worker): int { if w.FlushWait? || w.FlushHold? || w == Exited(true) then 1 else 0 }

  function Uncredited(w: Worker): int { if w == Exited(true) then 1 else 0 }

  function InFlight(w: Worker): int { |SavingBatch(w)| }

  // ---------- measures of lists of records ----------

  /** `f` measures a list of records piece by piece: its length, say, or the occurrences of one record. */
  ghost predicate Additive(f: seq<Record> -> int) {
    f([]) == 0 && forall a, b :: f(a + b) == f(a) + f(b)
  }

  /** How often `r` occurs. */
  function Occurrences(r: Record): seq<Record> -> int {
    (rs: seq<Record>) => multiset(rs)[r]
  }

  lemma OccurrencesAdditive(r: Record)
    ensures Additive(Occurrences(r))
  {
  }

  /** The measure of what the workers hold. */
  function Held(ws: seq<Worker>, f: seq<Record> -> int): int {
    if ws == [] then 0
    else var n := |ws| - 1; Held(ws[..n], f) + f(Carried(ws[n])) + f(SavingBatch(ws[n]))
  }

  lemma {:induction false} HeldUpdate(ws: seq<Worker>, i: nat, w: Worker, f: seq<Record> -> int)
    requires i < |ws|
    ensures Held(ws[i := w], f) + f(Carried(ws[i])) + f(SavingBatch(ws[i]))
         == Held(ws, f) + f(Carried(w)) + f(SavingBatch(w))
  {
    var n := |ws| - 1;
    if i < n {
      assert ws[i := w][..n] == ws[..n][i := w];
      HeldUpdate(ws[..n], i, w, f);
    } else {
      assert ws[i := w][..n] == ws[..n];
    }
  }

  lemma {:induction false} NothingHeld(ws: seq<Worker>, f: seq<Record> -> int)
    requires f([]) == 0 && forall i | 0 <= i < |ws| :: ws[i].Idle? || ws[i].Exited?
    ensures Held(ws, f) == 0
  {
    if ws == [] {
    } else {
      NothingHeld(ws[..|ws| - 1], f);
    }
  }

  // ---------- the invariant ----------

  function FlusherBatch(s: State): seq<Record> { if s.flusher.FlusherSaving? then s.flusher.batch else [] }

  function MainBatch(s: State): seq<Record> { if s.main.MainSaving? then s.main.batch else [] }

  function InHand(s: State): seq<Record> { if s.producer.Putting? then [s.producer.record] else [] }

  /** The measure of every place a record can be in. */
  function Everywhere(s: State, f: seq<Record> -> int): int {
    f(InHand(s)) + f(s.queue) + Held(s.workers, f) + f(s.dropped) + f(s.buffer) + f(FlusherBatch(s))
    + f(MainBatch(s)) + f(s.saved) + f(s.lost) + f(s.abandoned) + f(s.cut)
  }

  /** The records pulled so far: every line gives one record. */
  function Prefix(n: nat): seq<Record> { seq(n, i => i) }

  /** All places together hold exactly the records pulled so far, by whatever measure. */
  ghost predicate PlaceInv(s: State) {
    forall f: seq<Record> -> int | Additive(f) :: Everywhere(s, f) == f(Prefix(s.pulled))
  }

  function Batched(s: State): int {
    Total(s.workers, InFlight) + |FlusherBatch(s)| + |MainBatch(s)|
  }

  /** Who is inside the batch lock is who the lock says. */
  predicate LockInv(s: State) {
    && (forall i | 0 <= i < |s.workers| :: Holds(s.workers[i]) <==> s.lock == ByWorker(i))
    && (s.lock.ByWorker? ==> s.lock.worker < |s.workers|)
    && (s.flusher.FlusherHold? <==> s.lock.ByFlusher?)
    && (s.main.MainHold? <==> s.lock.ByMain?)
  }

  predicate Draining(m: Main) { !m.AwaitProducer? && !m.AwaitJoin? }

  predicate PhaseInv(c: Config, s: State) {
    && c.Valid() && |s.workers| == c.numWorkers && s.pulled <= c.lines
    && (s.shutdown <==> Draining(s.main))
    && (s.producer.Ended? ==> !c.raises && s.pulled == c.lines)
    && (s.producer.Raised? ==> c.raises && s.pulled == c.lines)
    && (s.main.AwaitJoin? ==> s.producer.Ended?)
    && (s.shutdown ==> s.producer.Ended? || s.producer.Raised?)
    && (!s.shutdown ==> !s.flusher.FlusherExited? && forall i | 0 <= i < |s.workers| :: !s.workers[i].Exited?)
    && (Draining(s.main) && !s.main.Gathering? ==>
          s.flusher.FlusherExited? && forall i | 0 <= i < |s.workers| :: s.workers[i].Exited?)
    && (s.main.MainSaving? || s.main.Finished? ==> s.buffer == [])
  }

  /** What the two counters and the queue's own count mean in every state. */
  predicate CountInv(s: State) {
    && s.unfinished == |s.queue| + Total(s.workers, Busy)
    && s.processed + Total(s.workers, Uncounted) + Total(s.workers, Uncredited)
       == |s.buffer| + Batched(s) + |s.saved| + |s.cut|
    && s.failed == |s.dropped| + |s.lost|
    && (!s.shutdown ==> s.abandoned == [] && s.cut == [])
    && (s.shutdown ==> |s.queue| + |s.abandoned| + Total(s.workers, Busy) + Total(s.workers, Uncredited) == s.owed)
    && (s.shutdown && s.producer.Ended? ==> s.owed == 0 && s.cut == [])
  }

  predicate BatchSize(c: Config, b: seq<Record>) { 1 <= |b| < c.batchSize + c.numWorkers }

  predicate SizeInv(c: Config, s: State) {
    && |s.queue| <= c.queueSize
    && |s.buffer| < c.batchSize + Total(s.workers, Pending)
    && (forall i | 0 <= i < |s.workers| && s.workers[i].Saving? :: BatchSize(c, s.workers[i].batch))
    && (s.flusher.FlusherSaving? ==> BatchSize(c, s.flusher.batch))
    && (s.main.MainSaving? ==> BatchSize(c, s.main.batch))
  }

  ghost predicate Inv(c: Config, s: State) {
    PhaseInv(c, s) && LockInv(s) && CountInv(s) && SizeInv(c, s) && PlaceInv(s)
  }

  // ---------- it holds initially and every action keeps it ----------

  lemma InitInv(c: Config)
    requires c.Valid()
    ensures Inv(c, Init(c))
  {
    var s := Init(c);
    TotalIsConstant(s.workers, Busy, 0);
    TotalIsConstant(s.workers, Uncounted, 0);
    TotalIsConstant(s.workers, Uncredited, 0);
    TotalIsConstant(s.workers, InFlight, 0);
    TotalIsConstant(s.workers, Pending, 0);
    forall f: seq<Record> -> int | Additive(f) ensures Everywhere(s, f) == f(Prefix(0)) {
      InitPlaces(c, f);
    }
  }

  lemma InitPlaces(c: Config, f: seq<Record> -> int)
    requires Additive(f)
    ensures Everywhere(Init(c), f) == f(Prefix(0))
  {
    NothingHeld(Init(c).workers, f);
    assert Prefix(0) == [];
  }

  predicate OfProducer(a: Action) { a.Pull? || a.Put? || a.SourceEnd? || a.SourceRaise? }

  predicate OfFlusher(a: Action) {
    a.FlusherCheck? || a.FlusherWake? || a.FlusherAcquire? || a.FlusherFlush? || a.FlusherSaved?
  }

  lemma WorkKeepsPhase(c: Config, s: State, i: nat, step: WorkerStep)
    requires PhaseInv(c, s) && WorkerEnabled(s, i, step)
    ensures PhaseInv(c, WorkerEffect(c, s, i, step))
  {
  }

  lemma TaskKeepsPhase(c: Config, s: State, a: Action)
    requires PhaseInv(c, s) && Enabled(c, s, a) && (OfProducer(a) || OfFlusher(a))
    ensures PhaseInv(c, Effect(c, s, a))
  {
  }

  lemma MainKeepsPhase(c: Config, s: State, a: Action)
    requires PhaseInv(c, s) && Enabled(c, s, a) && !a.Work? && !OfProducer(a) && !OfFlusher(a)
    ensures PhaseInv(c, Effect(c, s, a))
  {
  }

  lemma StepKeepsPhase(c: Config, s: State, a: Action)
    requires PhaseInv(c, s) && Enabled(c, s, a)
    ensures PhaseInv(c, Effect(c, s, a))
  {
    if a.Work? {
      WorkKeepsPhase(c, s, a.i, a.step);
    } else if OfProducer(a) || OfFlusher(a) {
      TaskKeepsPhase(c, s, a);
    } else {
      MainKeepsPhase(c, s, a);
    }
  }

  lemma WorkKeepsLock(c: Config, s: State, i: nat, step: WorkerStep)
    requires LockInv(s) && WorkerEnabled(s, i, step)
    ensures LockInv(WorkerEffect(c, s, i, step))
  {
  }

  lemma OtherKeepsLock(c: Config, s: State, a: Action)
    requires LockInv(s) && Enabled(c, s, a) && !a.Work?
    ensures LockInv(Effect(c, s, a))
  {
  }

  // Counters.  One lemma for the actions that only move a worker on, one for each that settles something.

  lemma CountsUpdate(ws: seq<Worker>, i: nat, w: Worker)
    requires i < |ws|
    ensures Total(ws[i := w], Busy) + Busy(ws[i]) == Total(ws, Busy) + Busy(w)
    ensures Total(ws[i := w], Uncounted) + Uncounted(ws[i]) == Total(ws, Uncounted) + Uncounted(w)
    ensures Total(ws[i := w], Uncredited) + Uncredited(ws[i]) == Total(ws, Uncredited) + Uncredited(w)
    ensures Total(ws[i := w], InFlight) + InFlight(ws[i]) == Total(ws, InFlight) + InFlight(w)
    ensures Total(ws, Busy) >= Busy(ws[i]) && Total(ws, Uncredited) >= 0
  {
    TotalUpdate(ws, i, w, Busy);
    TotalUpdate(ws, i, w, Uncounted);
    TotalUpdate(ws, i, w, Uncredited);
    TotalUpdate(ws, i, w, InFlight);
    TotalAtLeast(ws, i, Busy);
    TotalAtMost(ws, Uncredited);
  }

  predicate MovesOn(step: WorkerStep) {
    step.GetTimeout? || step.Get? || step.StagesPass? || step.StagesFail? || step.AddAcquire? || step.FlushAcquire?
  }

  lemma MoveKeepsCounts(c: Config, s: State, i: nat, step: WorkerStep)
    requires CountInv(s) && WorkerEnabled(s, i, step) && MovesOn(step)
    ensures CountInv(WorkerEffect(c, s, i, step))
  {
    CountsUpdate(s.workers, i, WorkerEffect(c, s, i, step).workers[i]);
  }

  lemma BufferKeepsCounts(c: Config, s: State, i: nat, step: WorkerStep)
    requires CountInv(s) && WorkerEnabled(s, i, step) && (step.Add? || step.Flush?)
    ensures CountInv(WorkerEffect(c, s, i, step))
  {
    CountsUpdate(s.workers, i, WorkerEffect(c, s, i, step).workers[i]);
  }

  lemma SaveKeepsCounts(c: Config, s: State, i: nat, ok: bool)
    requires CountInv(s) && WorkerEnabled(s, i, SaveDone(ok))
    ensures CountInv(WorkerEffect(c, s, i, SaveDone(ok)))
  {
    CountsUpdate(s.workers, i, WorkerEffect(c, s, i, SaveDone(ok)).workers[i]);
  }

  lemma CancelKeepsCounts(c: Config, s: State, i: nat)
    requires CountInv(s) && WorkerEnabled(s, i, Cancel)
    ensures CountInv(WorkerEffect(c, s, i, Cancel))
  {
    CountsUpdate(s.workers, i, WorkerEffect(c, s, i, Cancel).workers[i]);
  }

  // Sizes.

  lemma WorkKeepsSizes(c: Config, s: State, i: nat, step: WorkerStep)
    requires c.Valid() && SizeInv(c, s) && WorkerEnabled(s, i, step) && |s.workers| == c.numWorkers
    ensures SizeInv(c, WorkerEffect(c, s, i, step))
  {
    var w' := WorkerEffect(c, s, i, step).workers[i];
    TotalUpdate(s.workers, i, w', Pending);
    TotalAtMost(s.workers, Pending);
    TotalAtMost(s.workers[i := w'], Pending);
  }

  lemma OtherKeepsSizes(c: Config, s: State, a: Action)
    requires c.Valid() && SizeInv(c, s) && Enabled(c, s, a) && |s.workers| == c.numWorkers && !a.Work?
    ensures SizeInv(c, Effect(c, s, a))
  {
    TotalAtMost(s.workers, Pending);
  }

  // Places: every additive measure of all places together is conserved, except that pulling adds a record.

  lemma MoveKeepsPlaces(c: Config, s: State, i: nat, step: WorkerStep, f: seq<Record> -> int)
    requires WorkerEnabled(s, i, step) && MovesOn(step) && Additive(f)
    ensures Everywhere(WorkerEffect(c, s, i, step), f) == Everywhere(s, f)
  {
    HeldUpdate(s.workers, i, WorkerEffect(c, s, i, step).workers[i], f);
    if step.Get? { assert s.queue == [s.queue[0]] + s.queue[1..]; }
  }

  lemma BufferKeepsPlaces(c: Config, s: State, i: nat, step: WorkerStep, f: seq<Record> -> int)
    requires WorkerEnabled(s, i, step) && (step.Add? || step.Flush?) && Additive(f)
    ensures Everywhere(WorkerEffect(c, s, i, step), f) == Everywhere(s, f)
  {
    HeldUpdate(s.workers, i, WorkerEffect(c, s, i, step).workers[i], f);
  }

  lemma SaveKeepsPlaces(c: Config, s: State, i: nat, ok: bool, f: seq<Record> -> int)
    requires WorkerEnabled(s, i, SaveDone(ok)) && Additive(f)
    ensures Everywhere(WorkerEffect(c, s, i, SaveDone(ok)), f) == Everywhere(s, f)
  {
    HeldUpdate(s.workers, i, Idle, f);
  }

  lemma CancelKeepsPlaces(c: Config, s: State, i: nat, f: seq<Record> -> int)
    requires WorkerEnabled(s, i, Cancel) && Additive(f)
    ensures Everywhere(WorkerEffect(c, s, i, Cancel), f) == Everywhere(s, f)
  {
    HeldUpdate(s.workers, i, Exited(Buffered(s.workers[i])), f);
  }

  lemma ProducerKeepsPlaces(c: Config, s: State, a: Action, f: seq<Record> -> int)
    requires Enabled(c, s, a) && OfProducer(a) && Additive(f)
    ensures Everywhere(Effect(c, s, a), f) == Everywhere(s, f) + if a.Pull? then f([s.pulled]) else 0
  {
  }

  lemma FlusherKeepsPlaces(c: Config, s: State, a: Action, f: seq<Record> -> int)
    requires Enabled(c, s, a) && OfFlusher(a) && Additive(f)
    ensures Everywhere(Effect(c, s, a), f) == Everywhere(s, f)
  {
  }

  lemma MainKeepsPlaces(c: Config, s: State, a: Action, f: seq<Record> -> int)
    requires Enabled(c, s, a) && !a.Work? && !OfProducer(a) && !OfFlusher(a) && Additive(f)
    ensures Everywhere(Effect(c, s, a), f) == Everywhere(s, f)
  {
  }

  lemma OtherKeepsPlaces(c: Config, s: State, a: Action, f: seq<Record> -> int)
    requires Enabled(c, s, a) && !a.Work? && Additive(f)
    ensures Everywhere(Effect(c, s, a), f) == Everywhere(s, f) + if a.Pull? then f([s.pulled]) else 0
  {
    if OfProducer(a) {
      ProducerKeepsPlaces(c, s, a, f);
    } else if OfFlusher(a) {
      FlusherKeepsPlaces(c, s, a, f);
    } else {
      MainKeepsPlaces(c, s, a, f);
    }
  }

  lemma WorkKeepsCounts(c: Config, s: State, i: nat, step: WorkerStep)
    requires CountInv(s) && WorkerEnabled(s, i, step)
    ensures CountInv(WorkerEffect(c, s, i, step))
  {
    match step
    case Add => BufferKeepsCounts(c, s, i, step);
    case Flush => BufferKeepsCounts(c, s, i, step);
    case SaveDone(ok) => SaveKeepsCounts(c, s, i, ok);
    case Cancel => CancelKeepsCounts(c, s, i);
    case _ => MoveKeepsCounts(c, s, i, step);
  }

  lemma ProducerKeepsCounts(c: Config, s: State, a: Action)
    requires CountInv(s) && PhaseInv(c, s) && Enabled(c, s, a) && OfProducer(a)
    ensures CountInv(Effect(c, s, a))
  {
  }

  lemma FlusherKeepsCounts(c: Config, s: State, a: Action)
    requires CountInv(s) && PhaseInv(c, s) && Enabled(c, s, a) && OfFlusher(a)
    ensures CountInv(Effect(c, s, a))
  {
    if a.FlusherSaved? { FlusherSavedKeepsCounts(c, s, a.ok); }
  }

  lemma FlusherSavedKeepsCounts(c: Config, s: State, ok: bool)
    requires CountInv(s) && PhaseInv(c, s) && Enabled(c, s, FlusherSaved(ok))
    ensures CountInv(Effect(c, s, FlusherSaved(ok)))
  {
  }

  lemma ShutdownKeepsCounts(c: Config, s: State)
    requires CountInv(s) && PhaseInv(c, s) && Enabled(c, s, MainShutdown)
    ensures CountInv(Effect(c, s, MainShutdown))
  {
    TotalIsConstant(s.workers, Uncredited, 0);
  }

  lemma MainKeepsCounts(c: Config, s: State, a: Action)
    requires CountInv(s) && PhaseInv(c, s) && Enabled(c, s, a)
    requires !a.Work? && !OfProducer(a) && !OfFlusher(a) && !a.MainShutdown?
    ensures CountInv(Effect(c, s, a))
  {
  }

  lemma OtherKeepsCounts(c: Config, s: State, a: Action)
    requires CountInv(s) && PhaseInv(c, s) && Enabled(c, s, a) && !a.Work?
    ensures CountInv(Effect(c, s, a))
  {
    if OfProducer(a) {
      ProducerKeepsCounts(c, s, a);
    } else if OfFlusher(a) {
      FlusherKeepsCounts(c, s, a);
    } else if a.MainShutdown? {
      ShutdownKeepsCounts(c, s);
    } else {
      MainKeepsCounts(c, s, a);
    }
  }

  lemma StepKeepsPlaces(c: Config, s: State, a: Action, f: seq<Record> -> int)
    requires Enabled(c, s, a) && Additive(f)
    ensures Everywhere(Effect(c, s, a), f) == Everywhere(s, f) + if a.Pull? then f([s.pulled]) else 0
  {
    match a
    case Work(i, step) =>
      match step {
        case Add => BufferKeepsPlaces(c, s, i, step, f);
        case Flush => BufferKeepsPlaces(c, s, i, step, f);
        case SaveDone(ok) => SaveKeepsPlaces(c, s, i, ok, f);
        case Cancel => CancelKeepsPlaces(c, s, i, f);
        case _ => MoveKeepsPlaces(c, s, i, step, f);
      }
    case _ => OtherKeepsPlaces(c, s, a, f);
  }

  lemma StepKeepsPlaceInv(c: Config, s: State, a: Action)
    requires Enabled(c, s, a) && PlaceInv(s)
    ensures PlaceInv(Effect(c, s, a))
  {
    var s' := Effect(c, s, a);
    assert s'.pulled == if a.Pull? then s.pulled + 1 else s.pulled;
    forall f: seq<Record> -> int | Additive(f) ensures Everywhere(s', f) == f(Prefix(s'.pulled)) {
      StepKeepsPlaces(c, s, a, f);
      assert Prefix(s.pulled + 1) == Prefix(s.pulled) + [s.pulled];
    }
  }

  /** Every action of every task keeps the invariant. */
  lemma StepInv(c: Config, s: State, a: Action)
    requires Inv(c, s) && Enabled(c, s, a)
    ensures Inv(c, Effect(c, s, a))
  {
    StepKeepsPhase(c, s, a);
    StepKeepsPlaceInv(c, s, a);
    match a
    case Work(i, step) =>
      WorkKeepsLock(c, s, i, step);
      WorkKeepsCounts(c, s, i, step);
      WorkKeepsSizes(c, s, i, step);
    case _ =>
      OtherKeepsLock(c, s, a);
      OtherKeepsCounts(c, s, a);
      OtherKeepsSizes(c, s, a);
  }

  lemma {:induction false} ExecInv(c: Config, s: State, actions: seq<Action>)
    requires Inv(c, s) && Exec(c, s, actions).Some?
    ensures Inv(c, Exec(c, s, actions).value)
    decreases |actions|
  {
    if actions == [] {
    } else {
      StepInv(c, s, actions[0]);
      ExecInv(c, Effect(c, s, actions[0]), actions[1..]);
    }
  }

  /** The invariant holds in every reachable state of every interleaving. */
  lemma ReachableInv(c: Config, s: State)
    requires c.Valid() && Reachable(c, s)
    ensures Inv(c, s)
  {
    var actions :| Exec(c, Init(c), actions) == Some(s);
    InitInv(c);
    ExecInv(c, Init(c), actions);
  }

  lemma {:induction false} ExecAppend(c: Config, s: State, actions: seq<Action>, more: seq<Action>)
    requires Exec(c, s, actions).Some?
    ensures Exec(c, s, actions + more) == Exec(c, Exec(c, s, actions).value, more)
    decreases |actions|
  {
    if actions == [] {
      assert actions + more == more;
    } else {
      assert (actions + more)[1..] == actions[1..] + more;
      ExecAppend(c, Effect(c, s, actions[0]), actions[1..], more);
    }
  }

  lemma ReachableStep(c: Config, s: State, a: Action)
    requires Reachable(c, s) && Enabled(c, s, a)
    ensures Reachable(c, Effect(c, s, a))
  {
    var actions :| Exec(c, Init(c), actions) == Some(s);
    ExecAppend(c, Init(c), actions, [a]);
    assert Exec(c, s, [a]) == Some(Effect(c, s, a));
  }

  lemma InitReachable(c: Config)
    ensures Reachable(c, Init(c))
  {
    assert Exec(c, Init(c), []) == Some(Init(c));
  }

  lemma ReachableExec(c: Config, s: State, actions: seq<Action>)
    requires Reachable(c, s) && Exec(c, s, actions).Some?
    ensures Reachable(c, Exec(c, s, actions).value)
  {
    var before :| Exec(c, Init(c), before) == Some(s);
    ExecAppend(c, Init(c), before, actions);
  }

  // ---------- what follows for a run ----------

  /** In every reachable state each record pulled so far is in exactly one place. */
  lemma OnePlaceEach(c: Config, s: State, r: Record)
    requires c.Valid() && Reachable(c, s)
    ensures Everywhere(s, Occurrences(r)) == if r < s.pulled then 1 else 0
  {
    ReachableInv(c, s);
    OccurrencesAdditive(r);
    PrefixOccurrences(s.pulled, r);
  }

  lemma {:induction false} PrefixOccurrences(n: nat, r: Record)
    ensures multiset(Prefix(n))[r] == if r < n then 1 else 0
  {
    if n == 0 {
    } else {
      PrefixOccurrences(n - 1, r);
      assert Prefix(n) == Prefix(n - 1) + [n - 1];
    }
  }

  /** When the finally block is done, the counters fall short of the lines pulled by exactly the number of unfinished
      tasks of the queue at the moment the finally block began, so every line is counted if and only if
      there were none. */
  lemma Shortfall(c: Config, s: State)
    requires c.Valid() && Reachable(c, s) && s.main.Finished?
    ensures s.processed + s.failed + s.owed == c.lines && s.owed >= 0
    ensures s.processed + s.failed == c.lines <==> s.owed == 0
    ensures s.failed == |s.dropped| + |s.lost|
  {
    ReachableInv(c, s);
    TotalIsConstant(s.workers, Busy, 0);
    TotalIsConstant(s.workers, Uncounted, 0);
    TotalIsConstant(s.workers, InFlight, 0);
    TotalAtMost(s.workers, Uncredited);
    var size := (rs: seq<Record>) => |rs|;
    assert Additive(size);
    NothingHeld(s.workers, size);
    assert size(Prefix(s.pulled)) == s.pulled;
  }

  /** For a source that ends normally nothing is lost: `processed` counts the saved records, `failed`
      the others, and every line is in exactly one of the two groups. */
  lemma RunConserves(c: Config, s: State)
    requires c.Valid() && !c.raises && Reachable(c, s) && s.main.Finished?
    ensures s.processed == |s.saved| && s.failed == |s.dropped| + |s.lost|
    ensures s.processed + s.failed == c.lines
    ensures forall r: Record :: multiset(s.saved + s.dropped + s.lost)[r] == if r < c.lines then 1 else 0
  {
    ReachableInv(c, s);
    Shortfall(c, s);
    TotalIsConstant(s.workers, Uncounted, 0);
    TotalIsConstant(s.workers, InFlight, 0);
    TotalIsConstant(s.workers, Busy, 0);
    TotalAtMost(s.workers, Uncredited);
    assert s.abandoned == [] && s.queue == [] && s.cut == [];
    forall r: Record ensures multiset(s.saved + s.dropped + s.lost)[r] == if r < c.lines then 1 else 0 {
      OnePlaceEach(c, s, r);
      NothingHeld(s.workers, Occurrences(r));
    }
  }

  /** Cancellation at the end of a normal run never reaches a worker that holds a record. */
  lemma ShutdownFindsWorkersIdle(c: Config, s: State, i: nat)
    requires c.Valid() && !c.raises && Reachable(c, s) && s.shutdown && i < c.numWorkers
    ensures i < |s.workers| && (s.workers[i].Idle? || s.workers[i] == Exited(false))
    ensures s.queue == [] && s.abandoned == [] && s.cut == []
  {
    ReachableInv(c, s);
    TotalAtMost(s.workers, Uncredited);
    TotalAtMost(s.workers, Busy);
    TotalAtLeast(s.workers, i, Busy);
    TotalAtLeast(s.workers, i, Uncredited);
  }

  /** Saw `should_flush` and has not yet taken the buffer. */
  function AwaitsFlush(w: Worker): int { if w.FlushWait? || w.FlushHold? then 1 else 0 }

  lemma {:induction false} PendingSplits(ws: seq<Worker>)
    ensures Total(ws, Pending) == Total(ws, AwaitsFlush) + Total(ws, Uncredited)
  {
    if ws == [] {
    } else {
      PendingSplits(ws[..|ws| - 1]);
    }
  }

  lemma {:induction false} UncountedAtMost(ws: seq<Worker>)
    ensures 0 <= Total(ws, Uncounted) + Total(ws, Uncredited) <= |ws|
  {
    if ws == [] {
    } else {
      UncountedAtMost(ws[..|ws| - 1]);
    }
  }

  /** Until workers are cancelled, and throughout a run whose source ends normally, every worker that
      buffered a record still counts it. */
  lemma NoneUncredited(c: Config, s: State)
    requires Inv(c, s) && (!c.raises || !s.shutdown)
    ensures Total(s.workers, Uncredited) == 0 && s.cut == []
  {
    if s.shutdown {
      TotalAtMost(s.workers, Uncredited);
      TotalAtMost(s.workers, Busy);
    } else {
      TotalIsConstant(s.workers, Uncredited, 0);
    }
  }

  /** Backpressure and batch sizes in every reachable state.  Only the bound on the buffer needs that no
      worker was cancelled between filling the buffer and flushing it. */
  lemma Bounded(c: Config, s: State)
    requires c.Valid() && Reachable(c, s)
    ensures |s.queue| <= c.queueSize
    ensures !c.raises || !s.shutdown ==> |s.buffer| <= c.batchSize - 1 + Total(s.workers, AwaitsFlush)
    ensures |s.buffer| <= c.batchSize - 1 + c.numWorkers
    ensures forall i | 0 <= i < |s.workers| && s.workers[i].Saving? ::
              1 <= |s.workers[i].batch| <= c.batchSize - 1 + c.numWorkers
    ensures s.flusher.FlusherSaving? ==> 1 <= |s.flusher.batch| <= c.batchSize - 1 + c.numWorkers
    ensures s.main.MainSaving? ==> 1 <= |s.main.batch| <= c.batchSize - 1 + c.numWorkers
  {
    ReachableInv(c, s);
    PendingSplits(s.workers);
    TotalAtMost(s.workers, Pending);
    if !c.raises || !s.shutdown { NoneUncredited(c, s); }
  }

  /** The documented equation of the counters, and how low `processed` can go.  Only the equation needs
      that no worker was cancelled between buffering its record and counting it. */
  lemma CountersMean(c: Config, s: State)
    requires c.Valid() && Reachable(c, s)
    ensures !c.raises || !s.shutdown ==>
              s.processed + Total(s.workers, Uncounted) == |s.buffer| + Batched(s) + |s.saved|
    ensures s.processed + Total(s.workers, Uncounted) + Total(s.workers, Uncredited)
         == |s.buffer| + Batched(s) + |s.saved| + |s.cut|
    ensures s.failed == |s.dropped| + |s.lost|
    ensures 0 <= s.processed + c.numWorkers
  {
    ReachableInv(c, s);
    UncountedAtMost(s.workers);
    TotalNonNegative(s.workers, InFlight);
    if !c.raises || !s.shutdown { NoneUncredited(c, s); }
  }

  /** When the finally block is done, `processed` counts the saved records and those whose `save_batch` was cut off,
      less the workers that were cancelled before counting their own. */
  lemma ProcessedAtEnd(c: Config, s: State)
    requires c.Valid() && Reachable(c, s) && s.main.Finished?
    ensures s.processed + Total(s.workers, Uncredited) == |s.saved| + |s.cut|
  {
    ReachableInv(c, s);
    TotalIsConstant(s.workers, Uncounted, 0);
    TotalIsConstant(s.workers, InFlight, 0);
  }
}
