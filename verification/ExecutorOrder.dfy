/** In what order records move: the queue is first in, first out, and with one worker so is everything up to
    the repository, except where the flusher's batch and the worker's are being saved at once. */
module ExecutorOrder {
  import opened Wrappers
  import opened ExecutorModel
  import opened ExecutorSafety
  import opened ExecutorProgress
  import opened ExecutorAtomic
  import opened ExecutorRuns

  // ---------- the queue ----------

  /** `rs` is the run of records that ends just before `end`. */
  predicate Consecutive(rs: seq<Record>, end: nat) {
    |rs| <= end && forall k | 0 <= k < |rs| :: rs[k] == end - |rs| + k
  }

  /** The records that no worker has had: the queue and then the producer's hand. */
  function Rest(s: State): seq<Record> { s.queue + InHand(s) }

  lemma WorkTakesRest(c: Config, s: State, i: nat, step: WorkerStep)
    requires WorkerEnabled(s, i, step)
    ensures var next := WorkerEffect(c, s, i, step);
      next.pulled == s.pulled && Rest(next) == if step.Get? then Rest(s)[1..] else Rest(s)
  {
  }

  lemma OtherKeepsRest(c: Config, s: State, a: Action)
    requires Enabled(c, s, a) && !a.Work? && !a.Pull?
    ensures Effect(c, s, a).pulled == s.pulled && Rest(Effect(c, s, a)) == Rest(s)
  {
  }

  lemma QueueStep(c: Config, s: State, a: Action)
    requires Enabled(c, s, a) && Consecutive(Rest(s), s.pulled)
    ensures var next := Effect(c, s, a); Consecutive(Rest(next), next.pulled)
  {
    var next := Effect(c, s, a);
    if a.Pull? {
      assert Rest(next) == Rest(s) + [s.pulled];
    } else if a.Work? {
      WorkTakesRest(c, s, a.i, a.step);
    } else {
      OtherKeepsRest(c, s, a);
    }
  }

  lemma {:induction false} ExecQueue(c: Config, s: State, actions: seq<Action>)
    requires Consecutive(Rest(s), s.pulled) && Exec(c, s, actions).Some?
    ensures var end := Exec(c, s, actions).value; Consecutive(Rest(end), end.pulled)
    decreases |actions|
  {
    if actions == [] {
    } else {
      QueueStep(c, s, actions[0]);
      ExecQueue(c, Effect(c, s, actions[0]), actions[1..]);
    }
  }

  /** In every reachable state the queue and then the producer's hand are exactly the records pulled last, in
      the order they were pulled. */
  lemma QueueIsFifo(c: Config, s: State)
    requires Reachable(c, s)
    ensures Consecutive(Rest(s), s.pulled)
  {
    var actions :| Exec(c, Init(c), actions) == Some(s);
    ExecQueue(c, Init(c), actions);
  }

  /** So a worker always gets the oldest record that no worker has had. */
  lemma GetTakesOldest(c: Config, s: State, i: nat)
    requires Reachable(c, s) && WorkerEnabled(s, i, Get)
    ensures var next := WorkerEffect(c, s, i, Get);
      && next.workers[i].Working? && next.workers[i].record == s.pulled - |Rest(s)|
      && forall r | r in Rest(next) :: next.workers[i].record < r
  {
    QueueIsFifo(c, s);
    ReachableStep(c, s, Work(i, Get));
    QueueIsFifo(c, WorkerEffect(c, s, i, Get));
    assert Rest(s)[0] == s.queue[0];
  }

  // ---------- one worker ----------

  predicate Ascending(rs: seq<Record>) {
    forall i, j | 0 <= i < j < |rs| :: rs[i] < rs[j]
  }

  lemma DropMiddle(a: seq<Record>, b: seq<Record>, c: seq<Record>)
    requires Ascending(a + b + c)
    ensures Ascending(a + c)
  {
    var all := a + b + c;
    forall i, j | 0 <= i < j < |a + c| ensures (a + c)[i] < (a + c)[j] {
      assert (a + c)[i] == all[if i < |a| then i else i + |b|];
      assert (a + c)[j] == all[if j < |a| then j else j + |b|];
    }
  }

  /** In order behind `before`, and nothing in it is still to be pulled. */
  predicate InLine(before: seq<Record>, line: seq<Record>, pulled: nat) {
    Ascending(before + line) && forall r | r in before + line :: r < pulled
  }

  lemma LineDrops(before: seq<Record>, a: seq<Record>, b: seq<Record>, c: seq<Record>, pulled: nat)
    requires InLine(before, a + b + c, pulled)
    ensures InLine(before, a + c, pulled)
  {
    assert before + (a + b + c) == (before + a) + b + c;
    assert before + (a + c) == (before + a) + c;
    DropMiddle(before + a, b, c);
    forall r | r in before + (a + c) ensures r < pulled { assert r in before + (a + b + c); }
  }

  lemma AscendingGrows(rs: seq<Record>, r: Record)
    requires Ascending(rs) && forall i | 0 <= i < |rs| :: rs[i] < r
    ensures Ascending(rs + [r])
  {
  }

  lemma LineGrows(before: seq<Record>, line: seq<Record>, pulled: nat)
    requires InLine(before, line, pulled)
    ensures InLine(before, line + [pulled], pulled + 1)
  {
    var all := before + line;
    assert before + (line + [pulled]) == all + [pulled];
    forall i | 0 <= i < |all| ensures all[i] < pulled { assert all[i] in all; }
    AscendingGrows(all, pulled);
    forall r | r in all + [pulled] ensures r < pulled + 1 { assert r in all || r == pulled; }
  }

  /** Batches, buffer, the record in the stages, and the rest, end to end. */
  function Join(f: seq<Record>, w: seq<Record>, m: seq<Record>, b: seq<Record>, c: seq<Record>, r: seq<Record>): seq<Record> {
    f + w + m + b + c + r
  }

  lemma JoinGet(f: seq<Record>, w: seq<Record>, m: seq<Record>, b: seq<Record>, q: Record, r: seq<Record>)
    ensures Join(f, w, m, b, [], [q] + r) == Join(f, w, m, b, [q], r)
  {
  }

  lemma JoinAdd(f: seq<Record>, w: seq<Record>, m: seq<Record>, b: seq<Record>, q: Record, r: seq<Record>)
    ensures Join(f, w, m, b, [q], r) == Join(f, w, m, b + [q], [], r)
  {
  }

  lemma JoinSwap(f: seq<Record>, b: seq<Record>, c: seq<Record>, r: seq<Record>)
    ensures Join(f, [], [], b, c, r) == Join(f, b, [], [], c, r) == Join(f, [], b, [], c, r)
  {
  }

  lemma JoinFlusher(b: seq<Record>, c: seq<Record>, r: seq<Record>)
    ensures Join([], [], [], b, c, r) == Join(b, [], [], [], c, r)
  {
  }

  lemma JoinGrows(f: seq<Record>, w: seq<Record>, m: seq<Record>, b: seq<Record>, c: seq<Record>, r: seq<Record>,
                  q: Record)
    ensures Join(f, w, m, b, c, r + [q]) == Join(f, w, m, b, c, r) + [q]
  {
  }

  /** Giving up any one part keeps the others in line. */
  lemma DropFlusher(before: seq<Record>, f: seq<Record>, w: seq<Record>, m: seq<Record>, b: seq<Record>, c: seq<Record>,
                    r: seq<Record>, pulled: nat)
    requires InLine(before, Join(f, w, m, b, c, r), pulled)
    ensures InLine(before, Join([], w, m, b, c, r), pulled)
  {
    var tail := w + m + b + c + r;
    assert Join(f, w, m, b, c, r) == [] + f + tail && Join([], w, m, b, c, r) == [] + tail;
    LineDrops(before, [], f, tail, pulled);
  }

  lemma DropWorker(before: seq<Record>, f: seq<Record>, w: seq<Record>, m: seq<Record>, b: seq<Record>, c: seq<Record>,
                   r: seq<Record>, pulled: nat)
    requires InLine(before, Join(f, w, m, b, c, r), pulled)
    ensures InLine(before, Join(f, [], m, b, c, r), pulled)
  {
    var tail := m + b + c + r;
    assert Join(f, w, m, b, c, r) == f + w + tail && Join(f, [], m, b, c, r) == f + tail;
    LineDrops(before, f, w, tail, pulled);
  }

  lemma DropMain(before: seq<Record>, f: seq<Record>, w: seq<Record>, m: seq<Record>, b: seq<Record>, c: seq<Record>,
                 r: seq<Record>, pulled: nat)
    requires InLine(before, Join(f, w, m, b, c, r), pulled)
    ensures InLine(before, Join(f, w, [], b, c, r), pulled)
  {
    var head, tail := f + w, b + c + r;
    assert Join(f, w, m, b, c, r) == head + m + tail && Join(f, w, [], b, c, r) == head + tail;
    LineDrops(before, head, m, tail, pulled);
  }

  lemma DropCarried(before: seq<Record>, f: seq<Record>, w: seq<Record>, m: seq<Record>, b: seq<Record>, c: seq<Record>,
                    r: seq<Record>, pulled: nat)
    requires InLine(before, Join(f, w, m, b, c, r), pulled)
    ensures InLine(before, Join(f, w, m, b, [], r), pulled)
  {
    var head := f + w + m + b;
    assert Join(f, w, m, b, c, r) == head + c + r && Join(f, w, m, b, [], r) == head + r;
    LineDrops(before, head, c, r, pulled);
  }

  /** All that is under way, from the repository's side to the source's. */
  function Line(s: State): seq<Record>
    requires |s.workers| == 1
  {
    Join(FlusherBatch(s), SavingBatch(s.workers[0]), MainBatch(s), s.buffer, Carried(s.workers[0]), Rest(s))
  }

  /** What there being one worker makes certain. */
  predicate OneInv(s: State) {
    |s.workers| == 1 && (s.workers[0].Saving? ==> s.buffer == [])
  }

  lemma OneStep(c: Config, s: State, a: Action)
    requires OneInv(s) && Enabled(c, s, a)
    ensures OneInv(Effect(c, s, a))
  {
  }

  /** A step that stores nothing and gives nothing up leaves the line as it is. */
  predicate MovesOn(step: WorkerStep) {
    step.GetTimeout? || step.StagesPass? || step.AddAcquire? || step.FlushAcquire?
  }

  lemma WorkerMoves(c: Config, s: State, step: WorkerStep)
    requires OneInv(s) && WorkerEnabled(s, 0, step) && MovesOn(step)
    ensures Line(WorkerEffect(c, s, 0, step)) == Line(s)
  {
  }

  lemma WorkerGets(c: Config, s: State)
    requires OneInv(s) && WorkerEnabled(s, 0, Get)
    ensures Line(WorkerEffect(c, s, 0, Get)) == Line(s)
  {
    var q := s.queue[0];
    var r := s.queue[1..] + InHand(s);
    assert Rest(s) == [q] + r;
    JoinGet(FlusherBatch(s), [], MainBatch(s), s.buffer, q, r);
  }

  lemma WorkerAdds(c: Config, s: State)
    requires OneInv(s) && WorkerEnabled(s, 0, Add)
    ensures Line(WorkerEffect(c, s, 0, Add)) == Line(s)
  {
    JoinAdd(FlusherBatch(s), [], MainBatch(s), s.buffer, s.workers[0].record, Rest(s));
  }

  lemma WorkerSwaps(c: Config, s: State)
    requires OneInv(s) && PhaseInv(c, s) && WorkerEnabled(s, 0, Flush)
    ensures Line(WorkerEffect(c, s, 0, Flush)) == Line(s)
  {
    JoinSwap(FlusherBatch(s), s.buffer, [], Rest(s));
  }

  lemma FlusherSwaps(c: Config, s: State)
    requires OneInv(s) && PhaseInv(c, s) && Enabled(c, s, FlusherFlush)
    ensures Line(Effect(c, s, FlusherFlush)) == Line(s)
  {
    if s.buffer != [] { JoinFlusher(s.buffer, Carried(s.workers[0]), Rest(s)); }
  }

  lemma MainSwaps(c: Config, s: State)
    requires OneInv(s) && PhaseInv(c, s) && Enabled(c, s, MainFlush)
    ensures Line(Effect(c, s, MainFlush)) == Line(s)
  {
    JoinSwap([], s.buffer, [], Rest(s));
  }

  predicate GivesUp(step: WorkerStep) {
    step.StagesFail? || step.SaveDone? || step.Cancel?
  }

  /** What the worker carried or was saving is all that leaves the line. */
  lemma WorkerLeaves(c: Config, s: State, step: WorkerStep)
    requires OneInv(s) && WorkerEnabled(s, 0, step) && GivesUp(step)
    ensures var next := WorkerEffect(c, s, 0, step);
      && SavingBatch(next.workers[0]) == Carried(next.workers[0]) == []
      && FlusherBatch(next) == FlusherBatch(s) && MainBatch(next) == MainBatch(s)
      && next.buffer == s.buffer && Rest(next) == Rest(s)
  {
  }

  lemma WorkerGivesUp(c: Config, s: State, step: WorkerStep, before: seq<Record>)
    requires OneInv(s) && WorkerEnabled(s, 0, step) && GivesUp(step) && InLine(before, Line(s), s.pulled)
    ensures InLine(before, Line(WorkerEffect(c, s, 0, step)), s.pulled)
  {
    var w, f, m := s.workers[0], FlusherBatch(s), MainBatch(s);
    DropWorker(before, f, SavingBatch(w), m, s.buffer, Carried(w), Rest(s), s.pulled);
    DropCarried(before, f, [], m, s.buffer, Carried(w), Rest(s), s.pulled);
    WorkerLeaves(c, s, step);
  }

  lemma FlusherGivesUp(c: Config, s: State, ok: bool, before: seq<Record>)
    requires OneInv(s) && Enabled(c, s, FlusherSaved(ok)) && InLine(before, Line(s), s.pulled)
    ensures InLine(before, Line(Effect(c, s, FlusherSaved(ok))), s.pulled)
  {
    var w := s.workers[0];
    DropFlusher(before, FlusherBatch(s), SavingBatch(w), MainBatch(s), s.buffer, Carried(w), Rest(s), s.pulled);
  }

  lemma MainGivesUp(c: Config, s: State, ok: bool, before: seq<Record>)
    requires OneInv(s) && Enabled(c, s, MainSaved(ok)) && InLine(before, Line(s), s.pulled)
    ensures InLine(before, Line(Effect(c, s, MainSaved(ok))), s.pulled)
  {
    var w := s.workers[0];
    DropMain(before, FlusherBatch(s), SavingBatch(w), MainBatch(s), s.buffer, Carried(w), Rest(s), s.pulled);
  }

  lemma ProducerLine(c: Config, s: State, a: Action, before: seq<Record>)
    requires OneInv(s) && Enabled(c, s, a) && OfProducer(a) && InLine(before, Line(s), s.pulled)
    ensures InLine(before, Line(Effect(c, s, a)), Effect(c, s, a).pulled)
  {
    var next := Effect(c, s, a);
    if a.Pull? {
      var w := s.workers[0];
      LineGrows(before, Line(s), s.pulled);
      assert Rest(next) == Rest(s) + [s.pulled];
      JoinGrows(FlusherBatch(s), SavingBatch(w), MainBatch(s), s.buffer, Carried(w), Rest(s), s.pulled);
    } else {
      assert Rest(next) == Rest(s);
      assert Line(next) == Line(s);
    }
  }

  lemma WorkerLine(c: Config, s: State, step: WorkerStep, before: seq<Record>)
    requires OneInv(s) && PhaseInv(c, s) && WorkerEnabled(s, 0, step) && InLine(before, Line(s), s.pulled)
    ensures OneInv(WorkerEffect(c, s, 0, step)) && InLine(before, Line(WorkerEffect(c, s, 0, step)), s.pulled)
  {
    OneStep(c, s, Work(0, step));
    if MovesOn(step) {
      WorkerMoves(c, s, step);
    } else if step.Get? {
      WorkerGets(c, s);
    } else if step.Add? {
      WorkerAdds(c, s);
    } else if step.Flush? {
      WorkerSwaps(c, s);
    } else {
      WorkerGivesUp(c, s, step, before);
    }
  }

  lemma WorkerPulls(c: Config, s: State, i: nat, step: WorkerStep)
    requires WorkerEnabled(s, i, step)
    ensures WorkerEffect(c, s, i, step).pulled == s.pulled
  {
  }

  lemma FlusherMoves(c: Config, s: State, a: Action)
    requires OneInv(s) && Enabled(c, s, a) && (a.FlusherCheck? || a.FlusherWake? || a.FlusherAcquire?)
    ensures Line(Effect(c, s, a)) == Line(s) && Effect(c, s, a).pulled == s.pulled
  {
  }

  lemma MainMoves(c: Config, s: State, a: Action)
    requires OneInv(s) && Enabled(c, s, a) && (a.MainJoin? || a.MainShutdown? || a.MainGathered? || a.MainAcquire?)
    ensures Line(Effect(c, s, a)) == Line(s) && Effect(c, s, a).pulled == s.pulled
  {
  }

  lemma FlusherLine(c: Config, s: State, a: Action, before: seq<Record>)
    requires OneInv(s) && PhaseInv(c, s) && Enabled(c, s, a) && OfFlusher(a) && InLine(before, Line(s), s.pulled)
    ensures InLine(before, Line(Effect(c, s, a)), Effect(c, s, a).pulled)
  {
    match a
    case FlusherFlush => FlusherSwaps(c, s);
    case FlusherSaved(ok) => FlusherGivesUp(c, s, ok, before);
    case _ => FlusherMoves(c, s, a);
  }

  lemma MainLine(c: Config, s: State, a: Action, before: seq<Record>)
    requires OneInv(s) && PhaseInv(c, s) && Enabled(c, s, a) && InLine(before, Line(s), s.pulled)
    requires !a.Work? && !OfProducer(a) && !OfFlusher(a)
    ensures InLine(before, Line(Effect(c, s, a)), Effect(c, s, a).pulled)
  {
    match a
    case MainFlush => MainSwaps(c, s);
    case MainSaved(ok) => MainGivesUp(c, s, ok, before);
    case _ => MainMoves(c, s, a);
  }

  /** Whatever the line is behind stays ahead of it. */
  lemma LineStep(c: Config, s: State, a: Action, before: seq<Record>)
    requires OneInv(s) && PhaseInv(c, s) && Enabled(c, s, a) && InLine(before, Line(s), s.pulled)
    ensures OneInv(Effect(c, s, a)) && InLine(before, Line(Effect(c, s, a)), Effect(c, s, a).pulled)
  {
    OneStep(c, s, a);
    if a.Work? {
      WorkerLine(c, s, a.step, before);
      WorkerPulls(c, s, a.i, a.step);
    } else if OfProducer(a) {
      ProducerLine(c, s, a, before);
    } else if OfFlusher(a) {
      FlusherLine(c, s, a, before);
    } else {
      MainLine(c, s, a, before);
    }
  }

  lemma {:induction false} ExecLine(c: Config, s: State, actions: seq<Action>)
    requires Inv(c, s) && OneInv(s) && InLine([], Line(s), s.pulled) && Exec(c, s, actions).Some?
    ensures var end := Exec(c, s, actions).value; OneInv(end) && InLine([], Line(end), end.pulled)
    decreases |actions|
  {
    if actions == [] {
    } else {
      StepInv(c, s, actions[0]);
      LineStep(c, s, actions[0], []);
      ExecLine(c, Effect(c, s, actions[0]), actions[1..]);
    }
  }

  /** With one worker, in every reachable state, the batches being saved, the buffer, the record in the
      stages, the queue and the producer's hand hold records in the order they were pulled. */
  lemma OneWorkerKeepsOrder(c: Config, s: State)
    requires c.Valid() && c.numWorkers == 1 && Reachable(c, s)
    ensures |s.workers| == 1 && Ascending(Line(s))
  {
    var actions :| Exec(c, Init(c), actions) == Some(s);
    InitInv(c);
    ExecLine(c, Init(c), actions);
    assert [] + Line(s) == Line(s);
  }

  // ---------- the repository ----------

  /** The flusher's and the worker's batch are not in `save_batch` at once when a batch is one record or there
      are no more lines than a batch holds. */
  lemma NoOverlap(c: Config, s: State)
    requires c.Valid() && c.numWorkers == 1 && (c.batchSize == 1 || c.lines <= c.batchSize) && Attainable(c, s)
    ensures |s.workers| == 1 && !(s.flusher.FlusherSaving? && s.workers[0].Saving?)
  {
    AttainableInv(c, s);
    BatchesExact(c, s);
    var size := (rs: seq<Record>) => |rs|;
    assert Additive(size);
    assert size(Prefix(s.pulled)) == s.pulled;
    OneHeld(s.workers, size);
  }

  lemma OneHeld(ws: seq<Worker>, f: seq<Record> -> int)
    requires |ws| == 1
    ensures Held(ws, f) == f(Carried(ws[0])) + f(SavingBatch(ws[0]))
  {
    assert ws[..0] == [];
  }

  lemma JoinStores(saved: seq<Record>, x: seq<Record>, m: seq<Record>, b: seq<Record>, c: seq<Record>, r: seq<Record>)
    ensures (saved + x) + Join([], [], m, b, c, r) == saved + Join(x, [], m, b, c, r) == saved + Join([], x, m, b, c, r)
  {
  }

  lemma StoresHead(c: Config, s: State, a: Action)
    requires OneInv(s) && PhaseInv(c, s) && Enabled(c, s, a)
    requires a == FlusherSaved(true) || a == Work(0, SaveDone(true)) || a == MainSaved(true)
    requires !(s.flusher.FlusherSaving? && s.workers[0].Saving?)
    ensures var next := Effect(c, s, a); next.saved + Line(next) == s.saved + Line(s) && next.pulled == s.pulled
  {
    var w := s.workers[0];
    if a.FlusherSaved? {
      JoinStores(s.saved, s.flusher.batch, MainBatch(s), s.buffer, Carried(w), Rest(s));
    } else if a.Work? {
      JoinStores(s.saved, w.batch, MainBatch(s), s.buffer, [], Rest(s));
    } else {
      JoinStores(s.saved, s.main.batch, [], [], [], Rest(s));
      JoinSwap([], s.main.batch, [], Rest(s));
      JoinSwap([], [], [], Rest(s));
    }
  }

  lemma StoresNothing(c: Config, s: State, a: Action)
    requires Enabled(c, s, a)
    requires !(a.FlusherSaved? && a.ok) && !(a.Work? && a.step == SaveDone(true)) && a != MainSaved(true)
    ensures Effect(c, s, a).saved == s.saved
  {
  }

  /** Saving the batch at the head of the line keeps the repository in front of it. */
  lemma SavedStep(c: Config, s: State, a: Action)
    requires OneInv(s) && PhaseInv(c, s) && Enabled(c, s, a)
    requires !(s.flusher.FlusherSaving? && s.workers[0].Saving?)
    requires InLine(s.saved, Line(s), s.pulled)
    ensures var next := Effect(c, s, a); OneInv(next) && InLine(next.saved, Line(next), next.pulled)
  {
    if a == FlusherSaved(true) || a == Work(0, SaveDone(true)) || a == MainSaved(true) {
      OneStep(c, s, a);
      StoresHead(c, s, a);
    } else {
      StoresNothing(c, s, a);
      LineStep(c, s, a, s.saved);
    }
  }

  lemma {:induction false} ExecSaved(c: Config, s: State, actions: seq<Action>)
    requires c.Valid() && c.numWorkers == 1 && (c.batchSize == 1 || c.lines <= c.batchSize) && Attainable(c, s)
    requires OneInv(s) && InLine(s.saved, Line(s), s.pulled) && ExecAtomic(c, s, actions).Some?
    ensures var end := ExecAtomic(c, s, actions).value; OneInv(end) && InLine(end.saved, Line(end), end.pulled)
    decreases |actions|
  {
    if actions == [] {
    } else {
      AttainableInv(c, s);
      NoOverlap(c, s);
      SavedStep(c, s, actions[0]);
      AttainableStep(c, s, actions[0]);
      ExecSaved(c, Effect(c, s, actions[0]), actions[1..]);
    }
  }

  lemma SavedInOrder(c: Config, s: State)
    requires c.Valid() && c.numWorkers == 1 && (c.batchSize == 1 || c.lines <= c.batchSize) && Attainable(c, s)
    ensures Ascending(s.saved)
  {
    var actions :| ExecAtomic(c, Init(c), actions) == Some(s);
    InitAttainable(c);
    ExecSaved(c, Init(c), actions);
    var all := s.saved + Line(s);
    assert forall i | 0 <= i < |s.saved| :: s.saved[i] == all[i];
  }

  lemma FewLinesInOrder(c: Config, s: State)
    requires c.Valid() && c.lines <= 1 && Reachable(c, s)
    ensures Ascending(s.saved)
  {
    ReachableInv(c, s);
    var size := (rs: seq<Record>) => |rs|;
    assert Additive(size);
    HeldNonNegative(s.workers, size);
    assert size(Prefix(s.pulled)) == s.pulled;
  }

  // ---------- when the repository is out of order ----------

  lemma OutOfOrder(rs: seq<Record>, i: nat, j: nat)
    requires i < j < |rs| && rs[i] > rs[j]
    ensures !Ascending(rs)
  {
  }

  /** The flusher takes what is buffered and starts saving it. */
  lemma FlusherTakes(c: Config, s0: State) returns (s: State)
    requires Waiting(c, s0) && s0.flusher.Sleeping? && s0.buffer != []
    ensures Waiting(c, s) && s == s0.(flusher := FlusherSaving(s0.buffer), buffer := [])
  {
    s := Take(c, s0, FlusherWake);
    s := Take(c, s, FlusherAcquire);
    s := Take(c, s, FlusherFlush);
  }

  /** One worker, more lines than a batch of at least two: the worker's full batch overtakes the flusher's. */
  lemma BatchOvertakes(c: Config) returns (s: State)
    requires c.Valid() && c.numWorkers == 1 && c.batchSize >= 2 && c.lines > c.batchSize
    ensures Attainable(c, s) && !Ascending(s.saved)
  {
    s := Started(c);
    s := BufferedOne(c, s);
    s := FlusherTakes(c, s);
    s := BufferedSome(c, s, c.batchSize - 1);
    s := StartsSaving(c, s);
    s := Overtaken(c, s);
  }

  /** The flusher's batch is in line before the worker's. */
  lemma FlusherIsFirst(s: State)
    requires |s.workers| == 1 && Ascending(Line(s)) && s.flusher.FlusherSaving? && s.workers[0].Saving?
    requires s.flusher.batch != [] && s.workers[0].batch != []
    ensures s.flusher.batch[0] < s.workers[0].batch[0]
  {
    var first, batch := s.flusher.batch, s.workers[0].batch;
    assert Line(s)[0] == first[0] && Line(s)[|first|] == batch[0];
  }

  lemma Overtaken(c: Config, s0: State) returns (s: State)
    requires c.Valid() && c.numWorkers == 1 && Attainable(c, s0) && Calm(s0) && !s0.shutdown
    requires s0.flusher.FlusherSaving? && |s0.workers| == 1 && s0.workers[0].Saving? && s0.saved == []
    ensures Attainable(c, s) && !Ascending(s.saved)
  {
    var first, batch := s0.flusher.batch, s0.workers[0].batch;
    BatchesExact(c, s0);
    AttainableReachable(c, s0);
    OneWorkerKeepsOrder(c, s0);
    FlusherIsFirst(s0);
    s := Take(c, s0, Work(0, SaveDone(true)));
    s := Take(c, s, FlusherSaved(true));
    assert s.saved == batch + first;
    OutOfOrder(s.saved, 0, |batch|);
  }

  lemma DeliveredTo(c: Config, s0: State, i: nat) returns (s: State)
    requires c.Valid() && Attainable(c, s0) && Calm(s0) && s0.producer.Streaming? && s0.pulled < c.lines
    requires s0.queue == [] && i < |s0.workers| && s0.workers[i].Idle? && !s0.shutdown
    ensures Attainable(c, s)
    ensures s == s0.(pulled := s0.pulled + 1, unfinished := s0.unfinished + 1,
                     workers := s0.workers[i := Working(s0.pulled)])
  {
    s := Take(c, s0, Pull);
    s := Take(c, s, Put);
    s := Take(c, s, Work(i, Get));
  }

  /** Worker `i` has passed its record and nothing else is stored. */
  predicate Passing(c: Config, s: State, i: nat) {
    && c.Valid() && Calm(s) && i < |s.workers| && s.workers[i].Working?
    && s.lock.Free? && !s.shutdown && s.buffer == [] && s.flusher.Sleeping?
  }

  lemma BuffersOwn(c: Config, s0: State, i: nat) returns (s: State)
    requires Attainable(c, s0) && Passing(c, s0, i)
    ensures Attainable(c, s)
    ensures s == s0.(lock := ByWorker(i), workers := s0.workers[i := AddHold(s0.workers[i].record)])
  {
    var r := s0.workers[i].record;
    s := Take(c, s0, Work(i, StagesPass));
    s := Take(c, s, Work(i, AddAcquire));
    assert s.workers == s0.workers[i := AddHold(r)];
  }

  /** With batches of one record the worker saves its own ... */
  lemma SavesOwn(c: Config, s0: State, i: nat) returns (s: State)
    requires Attainable(c, s0) && Passing(c, s0, i) && c.batchSize == 1
    ensures Attainable(c, s) && s.saved == s0.saved + [s0.workers[i].record]
    ensures s.workers == s0.workers[i := Idle] && s.lock.Free? && !s.shutdown && s.buffer == []
    ensures s.flusher == s0.flusher && s.main == s0.main
  {
    s := BuffersOwn(c, s0, i);
    s := Take(c, s, Work(i, Add));
    s := Take(c, s, Work(i, FlushAcquire));
    s := Take(c, s, Work(i, Flush));
    s := Take(c, s, Work(i, SaveDone(true)));
    assert s.workers == s0.workers[i := Idle];
  }

  /** ... and otherwise the flusher does. */
  lemma FlusherSavesIt(c: Config, s0: State, i: nat) returns (s: State)
    requires Attainable(c, s0) && Passing(c, s0, i) && c.batchSize >= 2
    ensures Attainable(c, s) && s.saved == s0.saved + [s0.workers[i].record]
    ensures s.workers == s0.workers[i := Idle] && s.lock.Free? && !s.shutdown && s.buffer == []
    ensures s.flusher == s0.flusher && s.main == s0.main
  {
    s := LeavesBuffered(c, s0, i);
    s := FlusherSavesAll(c, s);
  }

  lemma LeavesBuffered(c: Config, s0: State, i: nat) returns (s: State)
    requires Attainable(c, s0) && Passing(c, s0, i) && c.batchSize >= 2
    ensures Attainable(c, s) && s.saved == s0.saved && s.buffer == [s0.workers[i].record]
    ensures s.workers == s0.workers[i := Idle] && s.lock.Free? && !s.shutdown
    ensures s.flusher == s0.flusher && s.main == s0.main
  {
    s := BuffersOwn(c, s0, i);
    s := Take(c, s, Work(i, Add));
    assert s.workers == s0.workers[i := Idle];
  }

  lemma FlusherSavesAll(c: Config, s0: State) returns (s: State)
    requires c.Valid() && Attainable(c, s0) && Calm(s0) && s0.flusher.Sleeping? && s0.lock.Free? && !s0.shutdown
    requires s0.buffer != []
    ensures Attainable(c, s) && s.saved == s0.saved + s0.buffer && s.buffer == []
    ensures s.workers == s0.workers && s.lock.Free? && !s.shutdown && s.flusher == s0.flusher && s.main == s0.main
  {
    s := Take(c, s0, FlusherWake);
    s := Take(c, s, FlusherAcquire);
    s := Take(c, s, FlusherFlush);
    s := Take(c, s, FlusherSaved(true));
    s := Take(c, s, FlusherCheck);
  }

  lemma IsSaved(c: Config, s0: State, i: nat) returns (s: State)
    requires Attainable(c, s0) && Passing(c, s0, i)
    ensures Attainable(c, s) && s.saved == s0.saved + [s0.workers[i].record]
    ensures s.workers == s0.workers[i := Idle] && s.lock.Free? && !s.shutdown && s.buffer == []
    ensures s.flusher == s0.flusher && s.main == s0.main
  {
    if c.batchSize == 1 { s := SavesOwn(c, s0, i); } else { s := FlusherSavesIt(c, s0, i); }
  }

  /** Two workers: the one with the later record is done first. */
  lemma WorkersOvertake(c: Config) returns (s: State)
    requires c.Valid() && c.numWorkers >= 2 && c.lines >= 2
    ensures Attainable(c, s) && !Ascending(s.saved)
  {
    s := Started(c);
    s := DeliveredTo(c, s, 0);
    s := DeliveredTo(c, s, 1);
    assert s.workers[0] == Working(0) && s.workers[1] == Working(1);
    s := IsSaved(c, s, 1);
    assert s.workers[0] == Working(0);
    s := IsSaved(c, s, 0);
    OutOfOrder(s.saved, 0, 1);
  }

  /** The repository holds its records in the order of their lines in every run, if and only if there is at
      most one line, or one worker and no more lines than a batch or batches of one record. */
  lemma SavedInOrderIff(c: Config)
    requires c.Valid()
    ensures (forall s | Attainable(c, s) :: Ascending(s.saved))
       <==> c.lines <= 1 || (c.numWorkers == 1 && (c.batchSize == 1 || c.lines <= c.batchSize))
  {
    if c.lines <= 1 {
      forall s | Attainable(c, s) ensures Ascending(s.saved) {
        AttainableReachable(c, s);
        FewLinesInOrder(c, s);
      }
    } else if c.numWorkers >= 2 {
      var s := WorkersOvertake(c);
      assert !Ascending(s.saved);
    } else if c.batchSize == 1 || c.lines <= c.batchSize {
      forall s | Attainable(c, s) ensures Ascending(s.saved) { SavedInOrder(c, s); }
    } else {
      var s := BatchOvertakes(c);
      assert !Ascending(s.saved);
    }
  }
}
