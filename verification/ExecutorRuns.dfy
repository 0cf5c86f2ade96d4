/** When the counters account for every line, and when `processed` is what was saved: the exact conditions on
    the configuration, over the runs of `ExecutorAtomic`. */
module ExecutorRuns {
  import opened Wrappers
  import opened ExecutorModel
  import opened ExecutorSafety
  import opened ExecutorProgress
  import opened ExecutorAtomic

  // ---------- building runs ----------

  /** No task is at the lock. */
  predicate Calm(s: State) {
    && (forall i | 0 <= i < |s.workers| :: Adding(s.workers[i]) == AwaitsFlush(s.workers[i]) == 0)
    && !s.flusher.FlusherWait? && !s.flusher.FlusherHold? && !s.main.MainWait? && !s.main.MainHold?
  }

  lemma CalmIsRest(s: State)
    requires Calm(s)
    ensures LockCode(s) == 0
  {
    TotalIsConstant(s.workers, Adding, 0);
    TotalIsConstant(s.workers, AwaitsFlush, 0);
  }

  lemma Take(c: Config, s: State, a: Action) returns (next: State)
    requires Attainable(c, s) && Enabled(c, s, a) && (Calm(s) || LockAction(a))
    ensures next == Effect(c, s, a) && Attainable(c, next)
  {
    if Calm(s) { CalmIsRest(s); }
    AttainableStep(c, s, a);
    next := Effect(c, s, a);
  }

  /** Everything read so far is settled, buffered or with the flusher, and all other tasks wait. */
  ghost predicate Waiting(c: Config, s: State) {
    && c.Valid() && Attainable(c, s) && s.producer.Streaming? && s.pulled <= c.lines && s.queue == []
    && |s.workers| == c.numWorkers && (forall i | 0 <= i < |s.workers| :: s.workers[i].Idle?)
    && s.lock.Free? && !s.shutdown && s.main.AwaitProducer?
    && (s.flusher.Sleeping? || s.flusher.FlusherSaving?)
  }

  lemma Started(c: Config) returns (s: State)
    requires c.Valid()
    ensures Waiting(c, s) && s.pulled == 0 && s.buffer == [] && s.flusher.Sleeping? && s.saved == []
  {
    InitAttainable(c);
    s := Take(c, Init(c), FlusherCheck);
  }

  /** The next line is in the hands of the first worker. */
  lemma Delivered(c: Config, s0: State) returns (s: State)
    requires Waiting(c, s0) && s0.pulled < c.lines
    ensures Attainable(c, s)
    ensures s == s0.(pulled := s0.pulled + 1, unfinished := s0.unfinished + 1,
                     workers := s0.workers[0 := Working(s0.pulled)])
  {
    s := Take(c, s0, Pull);
    s := Take(c, s, Put);
    s := Take(c, s, Work(0, Get));
  }

  /** A stage refuses the next line. */
  lemma Refused(c: Config, s0: State) returns (s: State)
    requires Waiting(c, s0) && s0.pulled < c.lines
    ensures Waiting(c, s) && s.pulled == s0.pulled + 1 && s.buffer == s0.buffer
  {
    s := Delivered(c, s0);
    s := Take(c, s, Work(0, StagesFail));
  }

  lemma {:induction false} AllRefused(c: Config, k: nat) returns (s: State)
    requires c.Valid() && k <= c.lines
    ensures Waiting(c, s) && s.pulled == k && s.buffer == []
  {
    if k == 0 {
      s := Started(c);
    } else {
      s := AllRefused(c, k - 1);
      s := Refused(c, s);
    }
  }

  /** The next line is about to be buffered. */
  lemma Buffering(c: Config, s0: State) returns (s: State)
    requires Waiting(c, s0) && s0.pulled < c.lines
    ensures Attainable(c, s)
    ensures s == s0.(pulled := s0.pulled + 1, unfinished := s0.unfinished + 1, lock := ByWorker(0),
                     workers := s0.workers[0 := AddHold(s0.pulled)])
  {
    s := Delivered(c, s0);
    s := Take(c, s, Work(0, StagesPass));
    s := Take(c, s, Work(0, AddAcquire));
    assert s.workers == s0.workers[0 := AddHold(s0.pulled)];
  }

  /** The next line is buffered and the batch is not full yet. */
  lemma BufferedOne(c: Config, s0: State) returns (s: State)
    requires Waiting(c, s0) && s0.pulled < c.lines && |s0.buffer| + 1 < c.batchSize
    ensures Waiting(c, s) && s.pulled == s0.pulled + 1 && |s.buffer| == |s0.buffer| + 1
    ensures s.flusher == s0.flusher && s.saved == s0.saved
  {
    s := Buffering(c, s0);
    s := Take(c, s, Work(0, Add));
  }

  lemma {:induction false} BufferedSome(c: Config, s0: State, m: nat) returns (s: State)
    requires Waiting(c, s0) && s0.buffer == [] && s0.pulled + m <= c.lines && m < c.batchSize
    ensures Waiting(c, s) && s.pulled == s0.pulled + m && |s.buffer| == m
    ensures s.flusher == s0.flusher && s.saved == s0.saved
  {
    if m == 0 {
      s := s0;
    } else {
      s := BufferedSome(c, s0, m - 1);
      s := BufferedOne(c, s);
    }
  }

  /** The next line fills the batch and the first worker is saving it. */
  lemma StartsSaving(c: Config, s0: State) returns (s: State)
    requires Waiting(c, s0) && s0.pulled < c.lines && |s0.buffer| + 1 == c.batchSize
    ensures Attainable(c, s) && |s.workers| == c.numWorkers && s.workers[0].Saving?
    ensures (forall i | 0 < i < |s.workers| :: s.workers[i].Idle?) && s.pulled == s0.pulled + 1
    ensures s.producer == s0.producer && s.flusher == s0.flusher && s.main == s0.main && s.shutdown == s0.shutdown
    ensures s.saved == s0.saved && s.lock.Free?
  {
    s := Buffering(c, s0);
    s := Take(c, s, Work(0, Add));
    s := Take(c, s, Work(0, FlushAcquire));
    s := Take(c, s, Work(0, Flush));
  }

  /** The source has no more lines and raises. */
  lemma SourceRaises(c: Config, s0: State) returns (s: State)
    requires c.raises && Attainable(c, s0) && Calm(s0) && s0.producer.Streaming? && s0.pulled == c.lines
    requires s0.main.AwaitProducer?
    ensures Attainable(c, s) && s == s0.(producer := Raised, main := Gathering, shutdown := true, owed := s0.unfinished)
  {
    s := Take(c, s0, SourceRaise);
    s := Take(c, s, MainShutdown);
  }

  /** ... and the run goes on to its end. */
  lemma Finishes(c: Config, s0: State) returns (actions: seq<Action>, end: State)
    requires c.Valid() && Attainable(c, s0)
    ensures ExecAtomic(c, s0, actions) == Some(end) && Attainable(c, end) && end.main.Finished?
  {
    AttainableInv(c, s0);
    actions, end := CompletesRun(c, s0);
    AttainableExec(c, s0, actions);
  }

  // ---------- is every line counted? ----------

  /** What shutdown finds unfinished stays the run's debt, and a cancelled worker stays as it was. */
  lemma AfterShutdownStep(c: Config, s: State, a: Action)
    requires PhaseInv(c, s) && s.shutdown && Enabled(c, s, a)
    ensures var next := Effect(c, s, a);
      && next.shutdown && next.owed == s.owed && |next.workers| == |s.workers|
      && forall i | 0 <= i < |s.workers| && s.workers[i].Exited? :: next.workers[i] == s.workers[i]
  {
  }

  lemma {:induction false} AfterShutdown(c: Config, s: State, actions: seq<Action>)
    requires Inv(c, s) && s.shutdown && ExecAtomic(c, s, actions).Some?
    ensures var end := ExecAtomic(c, s, actions).value;
      && end.owed == s.owed && |end.workers| == |s.workers|
      && forall i | 0 <= i < |s.workers| && s.workers[i].Exited? :: end.workers[i] == s.workers[i]
    decreases |actions|
  {
    if actions == [] {
    } else {
      StepInv(c, s, actions[0]);
      AfterShutdownStep(c, s, actions[0]);
      AfterShutdown(c, Effect(c, s, actions[0]), actions[1..]);
    }
  }

  /** docs/concurrency-model.md says that when the source raises, the consumers drain the queue and then
      exit.  `run` cancels them at once: every source that raises after at least one line has a run in which
      the last line is still in a stage then, and is counted nowhere. */
  lemma RaisingSourceLosesRecords(c: Config) returns (s: State)
    requires c.Valid() && c.raises && c.lines >= 1
    ensures Attainable(c, s) && s.main.Finished? && s.processed + s.failed < c.lines
  {
    s := AllRefused(c, c.lines - 1);
    AttainableInv(c, s);
    assert s.unfinished == 0 by { TotalIsConstant(s.workers, Busy, 0); }
    s := Delivered(c, s);
    s := SourceRaises(c, s);
    AttainableInv(c, s);
    var actions, end := Finishes(c, s);
    AfterShutdown(c, s, actions);
    AttainableReachable(c, end);
    Shortfall(c, end);
    s := end;
  }

  /** Without lines nothing is counted. */
  lemma NoLinesNoCount(c: Config, s: State)
    requires c.Valid() && c.lines == 0 && Attainable(c, s) && s.main.Finished?
    ensures s.processed + s.failed == 0
  {
    AttainableReachable(c, s);
    Shortfall(c, s);
    ProcessedCoversSaved(c, s);
  }

  /** Every run that ends has counted every line, if and only if the source ends normally or has none. */
  lemma CountsEveryLineIff(c: Config)
    requires c.Valid()
    ensures (forall s | Attainable(c, s) && s.main.Finished? :: s.processed + s.failed == c.lines)
       <==> !c.raises || c.lines == 0
  {
    if c.raises && c.lines > 0 {
      var s := RaisingSourceLosesRecords(c);
      assert s.processed + s.failed != c.lines;
    } else {
      forall s | Attainable(c, s) && s.main.Finished? ensures s.processed + s.failed == c.lines {
        if c.lines == 0 {
          NoLinesNoCount(c, s);
        } else {
          AttainableReachable(c, s);
          RunConserves(c, s);
        }
      }
    }
  }

  // ---------- is `processed` what was saved? ----------

  lemma {:induction false} SavesAtEnd(ws: seq<Worker>, b: int)
    requires forall i | 0 <= i < |ws| :: ws[i].Exited?
    ensures Total(ws, Saves) == Total(ws, Uncredited) && Total(ws, CutShare(b)) == b * Total(ws, Uncredited)
  {
    if ws == [] {
    } else {
      var n := |ws| - 1;
      SavesAtEnd(ws[..n], b);
      Distribute(b, Total(ws[..n], Uncredited), Uncredited(ws[n]));
    }
  }

  /** At the end `processed` exceeds what was saved by batch_size - 1, and batch_size records were cut off,
      for each worker that was cancelled while saving. */
  lemma ExcessAtEnd(c: Config, s: State)
    requires c.Valid() && Attainable(c, s) && s.main.Finished?
    ensures s.processed == |s.saved| + (c.batchSize - 1) * Total(s.workers, Uncredited)
    ensures |s.cut| == c.batchSize * Total(s.workers, Uncredited) && Total(s.workers, Uncredited) >= 0
  {
    AttainableInv(c, s);
    assert Calm(s);
    CalmIsRest(s);
    ProcessedIsAhead(c, s);
    SavesAtEnd(s.workers, c.batchSize);
    TotalNonNegative(s.workers, Uncredited);
  }

  lemma {:induction false} HeldNonNegative(ws: seq<Worker>, f: seq<Record> -> int)
    requires forall rs :: f(rs) >= 0
    ensures Held(ws, f) >= 0
  {
    if ws == [] {
    } else {
      HeldNonNegative(ws[..|ws| - 1], f);
    }
  }

  lemma CutWithinLines(c: Config, s: State)
    requires c.Valid() && Reachable(c, s)
    ensures |s.cut| <= c.lines
  {
    ReachableInv(c, s);
    var size := (rs: seq<Record>) => |rs|;
    assert Additive(size);
    HeldNonNegative(s.workers, size);
    assert size(Prefix(s.pulled)) == s.pulled;
  }

  lemma AtLeastOnce(b: int, n: int)
    requires b >= 0 && n >= 1
    ensures b * n >= b
  {
    assert b * (n - 1) >= 0;
  }

  /** The first worker is saving a full batch when the source raises. */
  lemma SavingAtEnd(c: Config) returns (s: State)
    requires c.Valid() && c.raises && c.lines >= c.batchSize
    ensures Attainable(c, s) && s.shutdown && |s.workers| > 0 && s.workers[0].Saving? && Calm(s)
  {
    s := AllRefused(c, c.lines - c.batchSize);
    s := BufferedSome(c, s, c.batchSize - 1);
    s := StartsSaving(c, s);
    s := SourceRaises(c, s);
  }

  lemma CutOffAtEnd(c: Config, s0: State) returns (s: State)
    requires c.Valid() && Attainable(c, s0) && s0.shutdown && |s0.workers| > 0 && s0.workers[0].Saving? && Calm(s0)
    ensures Attainable(c, s) && s.main.Finished? && |s.workers| > 0 && s.workers[0] == Exited(true)
  {
    s := Take(c, s0, Work(0, Cancel));
    AttainableInv(c, s);
    var actions, end := Finishes(c, s);
    AfterShutdown(c, s, actions);
    s := end;
  }

  /** A full batch is cut off while its worker saves it, and all but the worker's own record stay counted. */
  lemma ProcessedExceedsSaved(c: Config) returns (s: State)
    requires c.Valid() && c.raises && c.lines >= c.batchSize && c.batchSize >= 2
    ensures Attainable(c, s) && s.main.Finished? && s.processed > |s.saved|
  {
    s := SavingAtEnd(c);
    s := CutOffAtEnd(c, s);
    TotalAtLeast(s.workers, 0, Uncredited);
    ExcessAtEnd(c, s);
    AtLeastOnce(c.batchSize - 1, Total(s.workers, Uncredited));
  }

  lemma ProcessedIsSaved(c: Config, s: State)
    requires c.Valid() && Attainable(c, s) && s.main.Finished?
    requires !c.raises || c.lines < c.batchSize || c.batchSize == 1
    ensures s.processed == |s.saved|
  {
    AttainableReachable(c, s);
    if !c.raises {
      RunConserves(c, s);
    } else {
      ExcessAtEnd(c, s);
      CutWithinLines(c, s);
      if Total(s.workers, Uncredited) >= 1 { AtLeastOnce(c.batchSize, Total(s.workers, Uncredited)); }
    }
  }

  /** `processed` ends as the number of saved records in every run, if and only if the source ends normally,
      has fewer lines than a batch, or a batch is one record. */
  lemma ProcessedIsSavedIff(c: Config)
    requires c.Valid()
    ensures (forall s | Attainable(c, s) && s.main.Finished? :: s.processed == |s.saved|)
       <==> !c.raises || c.lines < c.batchSize || c.batchSize == 1
  {
    if !c.raises || c.lines < c.batchSize || c.batchSize == 1 {
      forall s | Attainable(c, s) && s.main.Finished? ensures s.processed == |s.saved| { ProcessedIsSaved(c, s); }
    } else {
      var s := ProcessedExceedsSaved(c);
      assert s.processed != |s.saved|;
    }
  }

  // ---------- nothing goes wrong ----------

  function Refusals(actions: seq<Action>): nat {
    if actions == [] then 0
    else (if actions[0].Work? && actions[0].step.StagesFail? then 1 else 0) + Refusals(actions[1..])
  }

  /** The action is a `save_batch` call that ends, with success or not. */
  predicate SaveEnds(a: Action, ok: bool) {
    (a.Work? && a.step == SaveDone(ok)) || a == FlusherSaved(ok) || a == MainSaved(ok)
  }

  lemma SettlesAs(c: Config, s: State, a: Action)
    requires Enabled(c, s, a)
    ensures var next := Effect(c, s, a);
      && |next.dropped| == |s.dropped| + (if a.Work? && a.step.StagesFail? then 1 else 0)
      && (!SaveEnds(a, false) ==> next.lost == s.lost) && (!SaveEnds(a, true) ==> next.saved == s.saved)
  {
  }

  /** Records are dropped as often as a stage refuses one, lost only where a save fails, and saved only where
      one succeeds. */
  lemma {:induction false} FaultsCount(c: Config, s: State, actions: seq<Action>)
    requires Exec(c, s, actions).Some?
    ensures var end := Exec(c, s, actions).value;
      && |end.dropped| == |s.dropped| + Refusals(actions)
      && ((forall a | a in actions :: !SaveEnds(a, false)) ==> end.lost == s.lost)
      && ((forall a | a in actions :: !SaveEnds(a, true)) ==> end.saved == s.saved)
    decreases |actions|
  {
    if actions == [] {
    } else {
      SettlesAs(c, s, actions[0]);
      FaultsCount(c, Effect(c, s, actions[0]), actions[1..]);
      assert actions[0] in actions && forall a :: a in actions[1..] ==> a in actions;
    }
  }

  /** A run over a normally ending source in which no save fails saves every line but the refused ones, and
      counts exactly those as failed; one in which every save fails saves none. */
  lemma CountsFaults(c: Config, actions: seq<Action>, end: State)
    requires c.Valid() && !c.raises && Exec(c, Init(c), actions) == Some(end) && end.main.Finished?
    ensures (forall a | a in actions :: !SaveEnds(a, false)) ==>
              end.failed == Refusals(actions) && |end.saved| == end.processed == c.lines - Refusals(actions)
    ensures (forall a | a in actions :: !SaveEnds(a, true)) ==>
              end.saved == [] && end.processed == 0 && end.failed == c.lines
  {
    FaultsCount(c, Init(c), actions);
    assert Reachable(c, end);
    RunConserves(c, end);
  }

  /** The lock's body leaves the buffer empty, and all it held is with whoever took it. */
  lemma FlushTakesAll(c: Config, s: State, a: Action)
    requires Enabled(c, s, a) && (a.FlusherFlush? || a.MainFlush? || (a.Work? && a.step.Flush?))
    ensures var next := Effect(c, s, a);
      && next.buffer == [] && next.lock.Free?
      && (a.FlusherFlush? ==> FlusherBatch(next) == s.buffer)
      && (a.MainFlush? ==> MainBatch(next) == s.buffer)
      && (a.Work? ==> SavingBatch(next.workers[a.i]) == s.buffer)
  {
  }

  lemma {:induction false} QueuesMany(c: Config, n: nat) returns (s: State)
    requires c.Valid() && n <= c.lines && n <= c.queueSize
    ensures Attainable(c, s) && Calm(s) && s.producer.Streaming? && s.pulled == n && |s.queue| == n
  {
    if n == 0 {
      s := Started(c);
    } else {
      s := QueuesMany(c, n - 1);
      s := Take(c, s, Pull);
      s := Take(c, s, Put);
    }
  }

  /** All of queue_size is used: with enough lines some run fills the queue. */
  lemma QueueCanFill(c: Config) returns (s: State)
    requires c.Valid() && c.lines >= c.queueSize
    ensures Attainable(c, s) && |s.queue| == c.queueSize
  {
    s := QueuesMany(c, c.queueSize);
  }
}
