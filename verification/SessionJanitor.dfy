/** What a janitor pass decides and what is published, in terms of the calls and their records alone. */
module SessionJanitor {
  import opened Wrappers
  import opened SessionModel
  import opened SessionTheorems
  import opened SessionBounds
  import opened SessionTraces

  // ---------- the latest timestamp ----------

  predicate IsGreatest(latest: Option<real>, rs: seq<Record>) {
    && (latest.Some? ==> exists r :: r in rs && r.ts == latest)
    && forall r | r in rs && r.ts.Some? :: latest.Some? && r.ts.value <= latest.value
  }

  /** The stage's latest timestamp is the greatest that any record taken in has; None when none is dated. */
  lemma {:induction false} LatestIsGreatest(cfg: Settings, calls: seq<Call>)
    ensures IsGreatest(Run(cfg, calls).latest, Inputs(calls))
  {
    if calls == [] {
    } else {
      var n := |calls| - 1;
      LatestIsGreatest(cfg, calls[..n]);
      GreatestStep(cfg, Run(cfg, calls[..n]), calls[n], Inputs(calls[..n]));
    }
  }

  lemma GreatestStep(cfg: Settings, s: State, call: Call, inputs: seq<Record>)
    requires IsGreatest(s.latest, inputs)
    ensures IsGreatest(Step(cfg, s, call).latest, inputs + Input(call))
  {
    var next := Step(cfg, s, call).latest;
    if Input(call) != [] {
      var now := inputs + Input(call);
      assert Input(call) == [call.record] && next == Later(s.latest, call.record.ts);
      assert call.record in now;
      forall r | r in now ensures r in inputs || r == call.record {}
      if next.Some? && next == s.latest {
        var r :| r in inputs && r.ts == s.latest;
        assert r in now;
      }
    } else {
      assert next == s.latest && inputs + [] == inputs;
    }
  }

  // ---------- how a trace starts ----------

  /** Some call processed `r` and started a trace with it: at its time, or at two clock readings without one. */
  ghost predicate StartsAt(calls: seq<Call>, r: Record, first0: real, last0: real) {
    exists now1: real, now2: real :: ProcessCall(r, now1, now2) in calls &&
      if r.ts.Some? then first0 == last0 == r.ts.value else first0 == now1 && last0 == now2
  }

  ghost predicate StartedBy(calls: seq<Call>, c: Chunk) {
    c.records != [] && StartsAt(calls, c.records[0], c.first0, c.last0)
  }

  ghost predicate AllStarted(calls: seq<Call>, s: State) {
    && (forall c | c in s.open :: StartedBy(calls, c))
    && (forall e | e in s.emitted :: StartedBy(calls, e.chunk))
  }

  lemma StartedLater(calls: seq<Call>, call: Call, c: Chunk)
    requires StartedBy(calls, c)
    ensures StartedBy(calls + [call], c)
  {
    var r := c.records[0];
    var now1, now2 :| ProcessCall(r, now1, now2) in calls &&
      if r.ts.Some? then c.first0 == c.last0 == r.ts.value else c.first0 == now1 && c.last0 == now2;
    assert ProcessCall(r, now1, now2) in calls + [call];
  }

  lemma TouchedStarted(calls: seq<Call>, open: seq<Chunk>, r: Record, now1: real, now2: real)
    requires HasBlock(r) && forall c | c in open :: StartedBy(calls, c)
    ensures StartedBy(calls + [ProcessCall(r, now1, now2)], Touched(open, r.block.value, r, now1, now2))
  {
    var call := ProcessCall(r, now1, now2);
    var i := Find(open, r.block.value);
    var c := Touched(open, r.block.value, r, now1, now2);
    if i < |open| {
      StartedLater(calls, call, open[i]);
      assert c.records[0] == open[i].records[0];
    } else {
      assert c.records == [r] && call in calls + [call];
    }
  }

  lemma SettleStarted(cfg: Settings, calls: seq<Call>, rest: seq<Chunk>, c: Chunk, latest: Option<real>,
                      emitted: seq<Closed>)
    requires StartedBy(calls, c) && forall o | o in rest :: StartedBy(calls, o)
    requires forall e | e in emitted :: StartedBy(calls, e.chunk)
    ensures AllStarted(calls, Settle(cfg, rest, c, latest, emitted))
  {
    var all := rest + [c];
    assert all[0] == c || all[0] in rest;
  }

  lemma StepStarted(cfg: Settings, calls: seq<Call>, s: State, call: Call)
    requires AllStarted(calls, s)
    ensures AllStarted(calls + [call], Step(cfg, s, call))
  {
    var now, next := calls + [call], Step(cfg, s, call);
    forall c | c in s.open ensures StartedBy(now, c) { StartedLater(calls, call, c); }
    forall e | e in s.emitted ensures StartedBy(now, e.chunk) { StartedLater(calls, call, e.chunk); }
    match call
    case ProcessCall(r, now1, now2) =>
      if HasBlock(r) {
        var b := r.block.value;
        TouchedStarted(calls, s.open, r, now1, now2);
        SettleStarted(cfg, now, Without(s.open, b), Touched(s.open, b, r, now1, now2), Later(s.latest, r.ts), s.emitted);
      }
    case JanitorCall(k) =>
      if s.latest.Some? { SweepMembers(cfg, s.latest.value, s.open, k); }
    case StopCall =>
  }

  lemma {:induction false} EveryTraceStarted(cfg: Settings, calls: seq<Call>)
    ensures AllStarted(calls, Run(cfg, calls))
  {
    if calls == [] {
    } else {
      var n := |calls| - 1;
      EveryTraceStarted(cfg, calls[..n]);
      StepStarted(cfg, calls[..n], Run(cfg, calls[..n]), calls[n]);
      assert calls == calls[..n] + [calls[n]];
    }
  }

  // ---------- a full pass ----------

  predicate HasTerminal(cfg: Settings, c: Chunk) {
    exists r :: r in c.records && r.event.Some? && r.event.value in cfg.terminal
  }

  /** Started, or has a record dated, at `cutoff` or later. */
  predicate Recent(c: Chunk, cutoff: real) {
    c.last0 >= cutoff || exists r :: r in c.records && r.ts.Some? && r.ts.value >= cutoff
  }

  /** Kept in `open` or closed in `closed`, and why. */
  predicate Decided(cfg: Settings, c: Chunk, cutoff: real, open: seq<Chunk>, closed: seq<Closed>) {
    var terminal, recent := HasTerminal(cfg, c), Recent(c, cutoff);
    && (c in open <==> !terminal && recent)
    && (Closed(c, Terminal) in closed <==> terminal)
    && (Closed(c, Timeout) in closed <==> !terminal && !recent)
  }

  /** What was published after `sent`. */
  function Since(sent: seq<Closed>, emitted: seq<Closed>): seq<Closed> {
    if |sent| <= |emitted| then emitted[|sent|..] else []
  }

  lemma LastTsReaches(c: Chunk, cutoff: real)
    ensures LastTs(c.last0, c.records) >= cutoff <==> Recent(c, cutoff)
  {
    FoldBounds(c.last0, c.records);
  }

  /** A full pass after any calls: an open trace stays open if and only if it has no terminal event and was
      started, or has a record dated, no earlier than the idle window before the greatest timestamp taken in.
      One that does not stay is published, as terminal exactly when it has a terminal event. Before the first
      dated record nothing happens. */
  lemma JanitorDecides(cfg: Settings, calls: seq<Call>, k: nat, latest: Option<real>, c: Chunk)
    requires k >= |Run(cfg, calls).open| && c in Run(cfg, calls).open && IsGreatest(latest, Inputs(calls))
    ensures var s, next := Run(cfg, calls), Run(cfg, calls + [JanitorCall(k)]);
      if latest.None? then next == s
      else
        && s.emitted <= next.emitted
        && Decided(cfg, c, latest.value - cfg.idleWindow, next.open, Since(s.emitted, next.emitted))
  {
    var s := Run(cfg, calls);
    RunAppend(cfg, calls, JanitorCall(k));
    LatestIsGreatest(cfg, calls);
    GreatestIsOne(latest, s.latest, Inputs(calls));
    if latest.Some? {
      PassDecides(cfg, latest.value, s.open, k, c);
      SinceAppended(s.emitted, ToClose(cfg, latest.value, s.open, k));
    }
  }

  lemma PassDecides(cfg: Settings, latest: real, open: seq<Chunk>, k: nat, c: Chunk)
    requires k >= |open| && c in open
    ensures Decided(cfg, c, latest - cfg.idleWindow, ToKeep(cfg, latest, open, k), ToClose(cfg, latest, open, k))
  {
    LastTsReaches(c, latest - cfg.idleWindow);
    PassInOrder(cfg, latest, open, k);
    NotDueIff(cfg, latest, open, c);
    DueIff(cfg, latest, open, c, Terminal);
    DueIff(cfg, latest, open, c, Timeout);
    assert HasTerminal(cfg, c) <==> TerminalSeen(cfg.terminal, c.records);
  }

  lemma SinceAppended(sent: seq<Closed>, more: seq<Closed>)
    ensures sent <= sent + more && Since(sent, sent + more) == more
  {
  }

  lemma GreatestIsOne(a: Option<real>, b: Option<real>, rs: seq<Record>)
    requires IsGreatest(a, rs) && IsGreatest(b, rs)
    ensures a == b
  {
  }

  /** Over dated records: it stays if and only if none of its records has a terminal event and one is dated
      within the idle window. */
  lemma JanitorKeepsRecent(cfg: Settings, calls: seq<Call>, k: nat, latest: real, c: Chunk)
    requires cfg.Valid() && k >= |Run(cfg, calls).open| && c in Run(cfg, calls).open
    requires AllDated(Inputs(calls)) && IsGreatest(Some(latest), Inputs(calls))
    ensures var s, next := Run(cfg, calls), Run(cfg, calls + [JanitorCall(k)]);
      var terminal := exists r :: r in c.records && r.event.Some? && r.event.value in cfg.terminal;
      var recent := exists r :: r in c.records && r.ts.Some? && r.ts.value >= latest - cfg.idleWindow;
      && s.emitted <= next.emitted
      && (c in next.open <==> !terminal && recent)
      && (Closed(c, Terminal) in Since(s.emitted, next.emitted) <==> terminal)
      && (Closed(c, Timeout) in Since(s.emitted, next.emitted) <==> !terminal && !recent)
  {
    JanitorDecides(cfg, calls, k, Some(latest), c);
    Bounded(cfg, calls);
    assert OpenOk(cfg, Run(cfg, calls).latest, c);
    RecordsArrived(cfg, calls, c);
    assert c.records[0] in c.records;
    assert HasTerminal(cfg, c) <==> exists r :: r in c.records && r.event.Some? && r.event.value in cfg.terminal;
  }

  /** A pass cut short after `k` traces has published the first `k` of what a full one publishes. */
  lemma {:induction false} PartialPass(cfg: Settings, latest: real, open: seq<Chunk>, k: nat)
    ensures var all := ToClose(cfg, latest, open, |open|);
      ToClose(cfg, latest, open, k) == if k < |all| then all[..k] else all
  {
    if open == [] {
    } else {
      var v := Verdict(cfg, latest, open[0]);
      FewerThan(cfg, latest, open[1..], |open|);
      if v.Some? && k > 0 {
        PartialPass(cfg, latest, open[1..], k - 1);
      } else {
        PartialPass(cfg, latest, open[1..], k);
      }
    }
  }

  lemma FewerThan(cfg: Settings, latest: real, open: seq<Chunk>, k: nat)
    requires k >= |open|
    ensures ToClose(cfg, latest, open, k) == ToClose(cfg, latest, open, |open|)
  {
    PassInOrder(cfg, latest, open, k);
    PassInOrder(cfg, latest, open, |open|);
  }

  // ---------- order ----------

  lemma HeadKeepsRecency(c: Chunk, cs: seq<Chunk>, inputs: seq<Record>)
    requires ByRecency(cs, inputs)
    requires forall o | o in cs :: LastTouch(inputs, c.blockId) < LastTouch(inputs, o.blockId)
    ensures ByRecency([c] + cs, inputs)
  {
  }

  lemma {:induction false} SweepClosesInOrder(cfg: Settings, latest: real, open: seq<Chunk>, k: nat, inputs: seq<Record>)
    requires ByRecency(open, inputs)
    ensures ByRecency(Chunks(ToClose(cfg, latest, open, k)), inputs)
  {
    if open == [] || k == 0 {
    } else {
      var rest := open[1..];
      var v := Verdict(cfg, latest, open[0]);
      SweepClosesInOrder(cfg, latest, rest, if v.Some? then k - 1 else k, inputs);
      if v.Some? {
        var closed := ToClose(cfg, latest, rest, k - 1);
        ClosedLater(cfg, latest, open, k - 1, inputs);
        ChunksHead(Closed(open[0], v.value), closed);
        HeadKeepsRecency(open[0], Chunks(closed), inputs);
      }
    }
  }

  lemma ClosedLater(cfg: Settings, latest: real, open: seq<Chunk>, k: nat, inputs: seq<Record>)
    requires open != [] && ByRecency(open, inputs)
    ensures forall o | o in Chunks(ToClose(cfg, latest, open[1..], k)) ::
              LastTouch(inputs, open[0].blockId) < LastTouch(inputs, o.blockId)
  {
    var rest := open[1..];
    var closed := ToClose(cfg, latest, rest, k);
    SweepMembers(cfg, latest, rest, k);
    ChunksAt(closed);
    forall o | o in Chunks(closed) ensures LastTouch(inputs, open[0].blockId) < LastTouch(inputs, o.blockId) {
      var i :| 0 <= i < |closed| && closed[i].chunk == o;
      assert closed[i] in closed && o in rest;
      var j :| 0 <= j < |rest| && rest[j] == o;
      assert open[j + 1] == o;
    }
  }

  lemma ProcessPublishesOne(cfg: Settings, s: State, r: Record, now1: real, now2: real, inputs: seq<Record>)
    ensures ByRecency(Chunks(Since(s.emitted, Process(cfg, s, r, now1, now2).emitted)), inputs)
  {
    ChunksAt(Since(s.emitted, Process(cfg, s, r, now1, now2).emitted));
  }

  lemma JanitorPublishesInOrder(cfg: Settings, s: State, k: nat, inputs: seq<Record>)
    requires ByRecency(s.open, inputs)
    ensures ByRecency(Chunks(Since(s.emitted, Janitor(cfg, s, k).emitted)), inputs)
  {
    if s.latest.Some? {
      SweepClosesInOrder(cfg, s.latest.value, s.open, k, inputs);
      SinceAppended(s.emitted, ToClose(cfg, s.latest.value, s.open, k));
    }
  }

  lemma StopPublishesInOrder(s: State, inputs: seq<Record>)
    requires ByRecency(s.open, inputs)
    ensures ByRecency(Chunks(Since(s.emitted, Stop(s).emitted)), inputs)
  {
    ChunksOfAll(s.open, Shutdown);
    SinceAppended(s.emitted, CloseAll(s.open, Shutdown));
  }

  /** What one call publishes comes in the order in which the blocks last received a record. */
  lemma PublishedInOrder(cfg: Settings, calls: seq<Call>, call: Call)
    ensures var s := Run(cfg, calls);
      ByRecency(Chunks(Since(s.emitted, Step(cfg, s, call).emitted)), Inputs(calls))
  {
    OrderedByRecency(cfg, calls);
    match call
    case ProcessCall(r, now1, now2) => ProcessPublishesOne(cfg, Run(cfg, calls), r, now1, now2, Inputs(calls));
    case JanitorCall(k) => JanitorPublishesInOrder(cfg, Run(cfg, calls), k, Inputs(calls));
    case StopCall => StopPublishesInOrder(Run(cfg, calls), Inputs(calls));
  }

  // ---------- reasons ----------

  /** Why a call publishes a trace. */
  predicate ReasonFits(call: Call, reason: Reason) {
    match call
    case ProcessCall(_, _, _) => reason == Evicted
    case JanitorCall(_) => reason == Terminal || reason == Timeout
    case StopCall => reason == Shutdown
  }

  /** `process` publishes only as evicted, the janitor as terminal or timeout, `stop` as shutdown. */
  lemma ReasonsByCall(cfg: Settings, s: State, call: Call)
    ensures var next := Step(cfg, s, call);
      && s.emitted <= next.emitted
      && forall e | e in Since(s.emitted, next.emitted) :: ReasonFits(call, Seal(e).closedReason)
  {
    match call
    case ProcessCall(r, now1, now2) =>
    case JanitorCall(k) =>
      if s.latest.Some? { SweepMembersReason(cfg, s.latest.value, s.open, k); }
    case StopCall =>
  }

  lemma SweepMembersReason(cfg: Settings, latest: real, open: seq<Chunk>, k: nat)
    ensures forall e | e in ToClose(cfg, latest, open, k) :: e.reason == Terminal || e.reason == Timeout
  {
    SweepMembers(cfg, latest, open, k);
  }

  // ---------- a published trace ----------

  /** Every published trace is a consecutive piece of what arrived for its own block, and counts its ids. */
  lemma PublishedTrace(cfg: Settings, calls: seq<Call>, i: nat) returns (before: seq<Record>, after: seq<Record>)
    requires cfg.Valid() && i < |Run(cfg, calls).emitted|
    ensures var t := Seal(Run(cfg, calls).emitted[i]); var stream := Stream(Inputs(calls), t.blockId);
      && Ids(stream) == Ids(before) + t.recordIds + Ids(after)
      && Events(stream) == Events(before) + t.eventSequence + Events(after)
      && t.recordCount == |t.recordIds| > 0
  {
    before, after := TraceIsFragment(cfg, calls, i);
    var e := Run(cfg, calls).emitted[i];
    Bounded(cfg, calls);
    assert ClosedOk(cfg, e.chunk);
    IdsAppend(before + e.chunk.records, after);
    IdsAppend(before, e.chunk.records);
    EventsAppend(before + e.chunk.records, after);
    EventsAppend(before, e.chunk.records);
  }

  // ---------- what arrives ----------

  /** An event is in the sequence exactly when it is not empty and some record has it. */
  lemma {:induction false} EventsIff(rs: seq<Record>, e: string)
    ensures e in Events(rs) <==> e != "" && exists r :: r in rs && r.event == Some(e)
  {
    if rs == [] {
    } else {
      var n := |rs| - 1;
      EventsIff(rs[..n], e);
      assert rs == rs[..n] + [rs[n]];
    }
  }

  function Given(call: Call): seq<Record> {
    if call.ProcessCall? then [call.record] else []
  }

  /** All records that `process` was called with. */
  function Processed(calls: seq<Call>): seq<Record> {
    if calls == [] then [] else Processed(calls[..|calls| - 1]) + Given(calls[|calls| - 1])
  }

  /** No record of a block is passed over: its arrivals are all records processed with that block id. */
  lemma {:induction false} ArrivalsAreProcessed(calls: seq<Call>, b: string)
    requires b != ""
    ensures Stream(Inputs(calls), b) == Stream(Processed(calls), b)
  {
    if calls == [] {
    } else {
      var n := |calls| - 1;
      ArrivalsAreProcessed(calls[..n], b);
      StreamAppend(Inputs(calls[..n]), Input(calls[n]), b);
      StreamAppend(Processed(calls[..n]), Given(calls[n]), b);
      ArrivesIf(calls[n], b);
    }
  }

  lemma ArrivesIf(call: Call, b: string)
    requires b != ""
    ensures Stream(Input(call), b) == Stream(Given(call), b)
  {
    if call.ProcessCall? && !HasBlock(call.record) {
      assert [call.record][..0] == [];
    }
  }
}
