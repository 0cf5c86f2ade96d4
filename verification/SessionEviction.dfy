/** LRU eviction.  The docstring of block_sessionizer.py evicts the trace with the oldest last timestamp; the
    code evicts the block that has gone longest without a record.  Here is when the two agree. */
module SessionEviction {
  import opened Wrappers
  import opened SessionModel
  import opened SessionTheorems
  import opened SessionBounds
  import opened SessionTraces
  import opened SessionCap

  lemma OneRecord(r: Record, t: real)
    requires r.ts == Some(t)
    ensures Events([r]) == Event(r) && LastTs(t, [r]) == t
  {
    assert [r][..0] == [];
  }

  lemma SettleSecond(cfg: Settings, rest: seq<Chunk>, c: Chunk, latest: Option<real>, emitted: seq<Closed>)
    requires cfg.maxOpen == 1 && |Events(c.records)| < cfg.maxPerTrace && |rest| <= 1
    ensures var next := Settle(cfg, rest, c, latest, emitted);
      next.open == [c] && next.emitted == emitted + if rest == [] then [] else [Closed(rest[0], Evicted)]
  {
    var all := rest + [c];
    if rest == [] { assert all == [c]; } else { assert all[1..] == [c] && all[0] == rest[0]; }
  }

  /** The first record of a block when at most one other trace is open and only one may be. */
  lemma FirstTouch(cfg: Settings, s: State, r: Record, id: string, t: real)
    requires cfg.maxOpen == 1 && cfg.maxPerTrace > 1 && |s.open| <= 1
    requires id != "" && r.block == Some(id) && r.ts == Some(t)
    requires s.open == [] || s.open[0].blockId != id
    ensures var next := Process(cfg, s, r, 0.0, 0.0);
      && next.open == [Chunk(id, [r], t, t)]
      && next.emitted == s.emitted + if s.open == [] then [] else [Closed(s.open[0], Evicted)]
  {
    OneRecord(r, t);
    assert Find(s.open, id) == |s.open|;
    assert [] + [r] == [r];
    SettleSecond(cfg, s.open, Chunk(id, [r], t, t), Later(s.latest, r.ts), s.emitted);
  }

  /** The docstring evicts the trace with the oldest last timestamp.  The code evicts by arrival.  Where only
      one trace may be open, the second of two blocks evicts the first, and that one is the older if and only
      if it arrived with the older timestamp. */
  lemma SecondBlockEvictsFirst(cfg: Settings, r0: Record, r1: Record)
    requires cfg.maxOpen == 1 && cfg.maxPerTrace > 1
    requires HasBlock(r0) && HasBlock(r1) && r0.block != r1.block && r0.ts.Some? && r1.ts.Some?
    ensures var s := Run(cfg, [ProcessCall(r0, 0.0, 0.0)] + [ProcessCall(r1, 0.0, 0.0)]);
      && |s.emitted| == |s.open| == 1 && s.emitted[0].reason == Evicted && s.emitted[0].chunk.records == [r0]
      && (Seal(s.emitted[0]).lastTimestamp <= LastTs(s.open[0].last0, s.open[0].records)
          <==> r0.ts.value <= r1.ts.value)
  {
    RunAppend(cfg, [], ProcessCall(r0, 0.0, 0.0));
    assert [] + [ProcessCall(r0, 0.0, 0.0)] == [ProcessCall(r0, 0.0, 0.0)];
    RunAppend(cfg, [ProcessCall(r0, 0.0, 0.0)], ProcessCall(r1, 0.0, 0.0));
    FirstTouch(cfg, Fresh, r0, r0.block.value, r0.ts.value);
    FirstTouch(cfg, Process(cfg, Fresh, r0, 0.0, 0.0), r1, r1.block.value, r1.ts.value);
    OneRecord(r0, r0.ts.value);
    OneRecord(r1, r1.ts.value);
  }

  // ---------- when arrival order and timestamps agree ----------

  /** Every record is dated, and none is older than one that arrived before it. */
  predicate InOrder(inputs: seq<Record>) {
    AllDated(inputs) && forall i, j | 0 <= i < j < |inputs| :: Dated(inputs[i]) <= Dated(inputs[j])
  }

  function Dated(r: Record): real { if r.ts.Some? then r.ts.value else 0.0 }

  /** The timestamp of the record that block `b` last received. */
  function LatestOf(inputs: seq<Record>, b: string): real {
    if 0 <= LastTouch(inputs, b) < |inputs| then Dated(inputs[LastTouch(inputs, b)]) else 0.0
  }

  lemma {:induction false} StreamLast(inputs: seq<Record>, b: string)
    requires Stream(inputs, b) != []
    ensures 0 <= LastTouch(inputs, b) < |inputs|
    ensures Stream(inputs, b)[|Stream(inputs, b)| - 1] == inputs[LastTouch(inputs, b)]
  {
    var n := |inputs| - 1;
    if inputs[n].block != Some(b) { StreamLast(inputs[..n], b); }
  }

  lemma OrderedPrefix(inputs: seq<Record>, n: nat)
    requires InOrder(inputs) && n <= |inputs|
    ensures InOrder(inputs[..n])
  {
    assert forall q :: q in inputs[..n] ==> q in inputs;
  }

  lemma {:induction false} StreamNotLater(inputs: seq<Record>, b: string, r: Record)
    requires InOrder(inputs) && r in Stream(inputs, b)
    ensures Dated(r) <= LatestOf(inputs, b)
  {
    var n := |inputs| - 1;
    if inputs[n].block == Some(b) {
      StreamSubset(inputs, b);
      var i :| 0 <= i < |inputs| && inputs[i] == r;
    } else {
      OrderedPrefix(inputs, n);
      StreamLast(inputs[..n], b);
      StreamNotLater(inputs[..n], b, r);
    }
  }

  lemma TailLatest(inputs: seq<Record>, b: string, before: seq<Record>, rs: seq<Record>)
    requires InOrder(inputs) && rs != [] && Stream(inputs, b) == before + rs
    ensures 0 <= LastTouch(inputs, b) < |inputs|
    ensures forall r | r in rs :: Dated(r) <= LatestOf(inputs, b)
    ensures exists r :: r in rs && Dated(r) == LatestOf(inputs, b)
  {
    var stream := Stream(inputs, b);
    StreamLast(inputs, b);
    assert rs[|rs| - 1] == stream[|stream| - 1] && rs[|rs| - 1] in rs;
    forall r | r in rs ensures Dated(r) <= LatestOf(inputs, b) {
      assert r in stream;
      StreamNotLater(inputs, b, r);
    }
  }

  /** Over records in order, a trace's last timestamp is that of its block's latest record. */
  lemma LastTsIsLatest(cfg: Settings, calls: seq<Call>, c: Chunk)
    requires cfg.Valid() && InOrder(Inputs(calls)) && c in Run(cfg, calls).open
    ensures 0 <= LastTouch(Inputs(calls), c.blockId) < |Inputs(calls)|
    ensures LastTs(c.last0, c.records) == LatestOf(Inputs(calls), c.blockId)
  {
    var before := OpenIsTail(cfg, calls, c);
    Bounded(cfg, calls);
    assert OpenOk(cfg, Run(cfg, calls).latest, c);
    RecordsArrived(cfg, calls, c);
    TailLatest(Inputs(calls), c.blockId, before, c.records);
    GreatestIsLastTs(c, LatestOf(Inputs(calls), c.blockId));
  }

  lemma GreatestIsLastTs(c: Chunk, t: real)
    requires ChunkOk(c) && AllDated(c.records)
    requires forall r | r in c.records :: Dated(r) <= t
    requires exists r :: r in c.records && Dated(r) == t
    ensures LastTs(c.last0, c.records) == t
  {
    TraceTimes(c, Evicted);
    var r :| r in c.records && r.ts == Some(LastTs(c.last0, c.records));
    assert Dated(r) <= t;
    var q :| q in c.records && Dated(q) == t;
    assert q.ts.Some?;
  }

  lemma LatestStays(inputs: seq<Record>, r: Record, b: string)
    requires r.block != Some(b) && 0 <= LastTouch(inputs, b) < |inputs|
    ensures 0 <= LastTouch(inputs + [r], b) < |inputs|
    ensures LatestOf(inputs + [r], b) == LatestOf(inputs, b)
  {
    assert (inputs + [r])[..|inputs|] == inputs;
  }

  lemma WithoutLatest(inputs: seq<Record>, r: Record)
    requires InOrder(inputs + [r])
    ensures InOrder(inputs)
  {
    OrderedPrefix(inputs + [r], |inputs|);
    assert (inputs + [r])[..|inputs|] == inputs;
  }

  /** The same for another block's chunk after one more record. */
  lemma LastTsStays(cfg: Settings, calls: seq<Call>, c: Chunk, r: Record)
    requires cfg.Valid() && InOrder(Inputs(calls) + [r]) && c in Run(cfg, calls).open && r.block != Some(c.blockId)
    ensures 0 <= LastTouch(Inputs(calls) + [r], c.blockId) < |Inputs(calls)|
    ensures LastTs(c.last0, c.records) == LatestOf(Inputs(calls) + [r], c.blockId)
  {
    WithoutLatest(Inputs(calls), r);
    LastTsIsLatest(cfg, calls, c);
    LatestStays(Inputs(calls), r, c.blockId);
  }

  lemma LatestMonotone(inputs: seq<Record>, x: string, y: string)
    requires InOrder(inputs) && 0 <= LastTouch(inputs, x) < LastTouch(inputs, y) < |inputs|
    ensures LatestOf(inputs, x) <= LatestOf(inputs, y)
  {
  }

  lemma VictimOrder(cfg: Settings, calls: seq<Call>, r: Record, now1: real, now2: real, victim: Chunk, c: Chunk)
    requires cfg.Valid() && HasBlock(r) && victim.blockId != r.block.value
    requires var s' := Process(cfg, Run(cfg, calls), r, now1, now2);
      s'.emitted == Run(cfg, calls).emitted + [Closed(victim, Evicted)] && c in s'.open
    ensures LastTouch(Inputs(calls) + [r], victim.blockId) < LastTouch(Inputs(calls) + [r], c.blockId)
  {
    ProcessEmits(cfg, calls, r, now1, now2);
    var sent := Run(cfg, calls).emitted;
    assert (sent + [Closed(victim, Evicted)])[|sent|] == Closed(victim, Evicted);
  }

  lemma LastTsAfter(cfg: Settings, calls: seq<Call>, r: Record, now1: real, now2: real, c: Chunk)
    requires cfg.Valid() && HasBlock(r) && InOrder(Inputs(calls) + [r])
    requires c in Process(cfg, Run(cfg, calls), r, now1, now2).open
    ensures 0 <= LastTouch(Inputs(calls) + [r], c.blockId) < |Inputs(calls)| + 1
    ensures LastTs(c.last0, c.records) == LatestOf(Inputs(calls) + [r], c.blockId)
  {
    var call := ProcessCall(r, now1, now2);
    RunAppend(cfg, calls, call);
    LastTsIsLatest(cfg, calls + [call], c);
  }

  /** So when records arrive in order of their timestamps, the victim of an LRU eviction does have the
      oldest last timestamp of all traces, as the docstring says. */
  lemma EvictsOldestWhenInOrder(cfg: Settings, calls: seq<Call>, r: Record, now1: real, now2: real, victim: Chunk,
                                c: Chunk)
    requires cfg.Valid() && HasBlock(r) && InOrder(Inputs(calls) + [r]) && victim.blockId != r.block.value
    requires var s' := Process(cfg, Run(cfg, calls), r, now1, now2);
      s'.emitted == Run(cfg, calls).emitted + [Closed(victim, Evicted)] && c in s'.open
    ensures LastTs(victim.last0, victim.records) <= LastTs(c.last0, c.records)
  {
    VictimWasOpen(cfg, Run(cfg, calls), r, now1, now2, victim);
    VictimOrder(cfg, calls, r, now1, now2, victim, c);
    LastTsStays(cfg, calls, victim, r);
    LastTsAfter(cfg, calls, r, now1, now2, c);
    LatestMonotone(Inputs(calls) + [r], victim.blockId, c.blockId);
  }

  lemma VictimWasOpen(cfg: Settings, s: State, r: Record, now1: real, now2: real, victim: Chunk)
    requires HasBlock(r) && victim.blockId != r.block.value
    requires Process(cfg, s, r, now1, now2).emitted == s.emitted + [Closed(victim, Evicted)]
    ensures victim in s.open
  {
    var b := r.block.value;
    var rest := Without(s.open, b);
    var c := Touched(s.open, b, r, now1, now2);
    assert (rest + [c])[0] == if rest == [] then c else rest[0];
    assert (s.emitted + [Closed(victim, Evicted)])[|s.emitted|] == Closed(victim, Evicted);
  }

  // ---------- exactly when they agree ----------

  /** What a step closed is no newer than any trace it left open. */
  predicate ClosedOldest(s: State, next: State) {
    forall i, c | |s.emitted| <= i < |next.emitted| && c in next.open ::
      ChunkTs(next.emitted[i].chunk) <= ChunkTs(c)
  }

  function ChunkTs(c: Chunk): real {
    LastTs(c.last0, c.records)
  }

  /** Every victim of a run over `inputs` has the oldest last timestamp. */
  predicate VictimsOldest(cfg: Settings, inputs: seq<Record>) {
    inputs == [] ||
    var before := inputs[..|inputs| - 1];
    VictimsOldest(cfg, before) && ClosedOldest(Run(cfg, Plain(before)), Run(cfg, Plain(inputs)))
  }

  /** A record that comes from another block than the one before it is dated no earlier than any before. */
  predicate SwitchesForward(inputs: seq<Record>) {
    forall j, k | 0 <= j < k < |inputs| && inputs[k].block != inputs[k - 1].block :: Dated(inputs[j]) <= Dated(inputs[k])
  }

  predicate ByTimestamp(open: seq<Chunk>) {
    forall i, j | 0 <= i < j < |open| :: ChunkTs(open[i]) <= ChunkTs(open[j])
  }

  lemma GrownTs(c: Chunk, r: Record)
    requires r.ts.Some?
    ensures ChunkTs(c.(records := c.records + [r])) == if Dated(r) > ChunkTs(c) then Dated(r) else ChunkTs(c)
  {
    assert (c.records + [r])[..|c.records|] == c.records;
  }

  lemma TouchedTs(open: seq<Chunk>, b: string, r: Record)
    requires r.ts.Some?
    ensures ChunkTs(Touched(open, b, r, 0.0, 0.0)) >= Dated(r)
    ensures Find(open, b) < |open| ==> ChunkTs(Touched(open, b, r, 0.0, 0.0)) >= ChunkTs(open[Find(open, b)])
  {
    var i := Find(open, b);
    GrownTs(if i < |open| then open[i] else Chunk(b, [], GetOr(r.ts, 0.0), GetOr(r.ts, 0.0)), r);
  }

  /** The newest chunk is the one the last record went into. */
  predicate EndsWith(open: seq<Chunk>, block: Option<string>) {
    open != [] && block == Some(open[|open| - 1].blockId)
  }

  lemma TouchKeepsTimestampOrder(open: seq<Chunk>, r: Record)
    requires Distinct(open) && ByTimestamp(open) && HasBlock(r) && r.ts.Some?
    requires EndsWith(open, r.block) || forall c | c in open :: ChunkTs(c) <= Dated(r)
    ensures var b := r.block.value; ByTimestamp(Without(open, b) + [Touched(open, b, r, 0.0, 0.0)])
  {
    var b := r.block.value;
    var c := Touched(open, b, r, 0.0, 0.0);
    var rest := Without(open, b);
    TouchedTs(open, b, r);
    WithoutKeepsOrder(open, b);
    forall i | 0 <= i < |rest| ensures ChunkTs(rest[i]) <= ChunkTs(c) {
      assert rest[i] in open;
      if EndsWith(open, r.block) {
        assert Find(open, b) == |open| - 1;
        assert rest[i] == open[i];
      }
    }
  }

  lemma WithoutKeepsOrder(open: seq<Chunk>, b: string)
    requires ByTimestamp(open)
    ensures ByTimestamp(Without(open, b)) && forall c | c in Without(open, b) :: c in open
  {
    var i := Find(open, b);
    var rest := Without(open, b);
    if i < |open| {
      forall j | 0 <= j < |rest| ensures rest[j] == open[if j < i then j else j + 1] {}
    }
  }

  lemma SettleClosesOldest(cfg: Settings, s: State, c: Chunk, rest: seq<Chunk>, latest: Option<real>)
    requires cfg.Valid() && ByTimestamp(rest + [c]) && |Events(c.records)| < cfg.maxPerTrace
    ensures var next := Settle(cfg, rest, c, latest, s.emitted);
      && ByTimestamp(next.open) && EndsWith(next.open, Some(c.blockId)) && ClosedOldest(s, next)
  {
    var all := rest + [c];
    if |all| > cfg.maxOpen {
      assert |all| > 1;
      assert all[1..][|all| - 2] == c;
    }
  }

  lemma {:induction false} StreamShort(inputs: seq<Record>, b: string)
    ensures |Stream(inputs, b)| <= |inputs|
  {
    if inputs == [] {
    } else {
      StreamShort(inputs[..|inputs| - 1], b);
    }
  }

  /** While the cap exceeds the number of records it closes nothing. */
  lemma BelowCap(cfg: Settings, inputs: seq<Record>, r: Record)
    requires AllHaveBlocks(inputs) && HasBlock(r) && |inputs| + 1 < cfg.maxPerTrace
    ensures |Events(Touched(Run(cfg, Plain(inputs)).open, r.block.value, r, 0.0, 0.0).records)| < cfg.maxPerTrace
  {
    var open := Run(cfg, Plain(inputs)).open;
    var i := Find(open, r.block.value);
    PlainInputs(inputs);
    if i < |open| {
      assert open[i] in open;
      var before := OpenIsTail(cfg, Plain(inputs), open[i]);
      StreamShort(inputs, open[i].blockId);
    }
    EventsAtMost(Touched(open, r.block.value, r, 0.0, 0.0).records);
  }

  /** The last timestamp of an open trace is that of some record that arrived. */
  lemma TimestampArrived(cfg: Settings, inputs: seq<Record>, c: Chunk)
    requires cfg.Valid() && AllHaveBlocks(inputs) && AllDated(inputs) && c in Run(cfg, Plain(inputs)).open
    ensures exists i :: 0 <= i < |inputs| && ChunkTs(c) == Dated(inputs[i])
  {
    PlainInputs(inputs);
    Bounded(cfg, Plain(inputs));
    assert OpenOk(cfg, Run(cfg, Plain(inputs)).latest, c);
    RecordsArrived(cfg, Plain(inputs), c);
    TraceTimes(c, Evicted);
    var r :| r in c.records && r.ts == Some(ChunkTs(c));
    var i :| 0 <= i < |inputs| && inputs[i] == r;
  }

  predicate Plainly(cfg: Settings, inputs: seq<Record>) {
    cfg.Valid() && AllHaveBlocks(inputs) && AllDated(inputs) && |inputs| < cfg.maxPerTrace
  }

  lemma PlainPrefix(cfg: Settings, inputs: seq<Record>, n: nat)
    requires Plainly(cfg, inputs) && n <= |inputs|
    ensures Plainly(cfg, inputs[..n])
  {
  }

  /** A record of the newest trace, or one no older than any trace, keeps the order and closes the oldest. */
  lemma OldestStep(cfg: Settings, s: State, r: Record)
    requires cfg.Valid() && Distinct(s.open) && ByTimestamp(s.open) && HasBlock(r) && r.ts.Some?
    requires EndsWith(s.open, r.block) || forall c | c in s.open :: ChunkTs(c) <= Dated(r)
    requires |Events(Touched(s.open, r.block.value, r, 0.0, 0.0).records)| < cfg.maxPerTrace
    ensures var next := Process(cfg, s, r, 0.0, 0.0);
      ByTimestamp(next.open) && EndsWith(next.open, r.block) && ClosedOldest(s, next)
  {
    var b := r.block.value;
    TouchKeepsTimestampOrder(s.open, r);
    SettleClosesOldest(cfg, s, Touched(s.open, b, r, 0.0, 0.0), Without(s.open, b), Later(s.latest, r.ts));
  }

  /** What a switch forward in time means for the open traces. */
  lemma SwitchIsNewest(cfg: Settings, inputs: seq<Record>, open: seq<Chunk>)
    requires inputs != [] && Plainly(cfg, inputs) && SwitchesForward(inputs)
    requires var before := inputs[..|inputs| - 1];
      open == Run(cfg, Plain(before)).open && (before != [] ==> EndsWith(open, before[|before| - 1].block))
    ensures var r := inputs[|inputs| - 1]; EndsWith(open, r.block) || forall c | c in open :: ChunkTs(c) <= Dated(r)
  {
    var n := |inputs| - 1;
    PlainPrefix(cfg, inputs, n);
    if !EndsWith(open, inputs[n].block) {
      forall c | c in open ensures ChunkTs(c) <= Dated(inputs[n]) {
        TimestampArrived(cfg, inputs[..n], c);
      }
    }
  }

  lemma {:induction false} ForwardKeepsOrder(cfg: Settings, inputs: seq<Record>)
    requires Plainly(cfg, inputs) && SwitchesForward(inputs)
    ensures var s := Run(cfg, Plain(inputs));
      ByTimestamp(s.open) && (inputs != [] ==> EndsWith(s.open, inputs[|inputs| - 1].block))
    ensures VictimsOldest(cfg, inputs)
  {
    if inputs == [] {
    } else {
      var n := |inputs| - 1;
      PlainPrefix(cfg, inputs, n);
      ForwardKeepsOrder(cfg, inputs[..n]);
      var s := Run(cfg, Plain(inputs[..n]));
      NothingLost(cfg, Plain(inputs[..n]), "");
      SwitchIsNewest(cfg, inputs, s.open);
      BelowCap(cfg, inputs[..n], inputs[n]);
      PlainStep(cfg, inputs);
      OldestStep(cfg, s, inputs[n]);
    }
  }

  lemma ForwardStep(inputs: seq<Record>)
    requires inputs != [] && SwitchesForward(inputs[..|inputs| - 1])
    requires var n := |inputs| - 1;
      n > 0 && inputs[n].block != inputs[n - 1].block ==> forall j | 0 <= j < n :: Dated(inputs[j]) <= Dated(inputs[n])
    ensures SwitchesForward(inputs)
  {
    var n := |inputs| - 1;
    forall j, k | 0 <= j < k < |inputs| && inputs[k].block != inputs[k - 1].block
      ensures Dated(inputs[j]) <= Dated(inputs[k])
    {
      if k < n { assert inputs[..n][k] == inputs[k] && inputs[..n][k - 1] == inputs[k - 1] && inputs[..n][j] == inputs[j]; }
    }
  }

  predicate NoneLater(inputs: seq<Record>, t: real) {
    forall i | 0 <= i < |inputs| :: Dated(inputs[i]) <= t
  }

  /** The only open trace is that of the last record, and no record is later than it. */
  predicate OnlyAndLatest(open: seq<Chunk>, inputs: seq<Record>) {
    if inputs == [] then open == []
    else |open| == 1 && EndsWith(open, inputs[|inputs| - 1].block) && NoneLater(inputs, ChunkTs(open[0]))
  }

  lemma OnlyStaysLatest(inputs: seq<Record>, before: seq<Chunk>, open: seq<Chunk>)
    requires inputs != []
    requires var n := |inputs| - 1; OnlyAndLatest(before, inputs[..n]) && SwitchesForward(inputs[..n])
    requires var r := inputs[|inputs| - 1];
      && |open| == 1 && EndsWith(open, r.block) && ChunkTs(open[0]) >= Dated(r)
      && (before != [] ==> ChunkTs(before[0]) <= ChunkTs(open[0]))
      && (!EndsWith(before, r.block) ==> ChunkTs(open[0]) == Dated(r))
    ensures OnlyAndLatest(open, inputs) && SwitchesForward(inputs)
  {
    var n := |inputs| - 1;
    forall j | 0 <= j < n ensures Dated(inputs[j]) <= ChunkTs(before[0]) { assert inputs[..n][j] == inputs[j]; }
    ForwardStep(inputs);
  }

  /** With room for one trace only, oldest victims force every switch of block forward in time. */
  lemma {:induction false} OldestForcesForward(cfg: Settings, inputs: seq<Record>)
    requires Plainly(cfg, inputs) && cfg.maxOpen == 1 && VictimsOldest(cfg, inputs)
    ensures SwitchesForward(inputs) && OnlyAndLatest(Run(cfg, Plain(inputs)).open, inputs)
  {
    if inputs == [] {
    } else {
      var n := |inputs| - 1;
      PlainPrefix(cfg, inputs, n);
      OldestForcesForward(cfg, inputs[..n]);
      BelowCap(cfg, inputs[..n], inputs[n]);
      PlainStep(cfg, inputs);
      var s := Run(cfg, Plain(inputs[..n]));
      OnlyTrace(cfg, s, inputs[n]);
      OnlyStaysLatest(inputs, s.open, Run(cfg, Plain(inputs)).open);
    }
  }

  /** One more record of the only open trace ... */
  lemma OnlyGrows(cfg: Settings, s: State, r: Record)
    requires cfg.maxOpen == 1 && |s.open| == 1 && EndsWith(s.open, r.block) && HasBlock(r) && r.ts.Some?
    requires |Events(Touched(s.open, r.block.value, r, 0.0, 0.0).records)| < cfg.maxPerTrace
    ensures var open := Process(cfg, s, r, 0.0, 0.0).open;
      |open| == 1 && EndsWith(open, r.block) && ChunkTs(open[0]) >= Dated(r) && ChunkTs(s.open[0]) <= ChunkTs(open[0])
  {
    var b := r.block.value;
    var c := Touched(s.open, b, r, 0.0, 0.0);
    TouchedTs(s.open, b, r);
    assert Without(s.open, b) + [c] == [c];
  }

  /** ... or of another block, when at most one trace is open and no more may be. */
  lemma OnlyReplaced(cfg: Settings, s: State, r: Record)
    requires cfg.maxOpen == 1 && |s.open| <= 1 && !EndsWith(s.open, r.block) && HasBlock(r) && r.ts.Some?
    requires |Events(Touched(s.open, r.block.value, r, 0.0, 0.0).records)| < cfg.maxPerTrace
    requires ClosedOldest(s, Process(cfg, s, r, 0.0, 0.0))
    ensures var open := Process(cfg, s, r, 0.0, 0.0).open;
      && |open| == 1 && EndsWith(open, r.block) && ChunkTs(open[0]) == Dated(r)
      && (s.open != [] ==> ChunkTs(s.open[0]) <= ChunkTs(open[0]))
  {
    var b := r.block.value;
    var c := Touched(s.open, b, r, 0.0, 0.0);
    GrownTs(Chunk(b, [], Dated(r), Dated(r)), r);
    var all := s.open + [c];
    if s.open == [] {
      assert all == [c];
    } else {
      assert all[1..] == [c] && all[0] == s.open[0];
      var next := Process(cfg, s, r, 0.0, 0.0);
      assert next.emitted[|s.emitted|] == Closed(s.open[0], Evicted) && c in next.open;
    }
  }

  lemma OnlyTrace(cfg: Settings, s: State, r: Record)
    requires cfg.maxOpen == 1 && |s.open| <= 1 && HasBlock(r) && r.ts.Some?
    requires |Events(Touched(s.open, r.block.value, r, 0.0, 0.0).records)| < cfg.maxPerTrace
    requires ClosedOldest(s, Process(cfg, s, r, 0.0, 0.0))
    ensures var open := Process(cfg, s, r, 0.0, 0.0).open;
      && |open| == 1 && EndsWith(open, r.block) && ChunkTs(open[0]) >= Dated(r)
      && (s.open != [] ==> ChunkTs(s.open[0]) <= ChunkTs(open[0]))
      && (!EndsWith(s.open, r.block) ==> ChunkTs(open[0]) == Dated(r))
  {
    if EndsWith(s.open, r.block) { OnlyGrows(cfg, s, r); } else { OnlyReplaced(cfg, s, r); }
  }

  /** For dated records and a cap they cannot reach: whatever the number of traces that may be open, every
      victim is the trace with the oldest last timestamp, if and only if every record that switches to
      another block is dated no earlier than all records before it. */
  lemma VictimsOldestIff(inputs: seq<Record>)
    requires AllHaveBlocks(inputs) && AllDated(inputs)
    ensures (forall cfg: Settings | cfg.Valid() && |inputs| < cfg.maxPerTrace :: VictimsOldest(cfg, inputs))
       <==> SwitchesForward(inputs)
  {
    if SwitchesForward(inputs) {
      forall cfg: Settings | cfg.Valid() && |inputs| < cfg.maxPerTrace ensures VictimsOldest(cfg, inputs) {
        ForwardKeepsOrder(cfg, inputs);
      }
    }
    var one := Settings(1.0, |inputs| + 1, 1, {});
    if VictimsOldest(one, inputs) { OldestForcesForward(one, inputs); }
  }

  // ---------- why the cap must be out of reach ----------

  lemma OpensTrace(open: seq<Chunk>, r: Record, id: string, t: real)
    requires NoneOf(open, id) && r.block == Some(id) && r.ts == Some(t)
    ensures Touched(open, id, r, 0.0, 0.0) == Chunk(id, [r], t, t) && Without(open, id) == open
    ensures ChunkTs(Chunk(id, [r], t, t)) == t && Events([r]) == Event(r)
  {
    OneRecord(r, t);
    assert Find(open, id) == |open|;
    assert [] + [r] == [r];
  }

  lemma PlainAdd(cfg: Settings, before: seq<Record>, r: Record)
    ensures Run(cfg, Plain(before + [r])) == Process(cfg, Run(cfg, Plain(before)), r, 0.0, 0.0)
  {
    PlainStep(cfg, before + [r]);
    assert (before + [r])[..|before|] == before;
  }

  /** A record of a new block: its trace stays open below the cap, and with a cap of one event an event id
      closes it at once. */
  lemma AddsTrace(cfg: Settings, before: seq<Record>, r: Record, id: string, t: real)
    requires cfg.maxPerTrace == 1 && id != "" && r.block == Some(id) && r.ts == Some(t)
    requires var open := Run(cfg, Plain(before)).open; NoneOf(open, id) && |open| < cfg.maxOpen
    ensures Run(cfg, Plain(before + [r])).open
         == Run(cfg, Plain(before)).open + if Event(r) == [] then [Chunk(id, [r], t, t)] else []
  {
    var open := Run(cfg, Plain(before)).open;
    PlainAdd(cfg, before, r);
    OpensTrace(open, r, id, t);
  }

  /** A record without event id of a new block when two traces may be open and are. */
  lemma AddEvicts(cfg: Settings, before: seq<Record>, r: Record, id: string, t: real)
    requires cfg.maxPerTrace == 1 && cfg.maxOpen == 2 && id != "" && r.block == Some(id) && r.ts == Some(t) && Event(r) == []
    requires var open := Run(cfg, Plain(before)).open; NoneOf(open, id) && |open| == 2
    requires var open := Run(cfg, Plain(before)).open; ChunkTs(open[0]) > ChunkTs(open[1])
    ensures !ClosedOldest(Run(cfg, Plain(before)), Run(cfg, Plain(before + [r])))
  {
    var s := Run(cfg, Plain(before));
    PlainAdd(cfg, before, r);
    OpensTrace(s.open, r, id, t);
    var all := s.open + [Chunk(id, [r], t, t)];
    var next := Run(cfg, Plain(before + [r]));
    assert next.emitted[|s.emitted|].chunk == s.open[0];
    assert next.open[0] == s.open[1] && next.open[0] in next.open;
  }

  lemma LastNotOldest(cfg: Settings, before: seq<Record>, r: Record)
    requires !ClosedOldest(Run(cfg, Plain(before)), Run(cfg, Plain(before + [r])))
    ensures !VictimsOldest(cfg, before + [r])
  {
    assert (before + [r])[..|before|] == before;
  }

  /** `a` stays open and `b1` is closed by the cap. */
  lemma ClosedByCap(cfg: Settings, a: Record, b1: Record)
    requires cfg.maxPerTrace == 1 && cfg.maxOpen == 2 && Event(a) == [] && Event(b1) != []
    requires a.block == Some("a") && b1.block == Some("b") && a.ts.Some? && b1.ts.Some?
    ensures Run(cfg, Plain([a] + [b1])).open == [Chunk("a", [a], Dated(a), Dated(a))]
  {
    assert [] + [a] == [a] && Run(cfg, Plain([])).open == [];
    AddsTrace(cfg, [], a, "a", Dated(a));
    AddsTrace(cfg, [a], b1, "b", Dated(b1));
  }

  /** ... and `b2` reopens its block. */
  lemma Reopens(cfg: Settings, a: Record, b1: Record, b2: Record)
    requires cfg.maxPerTrace == 1 && cfg.maxOpen == 2 && Event(a) == Event(b2) == [] && Event(b1) != []
    requires a.block == Some("a") && b1.block == b2.block == Some("b") && a.ts.Some? && b1.ts.Some? && b2.ts.Some?
    ensures Run(cfg, Plain([a] + [b1] + [b2])).open
         == [Chunk("a", [a], Dated(a), Dated(a)), Chunk("b", [b2], Dated(b2), Dated(b2))]
  {
    ClosedByCap(cfg, a, b1);
    AddsTrace(cfg, [a] + [b1], b2, "b", Dated(b2));
  }

  lemma ReopenedThenEvicts(cfg: Settings, a: Record, b1: Record, b2: Record, c: Record)
    requires cfg.maxPerTrace == 1 && cfg.maxOpen == 2
    requires Event(a) == Event(b2) == Event(c) == [] && Event(b1) != []
    requires a.block == Some("a") && b1.block == b2.block == Some("b") && c.block == Some("c")
    requires a.ts.Some? && b1.ts.Some? && b2.ts.Some? && c.ts.Some? && Dated(a) > Dated(b2)
    ensures !VictimsOldest(cfg, [a] + [b1] + [b2] + [c])
  {
    Reopens(cfg, a, b1, b2);
    OneRecord(a, Dated(a));
    OneRecord(b2, Dated(b2));
    AddEvicts(cfg, [a] + [b1] + [b2], c, "c", Dated(c));
    LastNotOldest(cfg, [a] + [b1] + [b2], c);
  }

  lemma NoSwitchBack(a: Record, b1: Record, b2: Record, c: Record)
    requires b1.block == b2.block && Dated(a) <= Dated(b1) <= Dated(c) && Dated(b2) <= Dated(c)
    ensures SwitchesForward([a] + [b1] + [b2] + [c])
  {
    assert [a] + [b1] + [b2] + [c] == [a, b1, b2, c];
  }

  /** At a cap within reach the condition does not suffice: a block whose trace the cap closed reopens with an
      older timestamp and no switch backwards, and then the trace of another block is evicted before it. */
  lemma CapBreaksOrder() returns (cfg: Settings, inputs: seq<Record>)
    ensures cfg.Valid() && AllHaveBlocks(inputs) && AllDated(inputs)
    ensures SwitchesForward(inputs) && !VictimsOldest(cfg, inputs)
  {
    cfg := Settings(1.0, 1, 2, {});
    var a := Record(0, Some("a"), None, Some(5.0));
    var b1 := Record(1, Some("b"), Some("E1"), Some(10.0));
    var b2 := Record(2, Some("b"), None, Some(3.0));
    var c := Record(3, Some("c"), None, Some(10.0));
    inputs := [a] + [b1] + [b2] + [c];
    ReopenedThenEvicts(cfg, a, b1, b2, c);
    NoSwitchBack(a, b1, b2, c);
  }
}
