/** Sizes, recency order, timestamps and the janitor, for every run of the sessionizer. */
module SessionBounds {
  import opened Wrappers
  import opened SessionModel
  import opened SessionTheorems

  // ---------- the chunks of every run ----------

  /** Every record of a chunk belongs to its block, and a dated first record set both timestamps. */
  predicate ChunkOk(c: Chunk) {
    && c.records != [] && c.blockId != ""
    && (forall r | r in c.records :: r.block == Some(c.blockId))
    && (c.records[0].ts.Some? ==> c.first0 == c.last0 == c.records[0].ts.value)
  }

  predicate NotAfter(latest: Option<real>, rs: seq<Record>) {
    forall r | r in rs && r.ts.Some? :: latest.Some? && r.ts.value <= latest.value
  }

  /** Only its last record can have brought a chunk to the cap. */
  predicate CapByLast(cfg: Settings, rs: seq<Record>) {
    rs != [] && |Events(rs[..|rs| - 1])| < cfg.maxPerTrace
  }

  predicate OpenOk(cfg: Settings, latest: Option<real>, c: Chunk) {
    ChunkOk(c) && |Events(c.records)| < cfg.maxPerTrace && CapByLast(cfg, c.records) && NotAfter(latest, c.records)
  }

  predicate ClosedOk(cfg: Settings, c: Chunk) {
    ChunkOk(c) && |Events(c.records)| <= cfg.maxPerTrace && CapByLast(cfg, c.records)
  }

  predicate BoundInv(cfg: Settings, s: State) {
    && Distinct(s.open) && |s.open| <= cfg.maxOpen
    && (forall c | c in s.open :: OpenOk(cfg, s.latest, c))
    && (forall e | e in s.emitted :: ClosedOk(cfg, e.chunk))
  }

  lemma TouchedOk(cfg: Settings, s: State, r: Record, now1: real, now2: real)
    requires cfg.Valid() && BoundInv(cfg, s) && HasBlock(r)
    ensures var c := Touched(s.open, r.block.value, r, now1, now2);
      && ClosedOk(cfg, c) && NotAfter(Later(s.latest, r.ts), c.records) && c.blockId == r.block.value
  {
    var b := r.block.value;
    var c := Touched(s.open, b, r, now1, now2);
    var i := Find(s.open, b);
    var before := if i < |s.open| then s.open[i].records else [];
    assert c.records[..|c.records| - 1] == before;
    if i < |s.open| { assert OpenOk(cfg, s.latest, s.open[i]); }
  }

  lemma SettleBounded(cfg: Settings, rest: seq<Chunk>, c: Chunk, latest: Option<real>, emitted: seq<Closed>)
    requires |rest| <= cfg.maxOpen && TouchedFits(cfg, latest, c)
    requires forall o | o in rest :: OpenOk(cfg, latest, o)
    requires forall e | e in emitted :: ClosedOk(cfg, e.chunk)
    ensures var s := Settle(cfg, rest, c, latest, emitted);
      && |s.open| <= cfg.maxOpen && (forall o | o in s.open :: OpenOk(cfg, latest, o))
      && (forall e | e in s.emitted :: ClosedOk(cfg, e.chunk))
  {
    var all := rest + [c];
    assert all[0] == c || all[0] in rest;
  }

  predicate TouchedFits(cfg: Settings, latest: Option<real>, c: Chunk) {
    ClosedOk(cfg, c) && NotAfter(latest, c.records)
  }

  lemma ProcessBounded(cfg: Settings, s: State, r: Record, now1: real, now2: real)
    requires cfg.Valid() && BoundInv(cfg, s)
    ensures BoundInv(cfg, Process(cfg, s, r, now1, now2))
  {
    ProcessDistinct(cfg, s, r, now1, now2);
    if HasBlock(r) {
      var b := r.block.value;
      var latest := Later(s.latest, r.ts);
      TouchedOk(cfg, s, r, now1, now2);
      WithoutProperties(s.open, b);
      forall c | c in Without(s.open, b) ensures OpenOk(cfg, latest, c) { assert OpenOk(cfg, s.latest, c); }
      SettleBounded(cfg, Without(s.open, b), Touched(s.open, b, r, now1, now2), latest, s.emitted);
    }
  }

  lemma {:induction false} SweepMembers(cfg: Settings, latest: real, open: seq<Chunk>, k: nat)
    ensures forall c | c in ToKeep(cfg, latest, open, k) :: c in open
    ensures forall e | e in ToClose(cfg, latest, open, k) ::
              e.chunk in open && Verdict(cfg, latest, e.chunk) == Some(e.reason)
    ensures |ToKeep(cfg, latest, open, k)| + |ToClose(cfg, latest, open, k)| == |open|
  {
    if open == [] || k == 0 {
    } else {
      SweepMembers(cfg, latest, open[1..], k - 1);
      SweepMembers(cfg, latest, open[1..], k);
    }
  }

  lemma StepBounded(cfg: Settings, s: State, call: Call)
    requires cfg.Valid() && BoundInv(cfg, s)
    ensures BoundInv(cfg, Step(cfg, s, call))
  {
    match call
    case ProcessCall(r, now1, now2) => ProcessBounded(cfg, s, r, now1, now2);
    case JanitorCall(k) =>
      if s.latest.Some? {
        SweepMembers(cfg, s.latest.value, s.open, k);
        SweepDistinct(cfg, s.latest.value, s.open, k);
      }
    case StopCall =>
      forall e | e in CloseAll(s.open, Shutdown) ensures ClosedOk(cfg, e.chunk) { assert e.chunk in s.open; }
  }

  /** At every lock release: at most `max_open_traces` traces are open, an open trace has fewer than
      `max_records_per_trace` events and an emitted one at most that many. */
  lemma {:induction false} Bounded(cfg: Settings, calls: seq<Call>)
    requires cfg.Valid()
    ensures BoundInv(cfg, Run(cfg, calls))
  {
    if calls == [] {
    } else {
      Bounded(cfg, calls[..|calls| - 1]);
      StepBounded(cfg, Run(cfg, calls[..|calls| - 1]), calls[|calls| - 1]);
    }
  }

  // ---------- recency ----------

  /** When block `b` last received a record; -1 if never. */
  function LastTouch(inputs: seq<Record>, b: string): int {
    if inputs == [] then -1
    else var n := |inputs| - 1; if inputs[n].block == Some(b) then n else LastTouch(inputs[..n], b)
  }

  lemma {:induction false} LastTouchBefore(inputs: seq<Record>, b: string)
    ensures -1 <= LastTouch(inputs, b) < |inputs|
  {
    if inputs == [] {
    } else {
      LastTouchBefore(inputs[..|inputs| - 1], b);
    }
  }

  predicate ByRecency(open: seq<Chunk>, inputs: seq<Record>) {
    forall i, j | 0 <= i < j < |open| :: LastTouch(inputs, open[i].blockId) < LastTouch(inputs, open[j].blockId)
  }

  lemma TouchKeepsRecency(open: seq<Chunk>, inputs: seq<Record>, r: Record, c: Chunk)
    requires ByRecency(open, inputs) && Distinct(open) && r.block == Some(c.blockId)
    ensures ByRecency(Without(open, c.blockId) + [c], inputs + [r])
  {
    var rest := Without(open, c.blockId);
    WithoutProperties(open, c.blockId);
    var now := inputs + [r];
    assert now[..|inputs|] == inputs;
    forall x: string ensures x != c.blockId ==> LastTouch(now, x) == LastTouch(inputs, x) < |inputs| {
      LastTouchBefore(inputs, x);
    }
    assert LastTouch(now, c.blockId) == |inputs|;
  }

  lemma {:induction false} SweepKeepsRecency(cfg: Settings, latest: real, open: seq<Chunk>, k: nat, inputs: seq<Record>)
    requires ByRecency(open, inputs)
    ensures ByRecency(ToKeep(cfg, latest, open, k), inputs)
  {
    if open == [] || k == 0 {
    } else {
      var rest := open[1..];
      SweepKeepsRecency(cfg, latest, rest, k - 1, inputs);
      SweepKeepsRecency(cfg, latest, rest, k, inputs);
      SweepMembers(cfg, latest, rest, k);
      forall c | c in ToKeep(cfg, latest, rest, k)
        ensures LastTouch(inputs, open[0].blockId) < LastTouch(inputs, c.blockId)
      {
        var j :| 0 <= j < |rest| && rest[j] == c;
        assert open[j + 1] == c;
      }
    }
  }

  lemma SettleKeepsRecency(cfg: Settings, rest: seq<Chunk>, c: Chunk, latest: Option<real>, emitted: seq<Closed>,
                           inputs: seq<Record>)
    requires ByRecency(rest + [c], inputs)
    ensures ByRecency(Settle(cfg, rest, c, latest, emitted).open, inputs)
  {
    assert rest == (rest + [c])[..|rest|];
  }

  lemma StepKeepsRecency(cfg: Settings, s: State, call: Call, inputs: seq<Record>)
    requires ByRecency(s.open, inputs) && Distinct(s.open)
    ensures ByRecency(Step(cfg, s, call).open, inputs + Input(call))
  {
    match call
    case ProcessCall(r, now1, now2) =>
      if HasBlock(r) {
        var b := r.block.value;
        var c := Touched(s.open, b, r, now1, now2);
        TouchKeepsRecency(s.open, inputs, r, c);
        SettleKeepsRecency(cfg, Without(s.open, b), c, Later(s.latest, r.ts), s.emitted, inputs + [r]);
      } else {
        assert inputs + [] == inputs;
      }
    case JanitorCall(k) =>
      assert inputs + [] == inputs;
      if s.latest.Some? { SweepKeepsRecency(cfg, s.latest.value, s.open, k, inputs); }
    case StopCall => assert inputs + [] == inputs;
  }

  /** The dictionary is always ordered by when each block last received a record. */
  lemma {:induction false} OrderedByRecency(cfg: Settings, calls: seq<Call>)
    ensures ByRecency(Run(cfg, calls).open, Inputs(calls))
  {
    if calls == [] {
    } else {
      var n := |calls| - 1;
      OrderedByRecency(cfg, calls[..n]);
      NothingLost(cfg, calls[..n], "");
      StepKeepsRecency(cfg, Run(cfg, calls[..n]), calls[n], Inputs(calls[..n]));
    }
  }

  /** What was emitted after `sent`: at most one chunk, that of `b` at the cap, or else, where it leaves as
      many traces open as are allowed, one that has gone longer without a record than all of `open`. */
  predicate EmitsAtMostOne(cfg: Settings, sent: seq<Closed>, emitted: seq<Closed>, open: seq<Chunk>, b: string,
                           now: seq<Record>)
  {
    || emitted == sent
    || (|emitted| == |sent| + 1 && emitted[..|sent|] == sent &&
        var e := emitted[|sent|];
        e.reason == Evicted &&
        if e.chunk.blockId == b then |Events(e.chunk.records)| == cfg.maxPerTrace
        else |open| == cfg.maxOpen && forall c | c in open :: LastTouch(now, e.chunk.blockId) < LastTouch(now, c.blockId))
  }

  lemma SettleEmits(cfg: Settings, rest: seq<Chunk>, c: Chunk, latest: Option<real>, emitted: seq<Closed>, now: seq<Record>)
    requires cfg.Valid() && ByRecency(rest + [c], now) && NoneOf(rest, c.blockId)
    requires |Events(c.records)| <= cfg.maxPerTrace && |rest| <= cfg.maxOpen
    ensures var next := Settle(cfg, rest, c, latest, emitted);
      EmitsAtMostOne(cfg, emitted, next.emitted, next.open, c.blockId, now)
  {
    var all := rest + [c];
    if |Events(c.records)| < cfg.maxPerTrace && |all| > cfg.maxOpen {
      forall o | o in all[1..] ensures LastTouch(now, all[0].blockId) < LastTouch(now, o.blockId) {
        var j :| 0 <= j < |all[1..]| && all[1..][j] == o;
        assert all[j + 1] == o;
      }
    }
  }

  /** What `process` emits, if anything: the block just processed, when it reached the cap, or else the
      block that has gone longest without a record, never the one just processed. */
  lemma ProcessEmits(cfg: Settings, calls: seq<Call>, r: Record, now1: real, now2: real)
    requires cfg.Valid() && HasBlock(r)
    ensures var s := Run(cfg, calls); var next := Process(cfg, s, r, now1, now2);
      EmitsAtMostOne(cfg, s.emitted, next.emitted, next.open, r.block.value, Inputs(calls) + [r])
  {
    var s := Run(cfg, calls);
    var b := r.block.value;
    var c := Touched(s.open, b, r, now1, now2);
    Bounded(cfg, calls);
    TouchedOk(cfg, s, r, now1, now2);
    OrderedByRecency(cfg, calls);
    TouchKeepsRecency(s.open, Inputs(calls), r, c);
    WithoutProperties(s.open, b);
    SettleEmits(cfg, Without(s.open, b), c, Later(s.latest, r.ts), s.emitted, Inputs(calls) + [r]);
  }

  // ---------- timestamps ----------

  predicate AllDated(rs: seq<Record>) {
    forall r | r in rs :: r.ts.Some?
  }

  lemma {:induction false} FoldBounds(t0: real, rs: seq<Record>)
    ensures FirstTs(t0, rs) <= t0 <= LastTs(t0, rs)
    ensures forall r | r in rs && r.ts.Some? :: FirstTs(t0, rs) <= r.ts.value <= LastTs(t0, rs)
    ensures FirstTs(t0, rs) == t0 || exists r :: r in rs && r.ts == Some(FirstTs(t0, rs))
    ensures LastTs(t0, rs) == t0 || exists r :: r in rs && r.ts == Some(LastTs(t0, rs))
  {
    if rs == [] {
    } else {
      var n := |rs| - 1;
      FoldBounds(t0, rs[..n]);
      assert rs == rs[..n] + [rs[n]];
    }
  }

  /** With every record dated, the two timestamps of a trace are the least and greatest of its records'. */
  lemma TraceTimes(c: Chunk, reason: Reason)
    requires ChunkOk(c) && AllDated(c.records)
    ensures var t := Seal(Closed(c, reason));
      && (forall r | r in c.records :: t.firstTimestamp <= r.ts.value <= t.lastTimestamp)
      && (exists r :: r in c.records && r.ts == Some(t.firstTimestamp))
      && (exists r :: r in c.records && r.ts == Some(t.lastTimestamp))
  {
    assert c.records[0] in c.records;
    FoldBounds(c.first0, c.records);
  }

  // ---------- the janitor ----------

  /** A full pass closes a chunk exactly when there is a verdict on it, with that reason, and keeps the
      others; both lists are in the order of the dictionary. */
  function Due(cfg: Settings, latest: real, open: seq<Chunk>): seq<Closed> {
    if open == [] then []
    else (var v := Verdict(cfg, latest, open[0]); if v.Some? then [Closed(open[0], v.value)] else [])
         + Due(cfg, latest, open[1..])
  }

  function NotDue(cfg: Settings, latest: real, open: seq<Chunk>): seq<Chunk> {
    if open == [] then []
    else (if Verdict(cfg, latest, open[0]).None? then [open[0]] else []) + NotDue(cfg, latest, open[1..])
  }

  lemma {:induction false} PassInOrder(cfg: Settings, latest: real, open: seq<Chunk>, k: nat)
    requires k >= |open|
    ensures ToClose(cfg, latest, open, k) == Due(cfg, latest, open)
    ensures ToKeep(cfg, latest, open, k) == NotDue(cfg, latest, open)
  {
    if open == [] {
    } else {
      PassInOrder(cfg, latest, open[1..], if Verdict(cfg, latest, open[0]).Some? then k - 1 else k);
    }
  }

  lemma {:induction false} DueIff(cfg: Settings, latest: real, open: seq<Chunk>, c: Chunk, w: Reason)
    ensures Closed(c, w) in Due(cfg, latest, open) <==> c in open && Verdict(cfg, latest, c) == Some(w)
  {
    if open == [] {
    } else {
      DueIff(cfg, latest, open[1..], c, w);
      assert c in open <==> c == open[0] || c in open[1..];
    }
  }

  lemma {:induction false} NotDueIff(cfg: Settings, latest: real, open: seq<Chunk>, c: Chunk)
    ensures c in NotDue(cfg, latest, open) <==> c in open && Verdict(cfg, latest, c).None?
  {
    if open == [] {
    } else {
      NotDueIff(cfg, latest, open[1..], c);
      assert c in open <==> c == open[0] || c in open[1..];
    }
  }

  lemma FullPass(cfg: Settings, latest: real, open: seq<Chunk>, k: nat)
    requires k >= |open|
    ensures ToClose(cfg, latest, open, k) == Due(cfg, latest, open)
    ensures ToKeep(cfg, latest, open, k) == NotDue(cfg, latest, open)
    ensures forall c :: c in ToKeep(cfg, latest, open, k) <==> c in open && Verdict(cfg, latest, c).None?
    ensures forall c, w ::
              Closed(c, w) in ToClose(cfg, latest, open, k) <==> c in open && Verdict(cfg, latest, c) == Some(w)
  {
    PassInOrder(cfg, latest, open, k);
    forall c ensures c in NotDue(cfg, latest, open) <==> c in open && Verdict(cfg, latest, c).None? {
      NotDueIff(cfg, latest, open, c);
    }
    forall c, w ensures Closed(c, w) in Due(cfg, latest, open) <==> c in open && Verdict(cfg, latest, c) == Some(w) {
      DueIff(cfg, latest, open, c, w);
    }
  }

  lemma {:induction false} NothingDue(cfg: Settings, latest: real, open: seq<Chunk>, k: nat)
    requires forall c | c in open :: Verdict(cfg, latest, c).None?
    ensures ToClose(cfg, latest, open, k) == [] && ToKeep(cfg, latest, open, k) == open
  {
    if open == [] || k == 0 {
    } else {
      NothingDue(cfg, latest, open[1..], k);
    }
  }

  /** A second pass right after a full one does nothing. */
  lemma JanitorIdempotent(cfg: Settings, s: State, k: nat, again: nat)
    requires k >= |s.open|
    ensures var s' := Janitor(cfg, s, k); Janitor(cfg, s', again) == s'
  {
    if s.latest.Some? {
      var s' := Janitor(cfg, s, k);
      FullPass(cfg, s.latest.value, s.open, k);
      SweepMembers(cfg, s.latest.value, s.open, k);
      NothingDue(cfg, s.latest.value, s'.open, again);
      assert s'.emitted + [] == s'.emitted;
    }
  }

  /** After a full pass of any run over dated records, every open trace's last timestamp lies within the
      idle window of the latest one, and no open trace contains a terminal event. */
  lemma SurvivorsAreFresh(cfg: Settings, calls: seq<Call>, k: nat, c: Chunk)
    requires cfg.Valid() && AllDated(Inputs(calls)) && k >= |Run(cfg, calls).open|
    requires c in Janitor(cfg, Run(cfg, calls), k).open
    ensures var latest := Run(cfg, calls).latest;
      && latest.Some? && latest.value - cfg.idleWindow <= LastTs(c.last0, c.records) <= latest.value
      && !TerminalSeen(cfg.terminal, c.records)
  {
    var s := Run(cfg, calls);
    Bounded(cfg, calls);
    if s.latest.Some? { SweepMembers(cfg, s.latest.value, s.open, k); }
    assert OpenOk(cfg, s.latest, c);
    RecordsArrived(cfg, calls, c);
    assert c.records[0] in c.records;
    TraceTimes(c, Timeout);
    FullPass(cfg, s.latest.value, s.open, k);
  }

  /** An open chunk holds only records that the run has taken in. */
  lemma RecordsArrived(cfg: Settings, calls: seq<Call>, c: Chunk)
    requires c in Run(cfg, calls).open
    ensures forall r | r in c.records :: r in Inputs(calls)
  {
    var open := Run(cfg, calls).open;
    var i :| 0 <= i < |open| && open[i] == c;
    NothingLost(cfg, calls, c.blockId);
    ConcatSplit(open, i, c.blockId);
    StreamSubset(Inputs(calls), c.blockId);
  }

  lemma {:induction false} StreamSubset(inputs: seq<Record>, b: string)
    ensures forall r | r in Stream(inputs, b) :: r in inputs
  {
    if inputs == [] {
    } else {
      StreamSubset(inputs[..|inputs| - 1], b);
    }
  }
}
