/** The cap on the records of a trace.  The docstring of block_sessionizer.py caps `record_count`; the code
    counts events.  Here is exactly when the code meets the docstring. */
module SessionCap {
  import opened Wrappers
  import opened SessionModel
  import opened SessionTheorems
  import opened SessionBounds
  import opened SessionTraces

  lemma {:induction false} EventsAtMost(rs: seq<Record>)
    ensures |Events(rs)| <= |rs|
    ensures |Events(rs)| == |rs| <==> forall r | r in rs :: Event(r) != []
  {
    if rs == [] {
    } else {
      var n := |rs| - 1;
      EventsAtMost(rs[..n]);
      assert rs == rs[..n] + [rs[n]];
    }
  }

  predicate AllButLastHaveEvents(rs: seq<Record>) {
    forall k | 0 <= k < |rs| - 1 :: Event(rs[k]) != []
  }

  /** No trace, open or published, has more records than the cap. */
  predicate WithinCap(cfg: Settings, s: State) {
    && (forall i | 0 <= i < |s.open| :: |s.open[i].records| <= cfg.maxPerTrace)
    && (forall i | 0 <= i < |s.emitted| :: |s.emitted[i].chunk.records| <= cfg.maxPerTrace)
  }

  // ---------- sufficient ----------

  lemma FragmentFits(cfg: Settings, before: seq<Record>, rs: seq<Record>, after: seq<Record>)
    requires AllButLastHaveEvents(before + rs + after) && CapByLast(cfg, rs)
    ensures |rs| <= cfg.maxPerTrace
  {
    var stream := before + rs + after;
    var init := rs[..|rs| - 1];
    forall r | r in init ensures Event(r) != [] {
      var k :| 0 <= k < |init| && init[k] == r;
      assert stream[|before| + k] == r;
    }
    EventsAtMost(init);
  }

  lemma OpenFits(cfg: Settings, calls: seq<Call>, c: Chunk)
    requires cfg.Valid() && c in Run(cfg, calls).open && AllButLastHaveEvents(Stream(Inputs(calls), c.blockId))
    ensures |c.records| <= cfg.maxPerTrace
  {
    Bounded(cfg, calls);
    assert OpenOk(cfg, Run(cfg, calls).latest, c);
    var before := OpenIsTail(cfg, calls, c);
    assert before + c.records + [] == before + c.records;
    FragmentFits(cfg, before, c.records, []);
  }

  lemma ClosedFits(cfg: Settings, calls: seq<Call>, i: nat)
    requires cfg.Valid() && i < |Run(cfg, calls).emitted|
    requires AllButLastHaveEvents(Stream(Inputs(calls), Run(cfg, calls).emitted[i].chunk.blockId))
    ensures |Run(cfg, calls).emitted[i].chunk.records| <= cfg.maxPerTrace
  {
    var e := Run(cfg, calls).emitted[i];
    Bounded(cfg, calls);
    assert e in Run(cfg, calls).emitted && ClosedOk(cfg, e.chunk);
    var before, after := TraceIsFragment(cfg, calls, i);
    FragmentFits(cfg, before, e.chunk.records, after);
  }

  /** If every record but the last of each block has an event id, no trace of any run exceeds the cap. */
  lemma CapBoundsRecords(cfg: Settings, calls: seq<Call>)
    requires cfg.Valid() && forall b: string :: AllButLastHaveEvents(Stream(Inputs(calls), b))
    ensures WithinCap(cfg, Run(cfg, calls))
  {
    var s := Run(cfg, calls);
    forall i | 0 <= i < |s.open| ensures |s.open[i].records| <= cfg.maxPerTrace { OpenFits(cfg, calls, s.open[i]); }
    forall i | 0 <= i < |s.emitted| ensures |s.emitted[i].chunk.records| <= cfg.maxPerTrace { ClosedFits(cfg, calls, i); }
  }

  // ---------- necessary ----------

  /** Room for every block, and a cap of one event. */
  function OneEach(inputs: seq<Record>): Settings {
    Settings(1.0, 1, |inputs| + 1, {})
  }

  lemma OneEachStep(cfg: Settings, s: State, r: Record, n: nat)
    requires cfg.maxPerTrace == 1 && cfg.maxOpen > n && HasBlock(r) && |s.open| <= n
    requires forall i | 0 <= i < |s.emitted| :: Events(s.emitted[i].chunk.records) != []
    ensures var next := Process(cfg, s, r, 0.0, 0.0);
      |next.open| <= n + 1 && forall i | 0 <= i < |next.emitted| :: Events(next.emitted[i].chunk.records) != []
  {
  }

  lemma {:induction false} OneEachEmitsEvents(cfg: Settings, inputs: seq<Record>)
    requires cfg.maxPerTrace == 1 && cfg.maxOpen > |inputs| && AllHaveBlocks(inputs)
    ensures var s := Run(cfg, Plain(inputs));
      |s.open| <= |inputs| && forall i | 0 <= i < |s.emitted| :: Events(s.emitted[i].chunk.records) != []
  {
    if inputs == [] {
    } else {
      var n := |inputs| - 1;
      OneEachEmitsEvents(cfg, inputs[..n]);
      PlainStep(cfg, inputs);
      OneEachStep(cfg, Run(cfg, Plain(inputs[..n])), inputs[n], n);
    }
  }

  lemma OneEvent(r: Record)
    ensures Events([r]) == Event(r)
  {
    assert [r][..0] == [];
  }

  lemma {:induction false} SinglesHaveEvents(cs: seq<Chunk>, b: string, r: Record)
    requires forall i | 0 <= i < |cs| :: |cs[i].records| <= 1 && Events(cs[i].records) != []
    requires r in Concat(cs, b)
    ensures Event(r) != []
  {
    if cs[0].blockId == b && r in cs[0].records {
      assert cs[0].records == [r];
      OneEvent(r);
    } else {
      SinglesHaveEvents(cs[1..], b, r);
    }
  }

  /** With a cap of one, records stay within it only if a record without event id ends its block's stream. */
  lemma CapNeedsEvents(inputs: seq<Record>, b: string)
    requires AllHaveBlocks(inputs)
    requires WithinCap(OneEach(inputs), Run(OneEach(inputs), Plain(inputs)))
    ensures AllButLastHaveEvents(Stream(inputs, b))
  {
    var cfg := OneEach(inputs);
    var s := Run(cfg, Plain(inputs));
    PlainInputs(inputs);
    NothingLost(cfg, Plain(inputs), b);
    OneEachEmitsEvents(cfg, inputs);
    ChunksAt(s.emitted);
    ConcatWithout(s.open, b, b);
    var closed, open := Concat(Chunks(s.emitted), b), Concat(s.open, b);
    assert |open| <= 1;
    forall k | 0 <= k < |closed + open| - 1 ensures Event((closed + open)[k]) != [] {
      SinglesHaveEvents(Chunks(s.emitted), b, closed[k]);
    }
  }

  /** The docstring's cap holds of a run over `inputs`. */
  predicate CapHolds(cfg: Settings, calls: seq<Call>, inputs: seq<Record>) {
    cfg.Valid() && Inputs(calls) == inputs ==> WithinCap(cfg, Run(cfg, calls))
  }

  /** In block `b` every record but the last has an event id. */
  predicate EventsBeforeLast(inputs: seq<Record>, b: string) {
    AllButLastHaveEvents(Stream(inputs, b))
  }

  lemma CapIfEvents(cfg: Settings, calls: seq<Call>, inputs: seq<Record>)
    requires forall b: string :: EventsBeforeLast(inputs, b)
    ensures CapHolds(cfg, calls, inputs)
  {
    if cfg.Valid() && Inputs(calls) == inputs {
      forall b: string ensures AllButLastHaveEvents(Stream(Inputs(calls), b)) { assert EventsBeforeLast(inputs, b); }
      CapBoundsRecords(cfg, calls);
    }
  }

  lemma EventsIfCap(inputs: seq<Record>, b: string)
    requires AllHaveBlocks(inputs) && CapHolds(OneEach(inputs), Plain(inputs), inputs)
    ensures EventsBeforeLast(inputs, b)
  {
    PlainInputs(inputs);
    CapNeedsEvents(inputs, b);
  }

  /** The docstring's cap holds of a stream, whatever the settings, the evictions, the janitor and `stop` do,
      if and only if in each block every record but the last has an event id. */
  lemma CapHoldsIff(inputs: seq<Record>)
    requires AllHaveBlocks(inputs)
    ensures (forall cfg: Settings, calls: seq<Call> :: CapHolds(cfg, calls, inputs))
       <==> (forall b: string :: EventsBeforeLast(inputs, b))
  {
    if forall b: string :: EventsBeforeLast(inputs, b) {
      forall cfg: Settings, calls: seq<Call> ensures CapHolds(cfg, calls, inputs) { CapIfEvents(cfg, calls, inputs); }
    }
    if forall cfg: Settings, calls: seq<Call> :: CapHolds(cfg, calls, inputs) {
      forall b: string ensures EventsBeforeLast(inputs, b) { EventsIfCap(inputs, b); }
    }
  }

  // ---------- how far beyond ----------

  /** `n` records of one block without event ids. */
  function Silent(n: nat): seq<Call> {
    if n == 0 then [] else Silent(n - 1) + [ProcessCall(Record(n, Some("b"), None, None), 0.0, 0.0)]
  }

  function SilentChunk(n: nat): seq<Record> {
    if n == 0 then [] else SilentChunk(n - 1) + [Record(n, Some("b"), None, None)]
  }

  lemma {:induction false} SilentHasNoEvents(n: nat)
    ensures |SilentChunk(n)| == n && Events(SilentChunk(n)) == []
  {
    if n == 0 {
    } else {
      var r := Record(n, Some("b"), None, None);
      SilentHasNoEvents(n - 1);
      EventsAppend(SilentChunk(n - 1), [r]);
      OneEvent(r);
    }
  }

  /** One more of them goes into the only open chunk, if there is one. */
  lemma SilentTouch(cfg: Settings, s: State, n: nat)
    requires cfg.Valid() && n > 0
    requires s.open == if n == 1 then [] else [Chunk("b", SilentChunk(n - 1), 0.0, 0.0)]
    ensures Process(cfg, s, Record(n, Some("b"), None, None), 0.0, 0.0).open == [Chunk("b", SilentChunk(n), 0.0, 0.0)]
  {
    var c := Touched(s.open, "b", Record(n, Some("b"), None, None), 0.0, 0.0);
    assert c == Chunk("b", SilentChunk(n), 0.0, 0.0);
    assert Without(s.open, "b") == [];
    assert [] + [c] == [c];
    SilentHasNoEvents(n);
  }

  /** How far beyond: under any settings a trace can hold any number of records. */
  lemma {:induction false} RecordCountUnbounded(cfg: Settings, n: nat)
    requires cfg.Valid() && n > 0
    ensures Run(cfg, Silent(n)).open == [Chunk("b", SilentChunk(n), 0.0, 0.0)] && |SilentChunk(n)| == n
  {
    SilentHasNoEvents(n);
    RunAppend(cfg, Silent(n - 1), ProcessCall(Record(n, Some("b"), None, None), 0.0, 0.0));
    if n > 1 { RecordCountUnbounded(cfg, n - 1); }
    SilentTouch(cfg, Run(cfg, Silent(n - 1)), n);
  }
}
