/** The published traces against the records that arrived: reproduction, exactly-once, fragments. */
module SessionTraces {
  import opened Wrappers
  import opened SessionModel
  import opened SessionTheorems
  import opened SessionBounds

  // ---------- traces reproduce the stream ----------

  lemma {:induction false} EventsAppend(a: seq<Record>, b: seq<Record>)
    ensures Events(a + b) == Events(a) + Events(b)
  {
    if b == [] {
      assert a + b == a;
    } else {
      var n := |b| - 1;
      assert (a + b)[..|a + b| - 1] == a + b[..n];
      EventsAppend(a, b[..n]);
    }
  }

  lemma IdsAppend(a: seq<Record>, b: seq<Record>)
    ensures Ids(a + b) == Ids(a) + Ids(b)
  {
  }

  /** The event ids, and the record ids, of the published traces of block `b`, in order of publication. */
  function TraceEvents(emitted: seq<Closed>, b: string): seq<string> {
    if emitted == [] then []
    else (if emitted[0].chunk.blockId == b then Seal(emitted[0]).eventSequence else []) + TraceEvents(emitted[1..], b)
  }

  function TraceIds(emitted: seq<Closed>, b: string): seq<nat> {
    if emitted == [] then []
    else (if emitted[0].chunk.blockId == b then Seal(emitted[0]).recordIds else []) + TraceIds(emitted[1..], b)
  }

  lemma {:induction false} TraceEventsConcat(emitted: seq<Closed>, b: string)
    ensures TraceEvents(emitted, b) == Events(Concat(Chunks(emitted), b))
  {
    if emitted == [] {
    } else {
      var c := emitted[0].chunk;
      var rest := Concat(Chunks(emitted[1..]), b);
      TraceEventsConcat(emitted[1..], b);
      assert Concat(Chunks(emitted), b) == (if c.blockId == b then c.records else []) + rest;
      if c.blockId == b { EventsAppend(c.records, rest); } else { assert [] + rest == rest; }
    }
  }

  lemma {:induction false} TraceIdsConcat(emitted: seq<Closed>, b: string)
    ensures TraceIds(emitted, b) == Ids(Concat(Chunks(emitted), b))
  {
    if emitted == [] {
    } else {
      var c := emitted[0].chunk;
      var rest := Concat(Chunks(emitted[1..]), b);
      TraceIdsConcat(emitted[1..], b);
      assert Concat(Chunks(emitted), b) == (if c.blockId == b then c.records else []) + rest;
      if c.blockId == b { IdsAppend(c.records, rest); } else { assert [] + rest == rest; }
    }
  }

  /** The published traces of a block and then its open trace hold exactly its record ids and its
      non-empty event ids, in the order of arrival. */
  lemma TracesReproduceStream(cfg: Settings, calls: seq<Call>, b: string)
    ensures var s := Run(cfg, calls); var stream := Stream(Inputs(calls), b);
      && TraceIds(s.emitted, b) + Ids(Concat(s.open, b)) == Ids(stream)
      && TraceEvents(s.emitted, b) + Events(Concat(s.open, b)) == Events(stream)
  {
    var s := Run(cfg, calls);
    NothingLost(cfg, calls, b);
    TraceEventsConcat(s.emitted, b);
    TraceIdsConcat(s.emitted, b);
    EventsAppend(Concat(Chunks(s.emitted), b), Concat(s.open, b));
    IdsAppend(Concat(Chunks(s.emitted), b), Concat(s.open, b));
  }

  /** How often record `r` occurs in the published traces. */
  function Published(emitted: seq<Closed>, r: Record): nat {
    if emitted == [] then 0 else multiset(emitted[0].chunk.records)[r] + Published(emitted[1..], r)
  }

  lemma {:induction false} PublishedInBlock(emitted: seq<Closed>, r: Record)
    requires HasBlock(r) && forall e | e in emitted :: ChunkOk(e.chunk)
    ensures Published(emitted, r) == multiset(Concat(Chunks(emitted), r.block.value))[r]
  {
    if emitted == [] {
    } else {
      var c := emitted[0].chunk;
      PublishedInBlock(emitted[1..], r);
      assert emitted[0] in emitted;
      if c.blockId != r.block.value { assert r !in c.records; }
    }
  }

  lemma {:induction false} StreamKeeps(inputs: seq<Record>, r: Record)
    requires HasBlock(r)
    ensures multiset(Stream(inputs, r.block.value))[r] == multiset(inputs)[r]
  {
    if inputs == [] {
    } else {
      var n := |inputs| - 1;
      StreamKeeps(inputs[..n], r);
      assert inputs == inputs[..n] + [inputs[n]];
    }
  }

  lemma InputsAppend(calls: seq<Call>, call: Call)
    ensures Inputs(calls + [call]) == Inputs(calls) + Input(call)
  {
    assert (calls + [call])[..|calls|] == calls;
  }

  lemma RunAppend(cfg: Settings, calls: seq<Call>, call: Call)
    ensures Run(cfg, calls + [call]) == Step(cfg, Run(cfg, calls), call)
    ensures Inputs(calls + [call]) == Inputs(calls) + Input(call)
  {
    assert (calls + [call])[..|calls|] == calls;
    InputsAppend(calls, call);
  }

  /** After `stop` nothing is open, and every record with a block id is in the published traces exactly
      as often as it was taken in: once, when record ids are distinct. */
  lemma StopPublishesAll(cfg: Settings, calls: seq<Call>, r: Record)
    requires cfg.Valid() && HasBlock(r)
    ensures var s := Run(cfg, calls + [StopCall]);
      s.open == [] && Published(s.emitted, r) == multiset(Inputs(calls))[r]
  {
    RunAppend(cfg, calls, StopCall);
    assert Inputs(calls) + [] == Inputs(calls);
    var s := Run(cfg, calls + [StopCall]);
    Bounded(cfg, calls + [StopCall]);
    NothingLost(cfg, calls + [StopCall], r.block.value);
    PublishedInBlock(s.emitted, r);
    StreamKeeps(Inputs(calls), r);
  }

  // ---------- every trace is a fragment of its block ----------

  lemma Associates(before: seq<Record>, middle: seq<Record>, x: seq<Record>, y: seq<Record>)
    ensures (before + middle + x) + y == before + middle + (x + y)
  {
  }

  lemma FragmentOf(cs: seq<Chunk>, open: seq<Chunk>, i: nat, b: string) returns (before: seq<Record>, after: seq<Record>)
    requires i < |cs| && cs[i].blockId == b
    ensures Concat(cs, b) + Concat(open, b) == before + cs[i].records + after
  {
    ConcatSplit(cs, i, b);
    before := Concat(cs[..i], b);
    after := Concat(cs[i + 1..], b) + Concat(open, b);
    Associates(before, cs[i].records, Concat(cs[i + 1..], b), Concat(open, b));
  }

  /** The records of a published trace are consecutive records of its block's stream. */
  lemma TraceIsFragment(cfg: Settings, calls: seq<Call>, i: nat) returns (before: seq<Record>, after: seq<Record>)
    requires i < |Run(cfg, calls).emitted|
    ensures var c := Run(cfg, calls).emitted[i].chunk;
      Stream(Inputs(calls), c.blockId) == before + c.records + after
  {
    var s := Run(cfg, calls);
    var b := s.emitted[i].chunk.blockId;
    NothingLost(cfg, calls, b);
    ChunksAt(s.emitted);
    before, after := FragmentOf(Chunks(s.emitted), s.open, i, b);
  }

  // ---------- terminal events ----------

  /** The janitor's terminal flag says that the trace's event sequence contains a terminal event, or that a
      record had the empty event id where the empty string is configured as terminal. */
  lemma {:induction false} TerminalMeansEvent(terminal: set<string>, rs: seq<Record>)
    ensures TerminalSeen(terminal, rs)
       <==> (exists e :: e in Events(rs) && e in terminal) || ("" in terminal && HasEmptyEvent(rs))
  {
    if rs == [] {
    } else {
      var n := |rs| - 1;
      TerminalMeansEvent(terminal, rs[..n]);
      assert rs == rs[..n] + [rs[n]];
      if IsTerminal(terminal, rs[n]) && rs[n].event.value != "" { assert rs[n].event.value in Events(rs); }
    }
  }

  predicate HasEmptyEvent(rs: seq<Record>) {
    exists r :: r in rs && r.event == Some("")
  }

  // ---------- runs that only process ----------

  function Plain(inputs: seq<Record>): seq<Call> {
    if inputs == [] then []
    else var n := |inputs| - 1; Plain(inputs[..n]) + [ProcessCall(inputs[n], 0.0, 0.0)]
  }

  predicate AllHaveBlocks(inputs: seq<Record>) {
    forall i | 0 <= i < |inputs| :: HasBlock(inputs[i])
  }

  lemma {:induction false} PlainInputs(inputs: seq<Record>)
    requires AllHaveBlocks(inputs)
    ensures Inputs(Plain(inputs)) == inputs
  {
    if inputs == [] {
    } else {
      var n := |inputs| - 1;
      PlainInputs(inputs[..n]);
      InputsAppend(Plain(inputs[..n]), ProcessCall(inputs[n], 0.0, 0.0));
      assert Input(ProcessCall(inputs[n], 0.0, 0.0)) == [inputs[n]];
    }
  }

  lemma PlainStep(cfg: Settings, inputs: seq<Record>)
    requires inputs != []
    ensures var n := |inputs| - 1;
      Run(cfg, Plain(inputs)) == Process(cfg, Run(cfg, Plain(inputs[..n])), inputs[n], 0.0, 0.0)
  {
    var n := |inputs| - 1;
    RunAppend(cfg, Plain(inputs[..n]), ProcessCall(inputs[n], 0.0, 0.0));
  }

  /** An open chunk is the tail of its block's stream. */
  lemma OpenIsTail(cfg: Settings, calls: seq<Call>, c: Chunk) returns (before: seq<Record>)
    requires c in Run(cfg, calls).open
    ensures Stream(Inputs(calls), c.blockId) == before + c.records
  {
    var s := Run(cfg, calls);
    NothingLost(cfg, calls, c.blockId);
    var i :| 0 <= i < |s.open| && s.open[i] == c;
    ConcatWithout(s.open, c.blockId, c.blockId);
    assert Find(s.open, c.blockId) == i;
    before := Concat(Chunks(s.emitted), c.blockId);
  }
}
