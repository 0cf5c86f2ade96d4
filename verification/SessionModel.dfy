/** stages/sessionizing/block_sessionizer.py as a machine over chunks.

    A chunk is the list of records that one trace has taken in; what the stage keeps for a trace
    (events, record ids, first and last timestamp, the terminal flag) is a function of its chunk.
    `process`, the janitor and `stop` each run under one lock, so a run of the stage is a list of
    whole calls in any order. */
module SessionModel {
  import opened Wrappers

  /** A record as the stage sees it: a block or event id that is no string counts as absent. */
  datatype Record = Record(id: nat, block: Option<string>, event: Option<string>, ts: Option<real>)

  datatype Reason = Terminal | Timeout | Shutdown | Evicted

  /** `first0` and `last0` are the timestamps the trace was created with. */
  datatype Chunk = Chunk(blockId: string, records: seq<Record>, first0: real, last0: real)

  datatype Closed = Closed(chunk: Chunk, reason: Reason)

  datatype BlockTrace = BlockTrace(
    blockId: string,
    eventSequence: seq<string>,
    recordIds: seq<nat>,
    firstTimestamp: real,
    lastTimestamp: real,
    recordCount: nat,
    closedReason: Reason
  )

  datatype Settings = Settings(idleWindow: real, maxPerTrace: nat, maxOpen: nat, terminal: set<string>) {
    predicate Valid() {
      idleWindow > 0.0 && maxPerTrace > 0 && maxOpen > 0
    }
  }

  datatype State = State(open: seq<Chunk>, latest: Option<real>, emitted: seq<Closed>)

  // ---------- what a chunk determines ----------

  function Event(r: Record): seq<string> {
    if r.event.Some? && r.event.value != "" then [r.event.value] else []
  }

  /** The non-empty event ids in arrival order. */
  function Events(rs: seq<Record>): seq<string> {
    if rs == [] then [] else Events(rs[..|rs| - 1]) + Event(rs[|rs| - 1])
  }

  function Ids(rs: seq<Record>): seq<nat> {
    seq(|rs|, i requires 0 <= i < |rs| => rs[i].id)
  }

  function FirstTs(first0: real, rs: seq<Record>): real {
    if rs == [] then first0
    else var t := FirstTs(first0, rs[..|rs| - 1]); var ts := rs[|rs| - 1].ts;
      if ts.Some? && ts.value < t then ts.value else t
  }

  function LastTs(last0: real, rs: seq<Record>): real {
    if rs == [] then last0
    else var t := LastTs(last0, rs[..|rs| - 1]); var ts := rs[|rs| - 1].ts;
      if ts.Some? && ts.value > t then ts.value else t
  }

  predicate IsTerminal(terminal: set<string>, r: Record) {
    r.event.Some? && r.event.value in terminal
  }

  predicate TerminalSeen(terminal: set<string>, rs: seq<Record>) {
    exists r :: r in rs && IsTerminal(terminal, r)
  }

  /** The trace that is published when a chunk is closed. */
  function Seal(c: Closed): BlockTrace {
    BlockTrace(c.chunk.blockId, Events(c.chunk.records), Ids(c.chunk.records),
               FirstTs(c.chunk.first0, c.chunk.records), LastTs(c.chunk.last0, c.chunk.records),
               |c.chunk.records|, c.reason)
  }

  // ---------- process ----------

  /** Position of block `b` in the ordered dictionary, or its length. */
  function Find(open: seq<Chunk>, b: string): (i: nat)
    ensures i <= |open| && (i < |open| ==> open[i].blockId == b)
    ensures forall j | 0 <= j < i :: open[j].blockId != b
  {
    if open == [] then 0 else if open[0].blockId == b then 0 else 1 + Find(open[1..], b)
  }

  function Without(open: seq<Chunk>, b: string): seq<Chunk> {
    var i := Find(open, b);
    if i < |open| then open[..i] + open[i + 1..] else open
  }

  function Later(latest: Option<real>, ts: Option<real>): Option<real> {
    if ts.Some? && (latest.None? || ts.value > latest.value) then ts else latest
  }

  function GetOr(ts: Option<real>, now: real): real {
    if ts.Some? then ts.value else now
  }

  /** The chunk of `b` after taking in `r`; a new one starts at the record's time, or at the clock's. */
  function Touched(open: seq<Chunk>, b: string, r: Record, now1: real, now2: real): Chunk {
    var i := Find(open, b);
    var c := if i < |open| then open[i] else Chunk(b, [], GetOr(r.ts, now1), GetOr(r.ts, now2));
    c.(records := c.records + [r])
  }

  predicate HasBlock(r: Record) {
    r.block.Some? && r.block.value != ""
  }

  /** Puts the touched chunk back at the recent end, then applies the hard cap, else the LRU bound. */
  function Settle(cfg: Settings, rest: seq<Chunk>, c: Chunk, latest: Option<real>, emitted: seq<Closed>): State {
    var all := rest + [c];
    if |Events(c.records)| >= cfg.maxPerTrace then State(rest, latest, emitted + [Closed(c, Evicted)])
    else if |all| > cfg.maxOpen then State(all[1..], latest, emitted + [Closed(all[0], Evicted)])
    else State(all, latest, emitted)
  }

  function Process(cfg: Settings, s: State, r: Record, now1: real, now2: real): State {
    if !HasBlock(r) then s
    else
      var b := r.block.value;
      Settle(cfg, Without(s.open, b), Touched(s.open, b, r, now1, now2), Later(s.latest, r.ts), s.emitted)
  }

  // ---------- the janitor and stop ----------

  /** Why a janitor pass closes a chunk, if it does: a terminal event comes first. */
  function Verdict(cfg: Settings, latest: real, c: Chunk): Option<Reason> {
    if TerminalSeen(cfg.terminal, c.records) then Some(Terminal)
    else if LastTs(c.last0, c.records) < latest - cfg.idleWindow then Some(Timeout)
    else None
  }

  /** The chunks a pass closes and those it keeps, in order; a pass that is cancelled by `stop` has
      only closed the first `k`. */
  function ToClose(cfg: Settings, latest: real, open: seq<Chunk>, k: nat): seq<Closed> {
    if open == [] || k == 0 then []
    else var v := Verdict(cfg, latest, open[0]);
      if v.Some? then [Closed(open[0], v.value)] + ToClose(cfg, latest, open[1..], k - 1)
      else ToClose(cfg, latest, open[1..], k)
  }

  function ToKeep(cfg: Settings, latest: real, open: seq<Chunk>, k: nat): seq<Chunk> {
    if open == [] || k == 0 then open
    else if Verdict(cfg, latest, open[0]).Some? then ToKeep(cfg, latest, open[1..], k - 1)
    else [open[0]] + ToKeep(cfg, latest, open[1..], k)
  }

  function Janitor(cfg: Settings, s: State, k: nat): State {
    if s.latest.None? then s
    else s.(open := ToKeep(cfg, s.latest.value, s.open, k),
            emitted := s.emitted + ToClose(cfg, s.latest.value, s.open, k))
  }

  function CloseAll(open: seq<Chunk>, reason: Reason): seq<Closed> {
    seq(|open|, i requires 0 <= i < |open| => Closed(open[i], reason))
  }

  function Stop(s: State): State {
    s.(open := [], emitted := s.emitted + CloseAll(s.open, Shutdown))
  }

  // ---------- runs ----------

  datatype Call = ProcessCall(record: Record, now1: real, now2: real) | JanitorCall(k: nat) | StopCall

  const Fresh := State([], None, [])

  function Step(cfg: Settings, s: State, call: Call): State {
    match call
    case ProcessCall(r, now1, now2) => Process(cfg, s, r, now1, now2)
    case JanitorCall(k) => Janitor(cfg, s, k)
    case StopCall => Stop(s)
  }

  function Run(cfg: Settings, calls: seq<Call>): State {
    if calls == [] then Fresh else Step(cfg, Run(cfg, calls[..|calls| - 1]), calls[|calls| - 1])
  }

  function Input(call: Call): seq<Record> {
    if call.ProcessCall? && HasBlock(call.record) then [call.record] else []
  }

  /** The records with a block id that a run has taken in, in arrival order. */
  function Inputs(calls: seq<Call>): seq<Record> {
    if calls == [] then [] else Inputs(calls[..|calls| - 1]) + Input(calls[|calls| - 1])
  }

  /** The arrival-ordered records of one block. */
  function Stream(inputs: seq<Record>, b: string): seq<Record> {
    if inputs == [] then []
    else var n := |inputs| - 1; Stream(inputs[..n], b) + if inputs[n].block == Some(b) then [inputs[n]] else []
  }
}
