/** The classes of stages/sessionizing/block_sessionizer.py, proved to keep per trace exactly what the
    machine of `SessionModel` computes from the chunk of records it has taken in. */
module BlockSessionizers {
  import opened Wrappers
  import opened SessionModel
  import opened SessionTheorems
  import opened SessionBounds
  import opened SessionTraces

  /** The fields of a trace are what its chunk determines. */
  ghost predicate Follows(terminal: set<string>, c: Chunk, events: seq<string>, recordIds: seq<nat>, firstTs: real,
                          lastTs: real, terminalSeen: bool)
  {
    && events == Events(c.records) && recordIds == Ids(c.records)
    && firstTs == FirstTs(c.first0, c.records) && lastTs == LastTs(c.last0, c.records)
    && terminalSeen == TerminalSeen(terminal, c.records)
  }

  lemma FollowsGrown(terminal: set<string>, c: Chunk, r: Record, events: seq<string>, recordIds: seq<nat>, firstTs: real,
                     lastTs: real, terminalSeen: bool)
    requires events == Events(c.records) + Event(r) && recordIds == Ids(c.records) + [r.id]
    requires firstTs == (var t := FirstTs(c.first0, c.records); if r.ts.Some? && r.ts.value < t then r.ts.value else t)
    requires lastTs == (var t := LastTs(c.last0, c.records); if r.ts.Some? && r.ts.value > t then r.ts.value else t)
    requires terminalSeen == (TerminalSeen(terminal, c.records) || IsTerminal(terminal, r))
    ensures Follows(terminal, c.(records := c.records + [r]), events, recordIds, firstTs, lastTs, terminalSeen)
  {
    ChunkGrows(terminal, c, r);
  }

  class OpenTrace {
    const blockId: string
    var events: seq<string>
    var recordIds: seq<nat>
    var firstTs: real
    var lastTs: real
    var terminalSeen: bool
    ghost var chunk: Chunk

    ghost predicate Valid(terminal: set<string>)
      reads this
    {
      chunk.blockId == blockId && Follows(terminal, chunk, events, recordIds, firstTs, lastTs, terminalSeen)
    }

    constructor (blockId: string, firstTs: real, lastTs: real)
      ensures this.blockId == blockId && chunk == Chunk(blockId, [], firstTs, lastTs)
      ensures forall terminal :: Valid(terminal)
    {
      this.blockId, this.firstTs, this.lastTs := blockId, firstTs, lastTs;
      events, recordIds, terminalSeen := [], [], false;
      chunk := Chunk(blockId, [], firstTs, lastTs);
    }

    method Add(eventId: Option<string>, rid: nat, ts: Option<real>)
      modifies this`events, this`recordIds, this`firstTs, this`lastTs
      ensures events == old(events) + if eventId.Some? && eventId.value != "" then [eventId.value] else []
      ensures recordIds == old(recordIds) + [rid]
      ensures firstTs == if ts.Some? && ts.value < old(firstTs) then ts.value else old(firstTs)
      ensures lastTs == if ts.Some? && ts.value > old(lastTs) then ts.value else old(lastTs)
    {
      if eventId.Some? && eventId.value != "" {
        events := events + [eventId.value];
      }
      recordIds := recordIds + [rid];
      if ts.Some? {
        if ts.value < firstTs { firstTs := ts.value; }
        if ts.value > lastTs { lastTs := ts.value; }
      }
    }

    /** `add` and the terminal flag: the incremental fields follow the chunk. */
    method TakeIn(terminal: set<string>, r: Record)
      requires Valid(terminal)
      modifies this
      ensures Valid(terminal) && chunk == old(chunk).(records := old(chunk.records) + [r])
    {
      Add(r.event, r.id, r.ts);
      if r.event.Some? && r.event.value in terminal {
        terminalSeen := true;
      }
      FollowsGrown(terminal, chunk, r, events, recordIds, firstTs, lastTs, terminalSeen);
      chunk := chunk.(records := chunk.records + [r]);
    }
  }

  /** What one more record adds to everything a chunk determines. */
  lemma ChunkGrows(terminal: set<string>, c: Chunk, r: Record)
    ensures var rs := c.records + [r];
      && Events(rs) == Events(c.records) + Event(r) && Ids(rs) == Ids(c.records) + [r.id]
      && FirstTs(c.first0, rs)
         == (var t := FirstTs(c.first0, c.records); if r.ts.Some? && r.ts.value < t then r.ts.value else t)
      && LastTs(c.last0, rs)
         == (var t := LastTs(c.last0, c.records); if r.ts.Some? && r.ts.value > t then r.ts.value else t)
      && (TerminalSeen(terminal, rs) <==> TerminalSeen(terminal, c.records) || IsTerminal(terminal, r))
  {
    var rs := c.records + [r];
    assert rs[..|c.records|] == c.records;
    assert r in rs && forall q :: q in rs <==> q in c.records || q == r;
  }

  /** Position of a key in the ordered dictionary, or its size. */
  function Position(traces: seq<OpenTrace>, b: string): (i: nat)
    ensures i <= |traces| && (i < |traces| ==> traces[i].blockId == b)
  {
    if traces == [] then 0 else if traces[0].blockId == b then 0 else 1 + Position(traces[1..], b)
  }

  function Removed(traces: seq<OpenTrace>, b: string): seq<OpenTrace> {
    var i := Position(traces, b);
    if i < |traces| then traces[..i] + traces[i + 1..] else traces
  }

  ghost function ChunksOf(traces: seq<OpenTrace>): (cs: seq<Chunk>)
    reads traces
    ensures |cs| == |traces|
  {
    if traces == [] then [] else [traces[0].chunk] + ChunksOf(traces[1..])
  }

  lemma {:induction false} PositionIsFind(traces: seq<OpenTrace>, b: string)
    requires forall t | t in traces :: t.chunk.blockId == t.blockId
    ensures Position(traces, b) == Find(ChunksOf(traces), b)
  {
    if traces == [] {
    } else {
      PositionIsFind(traces[1..], b);
    }
  }

  lemma {:induction false} ChunksOfAppend(a: seq<OpenTrace>, b: seq<OpenTrace>)
    ensures ChunksOf(a + b) == ChunksOf(a) + ChunksOf(b)
  {
    if a == [] {
      assert a + b == b;
    } else {
      assert (a + b)[1..] == a[1..] + b;
      ChunksOfAppend(a[1..], b);
    }
  }

  lemma {:induction false} ChunkAt(traces: seq<OpenTrace>, i: nat)
    requires i < |traces|
    ensures ChunksOf(traces)[i] == traces[i].chunk
  {
    if i == 0 {
    } else {
      ChunkAt(traces[1..], i - 1);
    }
  }

  lemma ChunksOfRemoved(traces: seq<OpenTrace>, i: nat)
    requires i < |traces|
    ensures ChunksOf(traces[..i] + traces[i + 1..]) == ChunksOf(traces)[..i] + ChunksOf(traces)[i + 1..]
  {
    ChunksOfCut(traces, i);
    ChunksOfCut(traces, i + 1);
    ChunksOfAppend(traces[..i], traces[i + 1..]);
  }

  lemma ChunksOfCut(traces: seq<OpenTrace>, i: nat)
    requires i <= |traces|
    ensures ChunksOf(traces[..i]) == ChunksOf(traces)[..i] && ChunksOf(traces[i..]) == ChunksOf(traces)[i..]
  {
    assert traces == traces[..i] + traces[i..];
    ChunksOfAppend(traces[..i], traces[i..]);
  }

  lemma RemovedIsWithout(traces: seq<OpenTrace>, b: string)
    requires forall t | t in traces :: t.chunk.blockId == t.blockId
    ensures ChunksOf(Removed(traces, b)) == Without(ChunksOf(traces), b)
  {
    PositionIsFind(traces, b);
    if Position(traces, b) < |traces| { ChunksOfRemoved(traces, Position(traces, b)); }
  }

  /** What was published is the emitted chunks, sealed, in order. */
  predicate Sealed(published: seq<BlockTrace>, emitted: seq<Closed>) {
    |published| == |emitted| && forall i | 0 <= i < |published| :: published[i] == Seal(emitted[i])
  }

  lemma Extends(sent: seq<Closed>, pairs: seq<Closed>, j: nat)
    requires j < |pairs|
    ensures sent + pairs[..j + 1] == sent + pairs[..j] + [pairs[j]]
  {
  }

  /** The open traces follow their chunks, and the keys of the dictionary are distinct. */
  ghost predicate TracesOk(traces: seq<OpenTrace>, terminal: set<string>)
    reads traces
  {
    (forall t | t in traces :: t.Valid(terminal)) && KeysDistinct(traces)
  }

  ghost predicate KeysDistinct(traces: seq<OpenTrace>) {
    forall i, j | 0 <= i < j < |traces| :: traces[i].blockId != traces[j].blockId
  }

  lemma RemovedDistinct(traces: seq<OpenTrace>, b: string)
    requires KeysDistinct(traces)
    ensures KeysDistinct(Removed(traces, b))
  {
    var k := Position(traces, b);
    var rest := Removed(traces, b);
    if k < |traces| {
      forall i | 0 <= i < |rest| ensures rest[i] == traces[if i < k then i else i + 1] {}
    }
  }

  lemma {:induction false} RemovedMembers(traces: seq<OpenTrace>, b: string)
    requires KeysDistinct(traces)
    ensures forall t | t in Removed(traces, b) :: t in traces && t.blockId != b
  {
    if traces == [] {
    } else {
      RemovedMembers(traces[1..], b);
      var i := Position(traces, b);
      if i < |traces| {
        forall t | t in Removed(traces, b) ensures t in traces && t.blockId != b {
          var j :| 0 <= j < |traces| && j != i && traces[j] == t;
        }
      } else {
        PositionFinds(traces, b);
      }
    }
  }

  /** Every trace of the first list is in the second. */
  predicate Among(traces: seq<OpenTrace>, all: seq<OpenTrace>) {
    traces == [] || (traces[0] in all && Among(traces[1..], all))
  }

  lemma {:induction false} AmongAll(traces: seq<OpenTrace>, all: seq<OpenTrace>)
    ensures Among(traces, all) <==> forall t | t in traces :: t in all
  {
    if traces == [] {
    } else {
      AmongAll(traces[1..], all);
      assert traces == [traces[0]] + traces[1..];
    }
  }

  lemma {:induction false} PositionFinds(traces: seq<OpenTrace>, b: string)
    ensures Position(traces, b) == |traces| ==> forall t | t in traces :: t.blockId != b
  {
    if traces == [] {
    } else {
      PositionFinds(traces[1..], b);
    }
  }

  lemma RemovedOk(traces: seq<OpenTrace>, b: string, terminal: set<string>)
    requires TracesOk(traces, terminal)
    ensures TracesOk(Removed(traces, b), terminal)
    ensures ChunksOf(Removed(traces, b)) == Without(ChunksOf(traces), b)
    ensures Position(traces, b) == Find(ChunksOf(traces), b)
    ensures forall t | t in Removed(traces, b) :: t in traces && t.blockId != b
  {
    RemovedMembers(traces, b);
    RemovedDistinct(traces, b);
    RemovedIsWithout(traces, b);
    PositionIsFind(traces, b);
  }

  /** The trace of `b`, found or new, can be put back at the recent end of the others. */
  lemma LookupOk(traces: seq<OpenTrace>, trace: OpenTrace, b: string, r: Record, now1: real, now2: real,
                 terminal: set<string>)
    requires TracesOk(traces, terminal) && trace.Valid(terminal) && trace.blockId == b
    requires var i := Position(traces, b);
      if i < |traces| then trace == traces[i] else trace.chunk == Chunk(b, [], GetOr(r.ts, now1), GetOr(r.ts, now2))
    ensures var rest := Removed(traces, b);
      && TracesOk(rest + [trace], terminal) && trace !in rest && ChunksOf(rest) == Without(ChunksOf(traces), b)
      && (forall t | t in rest + [trace] :: t in traces || t == trace)
    ensures trace.chunk.(records := trace.chunk.records + [r]) == Touched(ChunksOf(traces), b, r, now1, now2)
  {
    RemovedOk(traces, b, terminal);
    AppendOk(Removed(traces, b), trace, terminal);
    if Position(traces, b) < |traces| { ChunkAt(traces, Position(traces, b)); }
  }

  lemma TracesValid(traces: seq<OpenTrace>, trace: OpenTrace, terminal: set<string>)
    requires TracesOk(traces, terminal) && trace in traces
    ensures trace.Valid(terminal)
  {
  }

  lemma SplitOk(rest: seq<OpenTrace>, trace: OpenTrace, terminal: set<string>)
    requires TracesOk(rest + [trace], terminal)
    ensures TracesOk(rest, terminal) && trace.Valid(terminal)
    ensures forall t | t in rest :: t.blockId != trace.blockId
  {
    var all := rest + [trace];
    assert all[|rest|] == trace && forall i | 0 <= i < |rest| :: all[i] == rest[i];
    assert trace in all && forall t | t in rest :: t in all;
  }

  lemma DistinctChunks(traces: seq<OpenTrace>, terminal: set<string>)
    requires TracesOk(traces, terminal)
    ensures Distinct(ChunksOf(traces))
  {
    forall i, j | 0 <= i < j < |traces| ensures ChunksOf(traces)[i].blockId != ChunksOf(traces)[j].blockId {
      ChunkAt(traces, i);
      ChunkAt(traces, j);
      TracesValid(traces, traces[i], terminal);
      TracesValid(traces, traces[j], terminal);
    }
  }

  lemma WithoutLast(cs: seq<Chunk>, c: Chunk)
    requires Distinct(cs + [c])
    ensures Without(cs + [c], c.blockId) == cs
  {
    var all := cs + [c];
    var i := Find(all, c.blockId);
    assert all[|cs|] == c;
    assert i == |cs|;
  }

  lemma AppendOk(rest: seq<OpenTrace>, trace: OpenTrace, terminal: set<string>)
    requires TracesOk(rest, terminal) && trace.Valid(terminal)
    requires forall t | t in rest :: t.blockId != trace.blockId
    ensures TracesOk(rest + [trace], terminal) && ChunksOf(rest + [trace]) == ChunksOf(rest) + [trace.chunk]
  {
    ChunksOfAppend(rest, [trace]);
  }

  lemma OldestOk(traces: seq<OpenTrace>, terminal: set<string>)
    requires TracesOk(traces, terminal) && traces != []
    ensures traces[0].Valid(terminal) && ChunksOf(traces)[0] == traces[0].chunk
    ensures Without(ChunksOf(traces), traces[0].blockId) == ChunksOf(traces)[1..]
  {
    TracesValid(traces, traces[0], terminal);
    assert ChunksOf(traces) == [traces[0].chunk] + ChunksOf(traces)[1..];
    WithoutFound(traces[0].chunk, ChunksOf(traces)[1..]);
  }

  /** Popping the newest or the oldest key. */
  lemma EndsOk(traces: seq<OpenTrace>, rest: seq<Chunk>, trace: OpenTrace, terminal: set<string>)
    requires TracesOk(traces, terminal) && traces != [] && trace == traces[|traces| - 1]
    requires ChunksOf(traces) == rest + [trace.chunk]
    ensures trace.Valid(terminal) && traces[0].Valid(terminal)
    ensures Without(rest + [trace.chunk], trace.blockId) == rest
    ensures ChunksOf(traces)[0] == traces[0].chunk
    ensures Without(ChunksOf(traces), traces[0].blockId) == ChunksOf(traces)[1..]
  {
    TracesValid(traces, trace, terminal);
    DistinctChunks(traces, terminal);
    WithoutLast(rest, trace.chunk);
    OldestOk(traces, terminal);
  }

  // ---------- the janitor's two loops against one sweep ----------

  lemma {:induction false} DueAppend(cfg: Settings, latest: real, a: seq<Chunk>, b: seq<Chunk>)
    ensures Due(cfg, latest, a + b) == Due(cfg, latest, a) + Due(cfg, latest, b)
  {
    if a == [] {
      assert a + b == b;
    } else {
      assert (a + b)[1..] == a[1..] + b;
      DueAppend(cfg, latest, a[1..], b);
    }
  }

  lemma {:induction false} DueMembers(cfg: Settings, latest: real, open: seq<Chunk>)
    ensures forall e | e in Due(cfg, latest, open) :: e.chunk in open
  {
    if open == [] {
    } else {
      DueMembers(cfg, latest, open[1..]);
    }
  }

  lemma {:induction false} SweepFirst(cfg: Settings, latest: real, open: seq<Chunk>, k: nat)
    requires k <= |Due(cfg, latest, open)|
    ensures ToClose(cfg, latest, open, k) == Due(cfg, latest, open)[..k]
  {
    if open == [] || k == 0 {
    } else {
      SweepFirst(cfg, latest, open[1..], if Verdict(cfg, latest, open[0]).Some? then k - 1 else k);
    }
  }

  lemma SweepStays(cfg: Settings, latest: real, c: Chunk, rest: seq<Chunk>, k: nat)
    requires Verdict(cfg, latest, c).None?
    ensures ToKeep(cfg, latest, [c] + rest, k) == [c] + ToKeep(cfg, latest, rest, k)
    ensures Due(cfg, latest, [c] + rest) == Due(cfg, latest, rest)
  {
    assert ([c] + rest)[1..] == rest;
    SweepNothing(cfg, latest, rest);
  }

  lemma SweepCloses(cfg: Settings, latest: real, c: Chunk, rest: seq<Chunk>, k: nat)
    requires Verdict(cfg, latest, c).Some?
    ensures ToKeep(cfg, latest, [c] + rest, k + 1) == ToKeep(cfg, latest, rest, k)
    ensures Due(cfg, latest, [c] + rest) == [Closed(c, Verdict(cfg, latest, c).value)] + Due(cfg, latest, rest)
  {
    assert ([c] + rest)[1..] == rest;
  }

  lemma NextCloses(cfg: Settings, latest: real, c: Chunk, rest: seq<Chunk>, k: nat)
    requires k < |Due(cfg, latest, [c] + rest)| && Verdict(cfg, latest, c).Some?
    requires k > 0 ==> k - 1 < |Due(cfg, latest, rest)|
    requires k > 0 ==>
      (ToKeep(cfg, latest, rest, k) == Without(ToKeep(cfg, latest, rest, k - 1), Due(cfg, latest, rest)[k - 1].chunk.blockId))
    ensures ToKeep(cfg, latest, [c] + rest, k + 1)
         == Without(ToKeep(cfg, latest, [c] + rest, k), Due(cfg, latest, [c] + rest)[k].chunk.blockId)
  {
    SweepCloses(cfg, latest, c, rest, k);
    if k > 0 {
      SweepCloses(cfg, latest, c, rest, k - 1);
    } else {
      SweepNothing(cfg, latest, rest);
      WithoutFound(c, rest);
    }
  }

  lemma NextStays(cfg: Settings, latest: real, c: Chunk, rest: seq<Chunk>, k: nat)
    requires Distinct([c] + rest) && k < |Due(cfg, latest, rest)| && Verdict(cfg, latest, c).None?
    requires ToKeep(cfg, latest, rest, k + 1) == Without(ToKeep(cfg, latest, rest, k), Due(cfg, latest, rest)[k].chunk.blockId)
    ensures k < |Due(cfg, latest, [c] + rest)|
    ensures ToKeep(cfg, latest, [c] + rest, k + 1)
         == Without(ToKeep(cfg, latest, [c] + rest, k), Due(cfg, latest, [c] + rest)[k].chunk.blockId)
  {
    SweepStays(cfg, latest, c, rest, k);
    SweepStays(cfg, latest, c, rest, k + 1);
    DueElsewhere(cfg, latest, c, rest, k);
    WithoutHead(c, ToKeep(cfg, latest, rest, k), Due(cfg, latest, rest)[k].chunk.blockId);
  }

  /** One more closing of a pass pops one more key. */
  lemma {:induction false} SweepNext(cfg: Settings, latest: real, open: seq<Chunk>, k: nat)
    requires k < |Due(cfg, latest, open)| && Distinct(open)
    ensures ToKeep(cfg, latest, open, k + 1)
         == Without(ToKeep(cfg, latest, open, k), Due(cfg, latest, open)[k].chunk.blockId)
  {
    var c, rest := open[0], open[1..];
    assert open == [c] + rest;
    if Verdict(cfg, latest, c).Some? {
      if k > 0 { SweepNext(cfg, latest, rest, k - 1); }
      NextCloses(cfg, latest, c, rest, k);
    } else {
      SweepNext(cfg, latest, rest, k);
      NextStays(cfg, latest, c, rest, k);
    }
  }

  lemma DueElsewhere(cfg: Settings, latest: real, c: Chunk, rest: seq<Chunk>, k: nat)
    requires Distinct([c] + rest) && k < |Due(cfg, latest, rest)|
    ensures Due(cfg, latest, rest)[k].chunk.blockId != c.blockId
  {
    DueMembers(cfg, latest, rest);
    assert Due(cfg, latest, rest)[k] in Due(cfg, latest, rest);
    var i :| 0 <= i < |rest| && rest[i] == Due(cfg, latest, rest)[k].chunk;
    assert ([c] + rest)[0] == c && ([c] + rest)[i + 1] == rest[i];
  }

  /** The dictionary after popping the keys of the first `n` of `closed`. */
  function WithoutFirst(cs: seq<Chunk>, closed: seq<Closed>, n: nat): seq<Chunk>
    requires n <= |closed|
  {
    if n == 0 then cs else Without(WithoutFirst(cs, closed, n - 1), closed[n - 1].chunk.blockId)
  }

  lemma WithoutNext(cs: seq<Chunk>, closed: seq<Closed>, n: nat, kept: seq<Chunk>)
    requires 0 < n <= |closed| && kept == WithoutFirst(cs, closed, n - 1)
    ensures WithoutFirst(cs, closed, n) == Without(kept, closed[n - 1].chunk.blockId)
  {
  }

  /** One more closing, with the chunks closed and kept by name. */
  lemma PopsNext(cfg: Settings, latest: real, open: seq<Chunk>, n: nat, due: seq<Closed>, kept: seq<Chunk>)
    requires 0 < n <= |due| && due == Due(cfg, latest, open) && Distinct(open)
    requires kept == ToKeep(cfg, latest, open, n - 1)
    ensures ToKeep(cfg, latest, open, n) == Without(kept, due[n - 1].chunk.blockId)
  {
    SweepNext(cfg, latest, open, n - 1);
  }

  /** Closing the first `n` of a pass pops their keys one by one. */
  lemma {:induction false} SweepIsWithout(cfg: Settings, latest: real, open: seq<Chunk>, n: nat, due: seq<Closed>)
    requires due == Due(cfg, latest, open) && n <= |due| && Distinct(open)
    ensures ToKeep(cfg, latest, open, n) == WithoutFirst(open, due, n)
  {
    if n == 0 {
      SweepNothing(cfg, latest, open);
    } else {
      var kept := ToKeep(cfg, latest, open, n - 1);
      SweepIsWithout(cfg, latest, open, n - 1, due);
      PopsNext(cfg, latest, open, n, due, kept);
      WithoutNext(open, due, n, kept);
    }
  }

  lemma WithoutHead(c: Chunk, cs: seq<Chunk>, b: string)
    requires c.blockId != b
    ensures Without([c] + cs, b) == [c] + Without(cs, b)
  {
    var all := [c] + cs;
    var i := Find(cs, b);
    assert all[1..] == cs;
    assert Find(all, b) == i + 1;
    if i < |cs| { assert all[..i + 1] == [c] + cs[..i] && all[i + 2..] == cs[i + 1..]; }
  }

  lemma WithoutFound(c: Chunk, cs: seq<Chunk>)
    ensures Without([c] + cs, c.blockId) == cs
  {
    assert Find([c] + cs, c.blockId) == 0;
  }

  lemma {:induction false} SweepCapped(cfg: Settings, latest: real, open: seq<Chunk>, k: nat)
    requires k >= |Due(cfg, latest, open)|
    ensures ToClose(cfg, latest, open, k) == ToClose(cfg, latest, open, |Due(cfg, latest, open)|)
    ensures ToKeep(cfg, latest, open, k) == ToKeep(cfg, latest, open, |Due(cfg, latest, open)|)
  {
    if open == [] {
    } else {
      var d := |Due(cfg, latest, open[1..])|;
      if Verdict(cfg, latest, open[0]).Some? {
        SweepCapped(cfg, latest, open[1..], k - 1);
      } else {
        SweepCapped(cfg, latest, open[1..], k);
        if d == 0 && k > 0 { SweepNothing(cfg, latest, open[1..]); }
      }
    }
  }

  lemma {:induction false} SweepNothing(cfg: Settings, latest: real, open: seq<Chunk>)
    ensures ToKeep(cfg, latest, open, 0) == open && ToClose(cfg, latest, open, 0) == []
  {
  }

  /** The closing list of a pass, as chunks. */
  ghost function Pairs(ps: seq<(OpenTrace, Reason)>): (cs: seq<Closed>)
    reads set p | p in ps :: p.0
    ensures |cs| == |ps|
  {
    if ps == [] then [] else [Closed(ps[0].0.chunk, ps[0].1)] + Pairs(ps[1..])
  }

  lemma {:induction false} PairsAppend(a: seq<(OpenTrace, Reason)>, b: seq<(OpenTrace, Reason)>)
    ensures Pairs(a + b) == Pairs(a) + Pairs(b)
  {
    if a == [] {
      assert a + b == b;
    } else {
      assert (a + b)[1..] == a[1..] + b;
      PairsAppend(a[1..], b);
    }
  }

  ghost predicate Ready(p: (OpenTrace, Reason), c: Closed, terminal: set<string>)
    reads p.0
  {
    p.0.Valid(terminal) && c == Closed(p.0.chunk, p.1)
  }

  lemma {:induction false} PairAt(ps: seq<(OpenTrace, Reason)>, i: nat)
    requires i < |ps|
    ensures Pairs(ps)[i] == Closed(ps[i].0.chunk, ps[i].1)
  {
    if i == 0 {
    } else {
      PairAt(ps[1..], i - 1);
    }
  }

  lemma PairsReady(ps: seq<(OpenTrace, Reason)>, terminal: set<string>)
    requires forall p | p in ps :: p.0.Valid(terminal)
    ensures forall i | 0 <= i < |ps| :: Ready(ps[i], Pairs(ps)[i], terminal)
  {
    forall i | 0 <= i < |ps| ensures Ready(ps[i], Pairs(ps)[i], terminal) {
      PairAt(ps, i);
      assert ps[i] in ps;
    }
  }

  lemma DueNext(cfg: Settings, latest: real, traces: seq<OpenTrace>, i: nat)
    requires i < |traces|
    ensures var cs := ChunksOf(traces); var v := Verdict(cfg, latest, traces[i].chunk);
      Due(cfg, latest, cs[..i + 1]) == Due(cfg, latest, cs[..i]) + if v.Some? then [Closed(traces[i].chunk, v.value)] else []
  {
    var cs := ChunksOf(traces);
    ChunkAt(traces, i);
    assert cs[..i + 1] == cs[..i] + [cs[i]];
    DueAppend(cfg, latest, cs[..i], [cs[i]]);
    assert [cs[i]][1..] == [];
  }

  // ---------- the stage ----------

  class BlockSessionizerStage {
    const cfg: Settings
    var open: seq<OpenTrace>
    var latestLogTs: Option<real>
    var tracesEmitted: nat
    var published: seq<BlockTrace>   // what the bus was given
    ghost var emitted: seq<Closed>

    ghost predicate Valid()
      reads this, open
    {
      TracesOk(open, cfg.terminal) && Sealed(published, emitted) && tracesEmitted == |published|
    }

    ghost function Abs(): State
      reads this, open
    {
      State(ChunksOf(open), latestLogTs, emitted)
    }

    constructor (cfg: Settings)
      requires cfg.Valid()
      ensures this.cfg == cfg && Valid() && Abs() == Fresh && fresh(open)
    {
      this.cfg := cfg;
      open, latestLogTs, tracesEmitted, published, emitted := [], None, 0, [], [];
    }

    method Emit(trace: OpenTrace, reason: Reason)
      requires trace.Valid(cfg.terminal) && Sealed(published, emitted) && tracesEmitted == |published|
      modifies this`tracesEmitted, this`published, this`emitted
      ensures emitted == old(emitted) + [Closed(trace.chunk, reason)]
      ensures Sealed(published, emitted) && tracesEmitted == |published|
    {
      var bt := BlockTrace(trace.blockId, trace.events, trace.recordIds, trace.firstTs, trace.lastTs,
                           |trace.recordIds|, reason);
      tracesEmitted := tracesEmitted + 1;
      published := published + [bt];
      emitted := emitted + [Closed(trace.chunk, reason)];
    }

    method NoteTime(ts: Option<real>)
      modifies this`latestLogTs
      ensures latestLogTs == Later(old(latestLogTs), ts)
    {
      if ts.Some? && (latestLogTs.None? || ts.value > latestLogTs.value) {
        latestLogTs := ts;
      }
    }

    /** The body of `process` under the lock. `now1` and `now2` are the wall clock for a trace that an
        undated record opens. */
    method ProcessRecord(r: Record, now1: real, now2: real)
      requires Valid()
      modifies this, open
      ensures Valid() && Abs() == Process(cfg, old(Abs()), r, now1, now2)
      ensures forall t | t in open :: t in old(open) || fresh(t)
    {
      if r.block.None? || r.block.value == "" {
        return;
      }
      var b := r.block.value;
      NoteTime(r.ts);
      var trace, others := Touch(b, r, now1, now2);
      ghost var touched := open;
      SettleTrace(trace, others);
      AmongAll(open, touched);
    }

    method FindOrOpen(b: string, r: Record, now1: real, now2: real) returns (trace: OpenTrace)
      requires TracesOk(open, cfg.terminal)
      ensures trace.Valid(cfg.terminal) && trace.blockId == b && (trace in open || fresh(trace))
      ensures var i := Position(open, b);
        if i < |open| then trace == open[i] else trace.chunk == Chunk(b, [], GetOr(r.ts, now1), GetOr(r.ts, now2))
    {
      var i := Position(open, b);
      if i < |open| {
        trace := open[i];
        TracesValid(open, trace, cfg.terminal);
      } else {
        trace := new OpenTrace(b, GetOr(r.ts, now1), GetOr(r.ts, now2));
      }
    }

    /** Finds or opens the trace of `b` and moves it to the recent end. */
    method Lookup(b: string, r: Record, now1: real, now2: real) returns (trace: OpenTrace, ghost rest: seq<OpenTrace>)
      requires TracesOk(open, cfg.terminal)
      modifies this`open
      ensures TracesOk(open, cfg.terminal) && open == rest + [trace] && trace !in rest
      ensures trace.chunk.(records := trace.chunk.records + [r]) == Touched(ChunksOf(old(open)), b, r, now1, now2)
      ensures ChunksOf(rest) == Without(ChunksOf(old(open)), b)
      ensures forall t | t in open :: t in old(open) || fresh(t)
    {
      trace := FindOrOpen(b, r, now1, now2);
      rest := Removed(open, b);
      LookupOk(open, trace, b, r, now1, now2, cfg.terminal);
      open := Removed(open, b) + [trace];
    }

    method Touch(b: string, r: Record, now1: real, now2: real) returns (trace: OpenTrace, ghost others: seq<Chunk>)
      requires TracesOk(open, cfg.terminal)
      modifies this`open, open
      ensures TracesOk(open, cfg.terminal) && open != [] && trace == open[|open| - 1]
      ensures trace.chunk == Touched(old(ChunksOf(open)), b, r, now1, now2)
      ensures others == Without(old(ChunksOf(open)), b) && ChunksOf(open) == others + [trace.chunk]
      ensures forall t | t in open :: t in old(open) || fresh(t)
    {
      ghost var rest;
      trace, rest := Lookup(b, r, now1, now2);
      others := ChunksOf(rest);
      SplitOk(rest, trace, cfg.terminal);
      assert trace in open;
      trace.TakeIn(cfg.terminal, r);
      AppendOk(rest, trace, cfg.terminal);
    }

    /** `self._open.pop(key)` followed by `_emit`. */
    method PopAndEmit(trace: OpenTrace, reason: Reason, ghost left: seq<Chunk>)
      requires Valid() && trace.Valid(cfg.terminal) && left == Without(ChunksOf(open), trace.blockId)
      modifies this
      ensures Valid() && latestLogTs == old(latestLogTs) && emitted == old(emitted) + [Closed(trace.chunk, reason)]
      ensures ChunksOf(open) == left && Among(open, old(open))
    {
      RemovedOk(open, trace.blockId, cfg.terminal);
      AmongAll(Removed(open, trace.blockId), open);
      open := Removed(open, trace.blockId);
      Emit(trace, reason);
    }

    /** The hard cap, or else LRU eviction, for the trace just touched. */
    method SettleTrace(trace: OpenTrace, ghost rest: seq<Chunk>)
      requires Valid() && open != [] && trace == open[|open| - 1] && ChunksOf(open) == rest + [trace.chunk]
      modifies this
      ensures Valid() && latestLogTs == old(latestLogTs) && Among(open, old(open))
      ensures Abs() == Settle(cfg, rest, trace.chunk, latestLogTs, old(emitted))
    {
      EndsOk(open, rest, trace, cfg.terminal);
      AmongAll(open, open);
      assert trace.events == Events(trace.chunk.records);
      if |trace.events| >= cfg.maxPerTrace {
        PopAndEmit(trace, Evicted, rest);
      } else if |open| > cfg.maxOpen {
        PopAndEmit(open[0], Evicted, (rest + [trace.chunk])[1..]);
      }
    }

    /** The first loop of `_janitor_pass`: what to close, and why. */
    method ListDue(latest: real) returns (toClose: seq<(OpenTrace, Reason)>)
      requires TracesOk(open, cfg.terminal)
      ensures forall p | p in toClose :: p.0.Valid(cfg.terminal)
      ensures Pairs(toClose) == Due(cfg, latest, ChunksOf(open))
    {
      var cutoff := latest - cfg.idleWindow;
      ghost var chunks := ChunksOf(open);
      toClose := [];
      for i := 0 to |open|
        invariant forall p | p in toClose :: p.0.Valid(cfg.terminal)
        invariant Pairs(toClose) == Due(cfg, latest, chunks[..i])
      {
        var trace := open[i];
        DueNext(cfg, latest, open, i);
        TracesValid(open, trace, cfg.terminal);
        if trace.terminalSeen {
          PairsAppend(toClose, [(trace, Terminal)]);
          toClose := toClose + [(trace, Terminal)];
        } else if trace.lastTs < cutoff {
          PairsAppend(toClose, [(trace, Timeout)]);
          toClose := toClose + [(trace, Timeout)];
        }
      }
      assert chunks[..|open|] == chunks;
    }

    /** One round of the second loop; closing a trace changes no other. */
    method CloseNext(toClose: seq<(OpenTrace, Reason)>, ghost pairs: seq<Closed>, ghost chunks: seq<Chunk>,
                     ghost sent: seq<Closed>, j: nat)
      requires Valid() && j < |toClose| == |pairs|
      requires forall i | 0 <= i < |toClose| :: Ready(toClose[i], pairs[i], cfg.terminal)
      requires ChunksOf(open) == WithoutFirst(chunks, pairs, j) && emitted == sent + pairs[..j]
      modifies this
      ensures Valid() && latestLogTs == old(latestLogTs)
      ensures forall i | 0 <= i < |toClose| :: Ready(toClose[i], pairs[i], cfg.terminal)
      ensures ChunksOf(open) == WithoutFirst(chunks, pairs, j + 1) && emitted == sent + pairs[..j + 1]
    {
      PopAndEmit(toClose[j].0, toClose[j].1, WithoutFirst(chunks, pairs, j + 1));
      Extends(sent, pairs, j);
    }

    /** The second loop of `_janitor_pass`, as far as it gets. */
    method CloseFirst(toClose: seq<(OpenTrace, Reason)>, n: nat, ghost pairs: seq<Closed>, ghost chunks: seq<Chunk>)
      requires Valid() && n <= |toClose| == |pairs| && ChunksOf(open) == chunks
      requires forall i | 0 <= i < |toClose| :: Ready(toClose[i], pairs[i], cfg.terminal)
      modifies this
      ensures Valid() && latestLogTs == old(latestLogTs)
      ensures ChunksOf(open) == WithoutFirst(chunks, pairs, n)
      ensures emitted == old(emitted) + pairs[..n]
    {
      ghost var sent := emitted;
      assert sent == sent + pairs[..0];
      for j := 0 to n
        invariant Valid() && latestLogTs == old(latestLogTs)
        invariant forall i | 0 <= i < |toClose| :: Ready(toClose[i], pairs[i], cfg.terminal)
        invariant ChunksOf(open) == WithoutFirst(chunks, pairs, j)
        invariant emitted == sent + pairs[..j]
      {
        CloseNext(toClose, pairs, chunks, sent, j);
      }
    }

    /** `_janitor_pass`: first the list of traces to close, then closing them one by one.  `interrupted`
        is how many it gets to close before `stop` cancels it, if that is fewer. */
    method JanitorPass(interrupted: nat)
      requires Valid()
      modifies this
      ensures Valid() && Abs() == Janitor(cfg, old(Abs()), interrupted)
    {
      if latestLogTs.None? {
        return;
      }
      var latest := latestLogTs.value;
      var toClose := ListDue(latest);
      var n := if interrupted < |toClose| then interrupted else |toClose|;
      ghost var chunks := ChunksOf(open);
      DistinctChunks(open, cfg.terminal);
      SweepFirst(cfg, latest, chunks, n);
      SweepIsWithout(cfg, latest, chunks, n, Due(cfg, latest, chunks));
      if interrupted > n { SweepCapped(cfg, latest, chunks, interrupted); }
      ghost var pairs := Pairs(toClose);
      PairsReady(toClose, cfg.terminal);
      CloseFirst(toClose, n, pairs, chunks);
    }

    /** `stop` after the janitor is gone: every open trace is popped and emitted. */
    method StopStage()
      requires Valid()
      modifies this
      ensures Valid() && Abs() == Stop(old(Abs()))
    {
      ghost var chunks, sent := ChunksOf(open), emitted;
      var n := |open|;
      for j := 0 to n
        invariant Valid() && latestLogTs == old(latestLogTs) && |open| == n - j
        invariant ChunksOf(open) == chunks[j..] && emitted == sent + CloseAll(chunks, Shutdown)[..j]
      {
        OldestOk(open, cfg.terminal);
        Extends(sent, CloseAll(chunks, Shutdown), j);
        PopAndEmit(open[0], Shutdown, chunks[j + 1..]);
      }
    }
  }
}
