/** What every run of the sessionizer keeps. */
module SessionTheorems {
  import opened Wrappers
  import opened SessionModel

  // ---------- concatenating the chunks of one block ----------

  function Chunks(cs: seq<Closed>): seq<Chunk> {
    if cs == [] then [] else [cs[0].chunk] + Chunks(cs[1..])
  }

  lemma {:induction false} ChunksAppend(a: seq<Closed>, b: seq<Closed>)
    ensures Chunks(a + b) == Chunks(a) + Chunks(b)
  {
    if a == [] {
      assert a + b == b;
    } else {
      assert (a + b)[1..] == a[1..] + b;
      ChunksAppend(a[1..], b);
    }
  }

  lemma {:induction false} ChunksAt(cs: seq<Closed>)
    ensures |Chunks(cs)| == |cs| && forall i | 0 <= i < |cs| :: Chunks(cs)[i] == cs[i].chunk
  {
    if cs == [] {
    } else {
      ChunksAt(cs[1..]);
    }
  }

  /** The records of block `b` in a list of chunks. */
  function Concat(cs: seq<Chunk>, b: string): seq<Record> {
    if cs == [] then [] else (if cs[0].blockId == b then cs[0].records else []) + Concat(cs[1..], b)
  }

  lemma {:induction false} ConcatAppend(a: seq<Chunk>, c: seq<Chunk>, b: string)
    ensures Concat(a + c, b) == Concat(a, b) + Concat(c, b)
  {
    if a == [] {
      assert a + c == c;
    } else {
      assert (a + c)[1..] == a[1..] + c;
      ConcatAppend(a[1..], c, b);
    }
  }

  predicate NoneOf(cs: seq<Chunk>, b: string) {
    forall i | 0 <= i < |cs| :: cs[i].blockId != b
  }

  lemma {:induction false} ConcatNone(cs: seq<Chunk>, b: string)
    requires NoneOf(cs, b)
    ensures Concat(cs, b) == []
  {
    if cs == [] {
    } else {
      ConcatNone(cs[1..], b);
    }
  }

  predicate Distinct(cs: seq<Chunk>) {
    forall i, j | 0 <= i < j < |cs| :: cs[i].blockId != cs[j].blockId
  }

  lemma WithoutProperties(open: seq<Chunk>, b: string)
    requires Distinct(open)
    ensures Distinct(Without(open, b)) && NoneOf(Without(open, b), b)
    ensures forall c :: c in Without(open, b) ==> c in open
    ensures Concat(Without(open, b), b) == []
  {
    ConcatNone(Without(open, b), b);
  }

  lemma ConcatSplit(open: seq<Chunk>, i: nat, b: string)
    requires i < |open|
    ensures Concat(open, b)
         == Concat(open[..i], b) + (if open[i].blockId == b then open[i].records else []) + Concat(open[i + 1..], b)
  {
    assert open == open[..i] + open[i..];
    ConcatAppend(open[..i], open[i..], b);
  }

  /** Taking `b`'s chunk out of the dictionary changes nothing for the other blocks, and for `b` it
      takes out exactly that chunk. */
  lemma ConcatWithout(open: seq<Chunk>, b: string, other: string)
    requires Distinct(open)
    ensures other != b ==> Concat(Without(open, b), other) == Concat(open, other)
    ensures Concat(open, b) == if Find(open, b) < |open| then open[Find(open, b)].records else []
  {
    var i := Find(open, b);
    if i < |open| {
      ConcatSplit(open, i, b);
      ConcatNone(open[..i], b);
      ConcatNone(open[i + 1..], b);
      ConcatSplit(open, i, other);
      ConcatAppend(open[..i], open[i + 1..], other);
    } else {
      ConcatNone(open, b);
    }
  }

  // ---------- conservation ----------

  /** The chunks of `b` that were emitted, in order, and then its open one. */
  function Taken(s: State, b: string): seq<Record> {
    Concat(Chunks(s.emitted), b) + Concat(s.open, b)
  }

  lemma SettleDistinct(cfg: Settings, rest: seq<Chunk>, c: Chunk, latest: Option<real>, emitted: seq<Closed>)
    requires Distinct(rest) && NoneOf(rest, c.blockId)
    ensures Distinct(Settle(cfg, rest, c, latest, emitted).open)
  {
    var all := rest + [c];
    assert Distinct(all);
    assert Distinct(all[1..]);
  }

  lemma ProcessDistinct(cfg: Settings, s: State, r: Record, now1: real, now2: real)
    requires Distinct(s.open)
    ensures Distinct(Process(cfg, s, r, now1, now2).open)
  {
    if HasBlock(r) {
      var b := r.block.value;
      WithoutProperties(s.open, b);
      SettleDistinct(cfg, Without(s.open, b), Touched(s.open, b, r, now1, now2), Later(s.latest, r.ts), s.emitted);
    }
  }

  lemma TouchedTakes(open: seq<Chunk>, k: string, r: Record, now1: real, now2: real, b: string)
    requires Distinct(open)
    ensures var c := Touched(open, k, r, now1, now2);
      && Concat([c], b) + Concat(Without(open, k), b) == Concat(open, b) + (if k == b then [r] else [])
      && Concat(Without(open, k) + [c], b) == Concat(open, b) + (if k == b then [r] else [])
  {
    var c := Touched(open, k, r, now1, now2);
    ConcatWithout(open, k, b);
    WithoutProperties(open, k);
    ConcatAppend(Without(open, k), [c], b);
    assert [c][1..] == [];
    assert Concat([c], b) == if k == b then c.records else [];
  }

  /** Closing the first chunk of a list moves it from the open chunks to the emitted ones. */
  lemma EmitTakes(emitted: seq<Closed>, c: Chunk, rest: seq<Chunk>, reason: Reason, b: string)
    ensures Concat(Chunks(emitted + [Closed(c, reason)]), b) + Concat(rest, b)
         == Concat(Chunks(emitted), b) + (Concat([c], b) + Concat(rest, b))
  {
    ChunksAppend(emitted, [Closed(c, reason)]);
    assert [Closed(c, reason)][1..] == [];
    assert Chunks([Closed(c, reason)]) == [c];
    ConcatAppend(Chunks(emitted), [c], b);
  }

  lemma SettleTakes(cfg: Settings, rest: seq<Chunk>, c: Chunk, latest: Option<real>, emitted: seq<Closed>,
                    b: string, taken: seq<Record>)
    requires Concat([c], b) + Concat(rest, b) == taken && Concat(rest + [c], b) == taken
    ensures Taken(Settle(cfg, rest, c, latest, emitted), b) == Concat(Chunks(emitted), b) + taken
  {
    var all := rest + [c];
    if |Events(c.records)| >= cfg.maxPerTrace {
      EmitTakes(emitted, c, rest, Evicted, b);
    } else if |all| > cfg.maxOpen {
      EmitTakes(emitted, all[0], all[1..], Evicted, b);
      assert all == [all[0]] + all[1..];
      ConcatAppend([all[0]], all[1..], b);
    }
  }

  lemma ProcessTakes(cfg: Settings, s: State, r: Record, now1: real, now2: real, b: string)
    requires Distinct(s.open)
    ensures Taken(Process(cfg, s, r, now1, now2), b)
         == Taken(s, b) + if HasBlock(r) && r.block.value == b then [r] else []
  {
    if HasBlock(r) {
      var k := r.block.value;
      var taken := Concat(s.open, b) + if k == b then [r] else [];
      TouchedTakes(s.open, k, r, now1, now2, b);
      SettleTakes(cfg, Without(s.open, k), Touched(s.open, k, r, now1, now2), Later(s.latest, r.ts), s.emitted, b, taken);
      assert Concat(Chunks(s.emitted), b) + taken == Taken(s, b) + if k == b then [r] else [];
    }
  }

  lemma {:induction false} SweepSubset(cfg: Settings, latest: real, open: seq<Chunk>, k: nat, b: string)
    ensures NoneOf(open, b) ==> NoneOf(ToKeep(cfg, latest, open, k), b) && NoneOf(Chunks(ToClose(cfg, latest, open, k)), b)
  {
    if open == [] || k == 0 {
    } else {
      SweepSubset(cfg, latest, open[1..], k - 1, b);
      SweepSubset(cfg, latest, open[1..], k, b);
      if NoneOf(open, b) { assert open[0].blockId != b && NoneOf(open[1..], b); }
    }
  }

  lemma {:induction false} SweepDistinct(cfg: Settings, latest: real, open: seq<Chunk>, k: nat)
    requires Distinct(open)
    ensures Distinct(ToKeep(cfg, latest, open, k))
  {
    if open == [] || k == 0 {
    } else {
      if Verdict(cfg, latest, open[0]).Some? {
        SweepDistinct(cfg, latest, open[1..], k - 1);
      } else {
        SweepDistinct(cfg, latest, open[1..], k);
        SweepSubset(cfg, latest, open[1..], k, open[0].blockId);
      }
    }
  }

  lemma ConcatHead(c: Chunk, cs: seq<Chunk>, b: string)
    ensures Concat([c] + cs, b) == (if c.blockId == b then c.records else []) + Concat(cs, b)
  {
    assert ([c] + cs)[1..] == cs;
  }

  lemma ChunksHead(e: Closed, cs: seq<Closed>)
    ensures Chunks([e] + cs) == [e.chunk] + Chunks(cs)
  {
    assert ([e] + cs)[1..] == cs;
  }

  lemma ClosedTakes(c: Chunk, reason: Reason, closed: seq<Closed>, kept: seq<Chunk>, b: string)
    ensures Concat(Chunks([Closed(c, reason)] + closed), b) + Concat(kept, b)
         == (if c.blockId == b then c.records else []) + (Concat(Chunks(closed), b) + Concat(kept, b))
  {
    ChunksHead(Closed(c, reason), closed);
    ConcatHead(c, Chunks(closed), b);
  }

  lemma KeptTakes(c: Chunk, closed: seq<Closed>, kept: seq<Chunk>, b: string)
    requires NoneOf(Chunks(closed), c.blockId)
    ensures Concat(Chunks(closed), b) + Concat([c] + kept, b)
         == (if c.blockId == b then c.records else []) + (Concat(Chunks(closed), b) + Concat(kept, b))
  {
    ConcatHead(c, kept, b);
    if b == c.blockId { ConcatNone(Chunks(closed), b); }
  }

  lemma {:induction false} SweepTakes(cfg: Settings, latest: real, open: seq<Chunk>, k: nat, b: string)
    requires Distinct(open)
    ensures Concat(Chunks(ToClose(cfg, latest, open, k)), b) + Concat(ToKeep(cfg, latest, open, k), b) == Concat(open, b)
  {
    if open == [] || k == 0 {
    } else {
      var rest := open[1..];
      var v := Verdict(cfg, latest, open[0]);
      if v.Some? {
        SweepTakes(cfg, latest, rest, k - 1, b);
        ClosedTakes(open[0], v.value, ToClose(cfg, latest, rest, k - 1), ToKeep(cfg, latest, rest, k - 1), b);
      } else {
        SweepTakes(cfg, latest, rest, k, b);
        SweepSubset(cfg, latest, rest, k, open[0].blockId);
        KeptTakes(open[0], ToClose(cfg, latest, rest, k), ToKeep(cfg, latest, rest, k), b);
      }
    }
  }

  lemma {:induction false} ChunksOfAll(open: seq<Chunk>, reason: Reason)
    ensures Chunks(CloseAll(open, reason)) == open
  {
    if open == [] {
    } else {
      assert CloseAll(open, reason)[1..] == CloseAll(open[1..], reason);
      ChunksOfAll(open[1..], reason);
    }
  }

  lemma StepTakes(cfg: Settings, s: State, call: Call, b: string)
    requires Distinct(s.open)
    ensures Distinct(Step(cfg, s, call).open)
    ensures Taken(Step(cfg, s, call), b) == Taken(s, b) + Stream(Input(call), b)
  {
    match call
    case ProcessCall(r, now1, now2) =>
      ProcessDistinct(cfg, s, r, now1, now2);
      ProcessTakes(cfg, s, r, now1, now2, b);
      assert [r][..0] == [];
    case JanitorCall(k) =>
      if s.latest.Some? {
        var closed := ToClose(cfg, s.latest.value, s.open, k);
        SweepDistinct(cfg, s.latest.value, s.open, k);
        SweepTakes(cfg, s.latest.value, s.open, k, b);
        ChunksAppend(s.emitted, closed);
        ConcatAppend(Chunks(s.emitted), Chunks(closed), b);
      }
    case StopCall =>
      ChunksOfAll(s.open, Shutdown);
      ChunksAppend(s.emitted, CloseAll(s.open, Shutdown));
      ConcatAppend(Chunks(s.emitted), s.open, b);
  }

  lemma {:induction false} StreamAppend(a: seq<Record>, c: seq<Record>, b: string)
    ensures Stream(a + c, b) == Stream(a, b) + Stream(c, b)
  {
    if c == [] {
      assert a + c == a;
    } else {
      var n := |c| - 1;
      assert (a + c)[..|a + c| - 1] == a + c[..n];
      StreamAppend(a, c[..n], b);
    }
  }

  /** Whatever the order of the calls, the emitted chunks of a block and then its open one are exactly
      the records that arrived for it, in order. */
  lemma {:induction false} NothingLost(cfg: Settings, calls: seq<Call>, b: string)
    ensures Distinct(Run(cfg, calls).open)
    ensures Taken(Run(cfg, calls), b) == Stream(Inputs(calls), b)
  {
    if calls == [] {
    } else {
      var n := |calls| - 1;
      NothingLost(cfg, calls[..n], b);
      StepTakes(cfg, Run(cfg, calls[..n]), calls[n], b);
      StreamAppend(Inputs(calls[..n]), Input(calls[n]), b);
    }
  }
}
