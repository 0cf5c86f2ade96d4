/** From the training log to the online detector: however the sessionizer cuts up a block, a block that
    was trained as Normal never fires. */
module EndToEnd {
  import opened Wrappers
  import opened HdfsParsing
  import opened Templates
  import opened Sequence
  import opened Training
  import S = SessionModel
  import SessionTheorems
  import SessionTraces

  // ---------- online records ----------

  /** What the parser and the template stage make of a line before it reaches the sessionizer; an empty
      line is skipped by the source and an unparsable one dropped. */
  function OnlineRecord(id: nat, line: string, patterns: seq<Pattern>, strptime: string -> Option<real>): seq<S.Record>
    requires TableOk(patterns)
  {
    var raw := RStripNewlines(line);
    if raw == "" then [] else
    var record := Parse(raw, strptime);
    if record.None? then [] else
    [S.Record(id, record.value.blockId, FirstMatch(patterns, record.value.message), Some(record.value.timestamp))]
  }

  function OnlineRecords(lines: seq<string>, patterns: seq<Pattern>, strptime: string -> Option<real>): seq<S.Record>
    requires TableOk(patterns)
  {
    if lines == [] then []
    else var n := |lines| - 1;
      OnlineRecords(lines[..n], patterns, strptime) + OnlineRecord(n, lines[n], patterns, strptime)
  }

  lemma {:induction false} FirstMatchNonEmpty(patterns: seq<Pattern>, message: string)
    requires TableOk(patterns)
    ensures FirstMatch(patterns, message) != Some("")
  {
    if patterns == [] {
    } else {
      assert patterns[0] in patterns;
      FirstMatchNonEmpty(patterns[1..], message);
    }
  }

  /** The trainer and the online stages see the same events for every block of a log. */
  lemma {:induction false} TrainerSeesOnlineEvents(lines: seq<string>, b: string, patterns: seq<Pattern>,
                                                    strptime: string -> Option<real>)
    requires TableOk(patterns)
    ensures S.Events(S.Stream(OnlineRecords(lines, patterns, strptime), b)) == EventsOf(lines, b, patterns, strptime)
  {
    if lines == [] {
    } else {
      var n := |lines| - 1;
      var before := OnlineRecords(lines[..n], patterns, strptime);
      var last := OnlineRecord(n, lines[n], patterns, strptime);
      TrainerSeesOnlineEvents(lines[..n], b, patterns, strptime);
      SessionTheorems.StreamAppend(before, last, b);
      SessionTraces.EventsAppend(S.Stream(before, b), S.Stream(last, b));
      OneLine(n, lines[n], b, patterns, strptime);
    }
  }

  /** What one record adds to the events of block `b`. */
  lemma OneRecordEvents(r: S.Record, b: string)
    ensures S.Events(S.Stream([r], b)) == if r.block == Some(b) then S.Event(r) else []
  {
    assert [r][..0] == [];
    if r.block == Some(b) { assert S.Stream([r], b) == [r]; }
  }

  lemma NoRecordEvents(b: string)
    ensures S.Events(S.Stream([], b)) == []
  {
  }

  /** ... and what it adds when it came from a line with block `block` and event `event`. */
  lemma OneEventOf(id: nat, block: Option<string>, event: Option<string>, ts: real, b: string)
    requires event != Some("")
    ensures S.Events(S.Stream([S.Record(id, block, event, Some(ts))], b))
         == if block == Some(b) && event.Some? then [event.value] else []
  {
    OneRecordEvents(S.Record(id, block, event, Some(ts)), b);
  }

  lemma OneLine(id: nat, line: string, b: string, patterns: seq<Pattern>, strptime: string -> Option<real>)
    requires TableOk(patterns)
    ensures var e := LineEvent(line, patterns, strptime);
      S.Events(S.Stream(OnlineRecord(id, line, patterns, strptime), b))
      == if e.Some? && e.value.0 == b then [e.value.1] else []
  {
    var raw := RStripNewlines(line);
    var record := Parse(raw, strptime);
    if raw == "" || record.None? {
      NoRecordEvents(b);
    } else {
      var block, event := record.value.blockId, FirstMatch(patterns, record.value.message);
      FirstMatchNonEmpty(patterns, record.value.message);
      OneEventOf(id, block, event, record.value.timestamp, b);
    }
  }

  // ---------- fragments of a trained block ----------

  predicate IsNormalModel(model: SequenceModel, blockEvents: map<string, seq<string>>, labels: map<string, string>) {
    forall b | b in blockEvents && b in labels && labels[b] == "Normal" ::
      GramSet(blockEvents[b], model.n) <= model.normalNgrams
  }

  /** Every published trace is a piece of its block's event sequence. */
  lemma FragmentEvents(cfg: S.Settings, calls: seq<S.Call>, i: nat, n: int)
    requires i < |S.Run(cfg, calls).emitted|
    ensures var e := S.Run(cfg, calls).emitted[i];
      GramSet(S.Seal(e).eventSequence, n) <= GramSet(S.Events(S.Stream(S.Inputs(calls), e.chunk.blockId)), n)
  {
    var records := S.Run(cfg, calls).emitted[i].chunk.records;
    var before, after := SessionTraces.TraceIsFragment(cfg, calls, i);
    SessionTraces.EventsAppend(before, records);
    SessionTraces.EventsAppend(before + records, after);
    FragmentGrams(S.Events(before), S.Events(records), S.Events(after), n);
  }

  /** However process, cap, LRU, janitor and stop cut up a block whose events are those of a block
      labelled Normal in training, none of its traces fires at any threshold. */
  lemma TrainedNormalNeverFires(cfg: S.Settings, calls: seq<S.Call>, i: nat, model: SequenceModel,
                                blockEvents: map<string, seq<string>>, labels: map<string, string>, b: string,
                                threshold: real, freshId: nat)
    requires i < |S.Run(cfg, calls).emitted| && threshold >= 0.0
    requires IsNormalModel(model, blockEvents, labels)
    requires b in blockEvents && b in labels && labels[b] == "Normal"
    requires var e := S.Run(cfg, calls).emitted[i];
      S.Events(S.Stream(S.Inputs(calls), e.chunk.blockId)) == blockEvents[b]
    ensures DetectTrace(model, threshold, S.Seal(S.Run(cfg, calls).emitted[i]), freshId).None?
  {
    FragmentEvents(cfg, calls, i, model.n);
    NothingNovelNeverFires(model, threshold, S.Seal(S.Run(cfg, calls).emitted[i]), freshId);
  }

  /** At threshold 0, if a fragment of a block fires then so would the block's whole event sequence. */
  lemma FragmentFiresThenWholeFires(cfg: S.Settings, calls: seq<S.Call>, i: nat, model: SequenceModel,
                                    whole: S.BlockTrace, freshId: nat)
    requires i < |S.Run(cfg, calls).emitted|
    requires whole.eventSequence == S.Events(S.Stream(S.Inputs(calls), S.Run(cfg, calls).emitted[i].chunk.blockId))
    requires DetectTrace(model, 0.0, S.Seal(S.Run(cfg, calls).emitted[i]), freshId).Some?
    ensures DetectTrace(model, 0.0, whole, freshId).Some?
  {
    FragmentEvents(cfg, calls, i, model.n);
    FiresAtZero(model, S.Seal(S.Run(cfg, calls).emitted[i]), freshId);
    FiresAtZero(model, whole, freshId);
  }

  /** The whole path: train on a log, write the model out and read it back, then run the online stages
      over records whose events in block `b` keep the log's order.  If `b` is labelled Normal, no trace of it
      fires. */
  method TrainThenDetect(lines: seq<string>, rows: seq<Row>, labels: map<string, string>, n: int,
                         strptime: string -> Option<real>, cfg: S.Settings, ghost calls: seq<S.Call>, b: string,
                         str: Json -> string, threshold: real, freshId: nat) returns (model: SequenceModel)
    requires threshold >= 0.0 && b in labels && labels[b] == "Normal"
    requires S.Events(S.Stream(S.Inputs(calls), b)) == S.Events(S.Stream(OnlineRecords(lines, Compile(rows), strptime), b))
    ensures forall i | 0 <= i < |S.Run(cfg, calls).emitted| && S.Run(cfg, calls).emitted[i].chunk.blockId == b ::
              DetectTrace(model, threshold, S.Seal(S.Run(cfg, calls).emitted[i]), freshId).None?
  {
    var patterns := CompileTemplates(rows);
    var blockEvents := GroupEvents(lines, patterns, strptime, None);
    GroupedGroups(lines, patterns, strptime);
    assert GroupOf(blockEvents, b, EventsOf(lines, b, patterns, strptime));
    var trained := BuildModel(blockEvents, labels, n);
    var data := Dump(trained, str);
    model := FromDict(data, str).value;
    NormalModel(model, blockEvents, labels);
    TrainerSeesOnlineEvents(lines, b, patterns, strptime);
    forall i | 0 <= i < |S.Run(cfg, calls).emitted| && S.Run(cfg, calls).emitted[i].chunk.blockId == b
      ensures DetectTrace(model, threshold, S.Seal(S.Run(cfg, calls).emitted[i]), freshId).None?
    {
      assert S.Events(S.Stream(S.Inputs(calls), b)) == EventsOf(lines, b, patterns, strptime);
      if b in blockEvents {
        TrainedNormalNeverFires(cfg, calls, i, model, blockEvents, labels, b, threshold, freshId);
      } else {
        FragmentEvents(cfg, calls, i, n);
        NothingNovelNeverFires(model, threshold, S.Seal(S.Run(cfg, calls).emitted[i]), freshId);
      }
    }
  }

  lemma NormalModel(model: SequenceModel, blockEvents: map<string, seq<string>>, labels: map<string, string>)
    requires forall g :: g in model.normalNgrams <==> NormalGram(blockEvents, labels, blockEvents.Keys, model.n, g)
    ensures IsNormalModel(model, blockEvents, labels)
  {
    forall b, g | b in blockEvents && b in labels && labels[b] == "Normal" && g in GramSet(blockEvents[b], model.n)
      ensures g in model.normalNgrams
    {
      assert NormalIn(blockEvents, labels, blockEvents.Keys, model.n, b, g);
    }
  }
}
