/** scripts/train_sequence_model.py: grouping the events of a log by block and collecting the n-grams of
    the blocks labelled Normal. */
module Training {
  import opened Wrappers
  import opened HdfsParsing
  import opened Templates
  import opened Sequence

  function RStripNewlines(s: string): string {
    if s != "" && s[|s| - 1] == '\n' then RStripNewlines(s[..|s| - 1]) else s
  }

  /** The line without the newlines at its end, and nothing else taken off. */
  lemma {:induction false} RStripIs(s: string, body: string, newlines: string)
    requires s == body + newlines && (forall i | 0 <= i < |newlines| :: newlines[i] == '\n')
    requires body == "" || body[|body| - 1] != '\n'
    ensures RStripNewlines(s) == body
  {
    if newlines == "" {
      assert s == body;
    } else {
      var n := |newlines| - 1;
      assert s[|s| - 1] == newlines[n];
      assert s[..|s| - 1] == body + newlines[..n];
      RStripIs(s[..|s| - 1], body, newlines[..n]);
    }
  }

  /** The block and event that one line contributes: none for an empty or unparsable line, a message
      without block id, or a message no template matches. */
  function LineEvent(line: string, patterns: seq<Pattern>, strptime: string -> Option<real>): Option<(string, string)>
    requires TableOk(patterns)
  {
    var raw := RStripNewlines(line);
    if raw == "" then None else
    var record := Parse(raw, strptime);
    if record.None? || record.value.blockId.None? then None else
    var event := FirstMatch(patterns, record.value.message);
    if event.None? then None else Some((record.value.blockId.value, event.value))
  }

  /** The events of block `b` in file order. */
  function EventsOf(lines: seq<string>, b: string, patterns: seq<Pattern>, strptime: string -> Option<real>): seq<string>
    requires TableOk(patterns)
  {
    if lines == [] then []
    else var n := |lines| - 1; var e := LineEvent(lines[n], patterns, strptime);
      EventsOf(lines[..n], b, patterns, strptime) + if e.Some? && e.value.0 == b then [e.value.1] else []
  }

  /** `--max-lines`. */
  function Considered(lines: seq<string>, maxLines: Option<int>): seq<string> {
    if maxLines.None? || maxLines.value >= |lines| then lines
    else if maxLines.value < 0 then [] else lines[..maxLines.value]
  }

  /** A line counts for a block with an event exactly when, its newlines taken off, it is the print of fields with
      a valid date, the block id is the first in its message, and the event is that of the message's template. */
  lemma LineEventIs(line: string, f: Fields, patterns: seq<Pattern>, strptime: string -> Option<real>)
    requires TableOk(patterns) && Accepts(RStripNewlines(line), f)
    ensures var block, event := FindBlock(f.content), FirstMatch(patterns, f.content);
      LineEvent(line, patterns, strptime)
        == if strptime(f.date + f.time).Some? && block.Some? && event.Some? then Some((block.value, event.value)) else None
  {
    ParseIs(RStripNewlines(line), f, strptime);
    PrintNotEmpty(f);
  }

  lemma PrintNotEmpty(f: Fields)
    ensures Print(f) != ""
  {
  }

  /** Every other line is passed over. */
  lemma LineEventNeedsFields(line: string, patterns: seq<Pattern>, strptime: string -> Option<real>)
    requires TableOk(patterns) && LineEvent(line, patterns, strptime).Some?
    ensures exists f :: Accepts(RStripNewlines(line), f)
  {
    ParseNeedsFields(RStripNewlines(line), strptime);
  }

  /** `--max-lines m` keeps the first m lines, none for a negative m and all when there are fewer. */
  lemma ConsideredPrefix(lines: seq<string>, m: int)
    ensures Considered(lines, None) == lines
    ensures var kept := Considered(lines, Some(m));
      kept <= lines && |kept| == if m < 0 then 0 else if m < |lines| then m else |lines|
  {
  }

  /** The dictionary holds exactly the blocks with an event, each with its events in file order. */
  ghost predicate Groups(blockEvents: map<string, seq<string>>, lines: seq<string>, patterns: seq<Pattern>,
                         strptime: string -> Option<real>)
    requires TableOk(patterns)
  {
    forall b :: GroupOf(blockEvents, b, EventsOf(lines, b, patterns, strptime))
  }

  predicate GroupOf(blockEvents: map<string, seq<string>>, b: string, events: seq<string>) {
    if events == [] then b !in blockEvents else b in blockEvents && blockEvents[b] == events
  }

  /** `block_events[block_id].append(event_id)` on a defaultdict. */
  function Appended(blockEvents: map<string, seq<string>>, e: Option<(string, string)>): map<string, seq<string>> {
    if e.None? then blockEvents
    else blockEvents[e.value.0 := (if e.value.0 in blockEvents then blockEvents[e.value.0] else []) + [e.value.1]]
  }

  lemma GroupOfAppended(blockEvents: map<string, seq<string>>, e: Option<(string, string)>, b: string, events: seq<string>)
    requires GroupOf(blockEvents, b, events)
    ensures GroupOf(Appended(blockEvents, e), b, events + if e.Some? && e.value.0 == b then [e.value.1] else [])
  {
  }

  /** The dictionary after the lines so far. */
  function Grouped(lines: seq<string>, patterns: seq<Pattern>, strptime: string -> Option<real>): map<string, seq<string>>
    requires TableOk(patterns)
  {
    if lines == [] then map[]
    else var n := |lines| - 1;
      Appended(Grouped(lines[..n], patterns, strptime), LineEvent(lines[n], patterns, strptime))
  }

  lemma {:induction false} GroupedGroups(lines: seq<string>, patterns: seq<Pattern>, strptime: string -> Option<real>)
    requires TableOk(patterns)
    ensures Groups(Grouped(lines, patterns, strptime), lines, patterns, strptime)
  {
    if lines == [] {
    } else {
      var n := |lines| - 1;
      var e := LineEvent(lines[n], patterns, strptime);
      var before := Grouped(lines[..n], patterns, strptime);
      GroupedGroups(lines[..n], patterns, strptime);
      forall b ensures GroupOf(Appended(before, e), b, EventsOf(lines, b, patterns, strptime)) {
        GroupOfAppended(before, e, b, EventsOf(lines[..n], b, patterns, strptime));
      }
    }
  }

  lemma GroupedNext(lines: seq<string>, i: nat, patterns: seq<Pattern>, strptime: string -> Option<real>)
    requires TableOk(patterns) && i < |lines|
    ensures Grouped(lines[..i + 1], patterns, strptime)
         == Appended(Grouped(lines[..i], patterns, strptime), LineEvent(lines[i], patterns, strptime))
  {
    assert lines[..i + 1][..i] == lines[..i];
  }

  lemma ConsideredIs(lines: seq<string>, maxLines: Option<int>, i: nat)
    requires i <= |lines|
    requires if i < |lines| then maxLines.Some? && i >= maxLines.value && (i == 0 || i == maxLines.value)
             else maxLines.None? || i == 0 || i <= maxLines.value
    ensures lines[..i] == Considered(lines, maxLines)
  {
  }

  /** Step 3 of `main`. */
  method GroupEvents(lines: seq<string>, patterns: seq<Pattern>, strptime: string -> Option<real>, maxLines: Option<int>)
    returns (blockEvents: map<string, seq<string>>)
    requires TableOk(patterns)
    ensures blockEvents == Grouped(Considered(lines, maxLines), patterns, strptime)
  {
    blockEvents := map[];
    var i := 0;
    while i < |lines|
      invariant i <= |lines| && (maxLines.Some? && i > 0 ==> i <= maxLines.value)
      invariant blockEvents == Grouped(lines[..i], patterns, strptime)
    {
      if maxLines.Some? && i >= maxLines.value {
        break;
      }
      blockEvents := TakeLine(lines, i, patterns, strptime, blockEvents);
      i := i + 1;
    }
    ConsideredIs(lines, maxLines, i);
  }

  method TakeLine(lines: seq<string>, i: nat, patterns: seq<Pattern>, strptime: string -> Option<real>,
                  blockEvents: map<string, seq<string>>)
    returns (updated: map<string, seq<string>>)
    requires TableOk(patterns) && i < |lines| && blockEvents == Grouped(lines[..i], patterns, strptime)
    ensures updated == Grouped(lines[..i + 1], patterns, strptime)
  {
    updated := AddLine(lines[i], patterns, strptime, blockEvents);
    GroupedNext(lines, i, patterns, strptime);
  }

  /** The body of the grouping loop. */
  method AddLine(line: string, patterns: seq<Pattern>, strptime: string -> Option<real>,
                 blockEvents: map<string, seq<string>>)
    returns (updated: map<string, seq<string>>)
    requires TableOk(patterns)
    ensures updated == Appended(blockEvents, LineEvent(line, patterns, strptime))
  {
    updated := blockEvents;
    var raw := RStripNewlines(line);
    if raw == "" { return; }
    var record := Parse(raw, strptime);
    if record.None? { return; }
    var blockId := record.value.blockId;
    if blockId.None? { return; }
    var eventId := MatchEventId(patterns, record.value.message);
    if eventId.None? { return; }
    var events := if blockId.value in blockEvents then blockEvents[blockId.value] else [];
    updated := blockEvents[blockId.value := events + [eventId.value]];
  }

  /** A gram is normal when a block labelled Normal contains it. */
  ghost predicate NormalGram(blockEvents: map<string, seq<string>>, labels: map<string, string>, blocks: set<string>, n: int,
                             g: Gram)
  {
    exists b :: NormalIn(blockEvents, labels, blocks, n, b, g)
  }

  predicate NormalIn(blockEvents: map<string, seq<string>>, labels: map<string, string>, blocks: set<string>, n: int,
                     b: string, g: Gram)
  {
    b in blocks && b in blockEvents && b in labels && labels[b] == "Normal" && g in GramSet(blockEvents[b], n)
  }

  ghost predicate Known(blockEvents: map<string, seq<string>>, labels: map<string, string>, blocks: set<string>,
                        e: string)
  {
    exists b :: b in blocks && b in blockEvents && b in labels && e in blockEvents[b]
  }

  /** Steps 4 and 5 of `main`, over the blocks in whatever order: the n-grams of the blocks labelled
      Normal, and the events of every labelled block. */
  method BuildModel(blockEvents: map<string, seq<string>>, labels: map<string, string>, n: int)
    returns (model: SequenceModel)
    ensures model.n == n
    ensures forall g :: g in model.normalNgrams <==> NormalGram(blockEvents, labels, blockEvents.Keys, n, g)
    ensures forall e :: e in model.vocabulary <==> Known(blockEvents, labels, blockEvents.Keys, e)
  {
    var normalGrams: set<Gram> := {};
    var vocabulary: set<string> := {};
    var rest := blockEvents.Keys;
    while rest != {}
      invariant rest <= blockEvents.Keys
      invariant forall g :: g in normalGrams <==> NormalGram(blockEvents, labels, blockEvents.Keys - rest, n, g)
      invariant forall e :: e in vocabulary <==> Known(blockEvents, labels, blockEvents.Keys - rest, e)
      decreases rest
    {
      var b :| b in rest;
      ghost var done := blockEvents.Keys - rest;
      var events := blockEvents[b];
      if b in labels {
        vocabulary := vocabulary + set e | e in events;
        if labels[b] == "Normal" {
          normalGrams := normalGrams + GramSet(events, n);
        }
      }
      OneMore(blockEvents, labels, done, n, b);
      rest := rest - {b};
      assert blockEvents.Keys - rest == done + {b};
    }
    assert blockEvents.Keys - rest == blockEvents.Keys;
    model := SequenceModel(n, normalGrams, vocabulary);
  }

  lemma OneMore(blockEvents: map<string, seq<string>>, labels: map<string, string>, done: set<string>, n: int, b: string)
    requires b in blockEvents
    ensures forall g :: NormalGram(blockEvents, labels, done + {b}, n, g) <==>
              NormalGram(blockEvents, labels, done, n, g) || NormalIn(blockEvents, labels, {b}, n, b, g)
    ensures forall e :: Known(blockEvents, labels, done + {b}, e) <==>
              Known(blockEvents, labels, done, e) || (b in labels && e in blockEvents[b])
  {
    forall g ensures NormalGram(blockEvents, labels, done + {b}, n, g) <==>
              NormalGram(blockEvents, labels, done, n, g) || NormalIn(blockEvents, labels, {b}, n, b, g)
    {
      if x :| NormalIn(blockEvents, labels, done + {b}, n, x, g) {
        assert NormalIn(blockEvents, labels, done, n, x, g) || NormalIn(blockEvents, labels, {b}, n, b, g);
      }
      if x :| NormalIn(blockEvents, labels, done, n, x, g) {
        assert NormalIn(blockEvents, labels, done + {b}, n, x, g);
      }
      if NormalIn(blockEvents, labels, {b}, n, b, g) {
        assert NormalIn(blockEvents, labels, done + {b}, n, b, g);
      }
    }
  }
}
