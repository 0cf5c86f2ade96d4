/** stages/enrichment/template_matcher.py: templates with wildcards, matched as prefixes, first row wins. */
module Templates {
  import opened Wrappers

  // ---------- splitting a template on its wildcards ----------

  /** `<*>` or `[*]` at the start of a string. */
  predicate WildcardAt(t: string) {
    |t| >= 3 && (t[..3] == "<*>" || t[..3] == "[*]")
  }

  /** `_WILDCARD.split`. */
  function Split(t: string): (parts: seq<string>)
    ensures parts != []
  {
    if t == "" then [""]
    else if WildcardAt(t) then [""] + Split(t[3..])
    else var rest := Split(t[1..]); [[t[0]] + rest[0]] + rest[1..]
  }

  /** The wildcards themselves, in order. */
  function Wildcards(t: string): seq<string> {
    if t == "" then [] else if WildcardAt(t) then [t[..3]] + Wildcards(t[3..]) else Wildcards(t[1..])
  }

  /** The literal parts with a string in each gap between them. */
  function Weave(parts: seq<string>, gaps: seq<string>): string
    requires |parts| == |gaps| + 1
  {
    if gaps == [] then parts[0] else parts[0] + gaps[0] + Weave(parts[1..], gaps[1..])
  }

  lemma WeaveFirst(c: string, parts: seq<string>, gaps: seq<string>)
    requires |parts| == |gaps| + 1
    ensures Weave([c + parts[0]] + parts[1..], gaps) == c + Weave(parts, gaps)
  {
    assert ([c + parts[0]] + parts[1..])[1..] == parts[1..];
    if gaps != [] {
      var rest := Weave(parts[1..], gaps[1..]);
      assert (c + parts[0]) + gaps[0] + rest == c + (parts[0] + gaps[0] + rest);
    }
  }

  lemma WeaveUnfolds(parts: seq<string>, gap: string, gaps: seq<string>)
    requires |parts| == |gaps| + 2
    ensures Weave(parts, [gap] + gaps) == parts[0] + gap + Weave(parts[1..], gaps)
  {
    assert ([gap] + gaps)[1..] == gaps;
  }

  lemma WeaveWildcard(w: string, parts: seq<string>, gaps: seq<string>)
    requires |parts| == |gaps| + 1
    ensures Weave([""] + parts, [w] + gaps) == w + Weave(parts, gaps)
  {
    var all := [""] + parts;
    assert all[1..] == parts;
    calc {
      Weave(all, [w] + gaps);
    ==  { WeaveUnfolds(all, w, gaps); }
      all[0] + w + Weave(parts, gaps);
    ==  { assert "" + w == w; }
      w + Weave(parts, gaps);
    }
  }

  /** The parts with the template's own wildcards in the gaps are the template. */
  lemma {:induction false} SplitRejoins(t: string)
    ensures |Split(t)| == |Wildcards(t)| + 1 && Weave(Split(t), Wildcards(t)) == t
  {
    if t == "" {
    } else if WildcardAt(t) {
      SplitRejoins(t[3..]);
      WeaveWildcard(t[..3], Split(t[3..]), Wildcards(t[3..]));
    } else {
      SplitRejoins(t[1..]);
      WeaveFirst([t[0]], Split(t[1..]), Wildcards(t[1..]));
    }
  }

  /** Neither spelling of a wildcard is left inside a part. */
  lemma PartsAreLiteral(t: string, i: nat, k: nat)
    requires i < |Split(t)| && k + 3 <= |Split(t)[i]|
    ensures Split(t)[i][k..k + 3] != "<*>" && Split(t)[i][k..k + 3] != "[*]"
  {
    NoneInParts(t, i, k);
    assert Split(t)[i][k..][..3] == Split(t)[i][k..k + 3];
  }

  lemma {:induction false} NoneInParts(t: string, i: nat, k: nat)
    requires i < |Split(t)| && k <= |Split(t)[i]|
    ensures !WildcardAt(Split(t)[i][k..])
  {
    if t == "" {
    } else if WildcardAt(t) {
      if i > 0 { NoneInParts(t[3..], i - 1, k); }
    } else if i > 0 {
      NoneInParts(t[1..], i, k);
    } else if k > 0 {
      NoneInParts(t[1..], 0, k - 1);
      assert Split(t)[0][k..] == Split(t[1..])[0][k - 1..];
    } else {
      FirstPartIsPrefix(t);
      assert Split(t)[0][0..] == Split(t)[0];
    }
  }

  lemma {:induction false} FirstPartIsPrefix(t: string)
    ensures Split(t)[0] <= t
  {
    if t == "" || WildcardAt(t) {
    } else {
      FirstPartIsPrefix(t[1..]);
    }
  }

  /** The text between two parts is a wildcard in one of its spellings. */
  lemma {:induction false} WildcardsAreSpelled(t: string)
    ensures forall w | w in Wildcards(t) :: w == "<*>" || w == "[*]"
  {
    if t == "" {
    } else if WildcardAt(t) {
      WildcardsAreSpelled(t[3..]);
    } else {
      WildcardsAreSpelled(t[1..]);
    }
  }

  /** No wildcard can start in such a text. */
  predicate Plain(lit: string) {
    forall i | 0 <= i < |lit| :: lit[i] != '<' && lit[i] != '['
  }

  lemma NoWildcardAt(t: string)
    requires t != "" && t[0] != '<' && t[0] != '['
    ensures !WildcardAt(t)
  {
    if |t| >= 3 { assert t[..3][0] == t[0]; }
  }

  /** A template is cut at its first wildcard, in either spelling, and one without a wildcard is one part. */
  lemma {:induction false} SplitCuts(lit: string, w: string, rest: string)
    requires Plain(lit) && (w == "<*>" || w == "[*]")
    ensures Split(lit) == [lit] && Split(lit + w + rest) == [lit] + Split(rest)
  {
    var t := lit + w + rest;
    if lit == "" {
      assert t[..3] == w && t[3..] == rest;
    } else {
      assert t[0] == lit[0] && t[1..] == lit[1..] + w + rest;
      NoWildcardAt(lit);
      NoWildcardAt(t);
      SplitCuts(lit[1..], w, rest);
      assert lit == [lit[0]] + lit[1..];
    }
  }

  // ---------- matching ----------

  /** What the compiled pattern says: the parts occur in order, with anything between and after them. */
  ghost predicate Placed(parts: seq<string>, message: string) {
    exists gaps, tail :: IsPlacement(parts, message, gaps, tail)
  }

  predicate IsPlacement(parts: seq<string>, message: string, gaps: seq<string>, tail: string) {
    |parts| == |gaps| + 1 && message == Weave(parts, gaps) + tail
  }

  /** Where `part` first occurs. */
  function Leftmost(message: string, part: string): Option<nat> {
    if part <= message then Some(0)
    else if message == "" then None
    else var i := Leftmost(message[1..], part); if i.None? then None else Some(i.value + 1)
  }

  /** Lazy gaps: each part is taken where it first occurs after the previous one. */
  predicate MatchRest(parts: seq<string>, message: string) {
    parts == [] ||
    var i := Leftmost(message, parts[0]);
    i.Some? && i.value + |parts[0]| <= |message| && MatchRest(parts[1..], message[i.value + |parts[0]|..])
  }

  /** `re.match` of the joined pattern. */
  predicate Match(parts: seq<string>, message: string)
    requires parts != []
  {
    parts[0] <= message && MatchRest(parts[1..], message[|parts[0]|..])
  }

  lemma {:induction false} LeftmostIs(message: string, part: string)
    ensures Leftmost(message, part).Some? ==>
              var i := Leftmost(message, part).value; i + |part| <= |message| && message[i..i + |part|] == part
  {
    if part <= message || message == "" {
    } else {
      LeftmostIs(message[1..], part);
    }
  }

  lemma {:induction false} LeftmostAtMost(before: string, part: string, after: string)
    ensures var i := Leftmost(before + part + after, part); i.Some? && i.value <= |before|
  {
    var m := before + part + after;
    if before == "" {
      assert m == part + after;
    } else if !(part <= m) {
      assert m[1..] == before[1..] + part + after;
      LeftmostAtMost(before[1..], part, after);
    }
  }

  /** With more text in front a part is found no later, so what follows it is only longer. */
  lemma LeftmostExtends(part: string, before: string, message: string) returns (skipped: string, rest: string)
    requires Leftmost(message, part).Some?
    ensures var i := Leftmost(message, part).value; i + |part| <= |message| && rest == message[i + |part|..]
    ensures var j := Leftmost(before + message, part);
      j.Some? && j.value + |part| <= |before + message| && (before + message)[j.value + |part|..] == skipped + rest
  {
    LeftmostIs(message, part);
    var i := Leftmost(message, part).value;
    rest := message[i + |part|..];
    var all := before + message;
    assert all == before + message[..i] + part + rest;
    LeftmostAtMost(before + message[..i], part, rest);
    LeftmostIs(all, part);
    var from := Leftmost(all, part).value + |part|;
    skipped := all[from..|all| - |rest|];
    assert all[from..] == skipped + rest;
  }

  /** A longer message in front does not hurt. */
  lemma {:induction false} MatchRestExtends(parts: seq<string>, before: string, message: string)
    requires MatchRest(parts, message)
    ensures MatchRest(parts, before + message)
  {
    if parts == [] {
    } else {
      var skipped, rest := LeftmostExtends(parts[0], before, message);
      MatchRestExtends(parts[1..], skipped, rest);
    }
  }

  lemma MatchRestStep(parts: seq<string>, rest: string)
    requires parts != [] && MatchRest(parts[1..], rest)
    ensures MatchRest(parts, parts[0] + rest)
  {
    var p := parts[0];
    assert (p + rest)[|p|..] == rest;
    assert Leftmost(p + rest, p) == Some(0);
  }

  /** What follows the first part of a woven message. */
  function AfterFirst(parts: seq<string>, gaps: seq<string>, tail: string): string
    requires |parts| == |gaps| + 1
  {
    if gaps == [] then tail else gaps[0] + (Weave(parts[1..], gaps[1..]) + tail)
  }

  lemma WeaveSplits(parts: seq<string>, gaps: seq<string>, tail: string)
    requires |parts| == |gaps| + 1
    ensures Weave(parts, gaps) + tail == parts[0] + AfterFirst(parts, gaps, tail)
  {
    if gaps != [] { Regroup(parts[0], gaps[0], Weave(parts[1..], gaps[1..]), tail); }
  }

  lemma {:induction false} PlacedRestMatches(parts: seq<string>, gap: string, gaps: seq<string>, tail: string)
    requires |parts| == |gaps| + 1
    ensures MatchRest(parts, gap + (Weave(parts, gaps) + tail))
  {
    WeaveSplits(parts, gaps, tail);
    if gaps == [] {
    } else {
      PlacedRestMatches(parts[1..], gaps[0], gaps[1..], tail);
    }
    MatchRestStep(parts, AfterFirst(parts, gaps, tail));
    MatchRestExtends(parts, gap, parts[0] + AfterFirst(parts, gaps, tail));
  }

  lemma Regroup(a: string, b: string, c: string, d: string)
    ensures (a + b + c) + d == a + (b + (c + d))
  {
  }

  lemma WeaveNext(parts: seq<string>, gap: string, gaps: seq<string>, tail: string)
    requires |parts| == |gaps| + 2
    ensures Weave(parts, [gap] + gaps) + tail == parts[0] + (gap + (Weave(parts[1..], gaps) + tail))
  {
    WeaveUnfolds(parts, gap, gaps);
    Regroup(parts[0], gap, Weave(parts[1..], gaps), tail);
  }

  lemma {:induction false} MatchRestPlaces(parts: seq<string>, message: string)
    returns (gap: string, gaps: seq<string>, tail: string)
    requires parts != [] && MatchRest(parts, message)
    ensures |parts| == |gaps| + 1 && message == gap + (Weave(parts, gaps) + tail)
  {
    var p := parts[0];
    LeftmostIs(message, p);
    var i := Leftmost(message, p).value;
    var rest := message[i + |p|..];
    gap := message[..i];
    assert message == gap + (p + rest);
    if |parts| == 1 {
      gaps, tail := [], rest;
    } else {
      var g, gs, t := MatchRestPlaces(parts[1..], rest);
      WeaveNext(parts, g, gs, t);
      gaps, tail := [g] + gs, t;
    }
  }

  lemma MatchIsPlaced(parts: seq<string>, message: string)
    requires parts != [] && Match(parts, message)
    ensures Placed(parts, message)
  {
    var rest := message[|parts[0]|..];
    assert message == parts[0] + rest;
    if |parts| == 1 {
      assert IsPlacement(parts, message, [], rest);
    } else {
      var g, gs, t := MatchRestPlaces(parts[1..], rest);
      WeaveNext(parts, g, gs, t);
      assert IsPlacement(parts, message, [g] + gs, t);
    }
  }

  lemma PlacementMatches(parts: seq<string>, message: string, gaps: seq<string>, tail: string)
    requires IsPlacement(parts, message, gaps, tail)
    ensures Match(parts, message)
  {
    if gaps == [] {
      assert parts[1..] == [];
    } else {
      var rest := gaps[0] + (Weave(parts[1..], gaps[1..]) + tail);
      assert message == parts[0] + rest;
      assert message[|parts[0]|..] == rest;
      PlacedRestMatches(parts[1..], gaps[0], gaps[1..], tail);
    }
  }

  /** Taking every part at its leftmost place succeeds exactly when some placement exists. */
  lemma MatchIffPlaced(parts: seq<string>, message: string)
    requires parts != []
    ensures Match(parts, message) <==> Placed(parts, message)
  {
    if Match(parts, message) { MatchIsPlaced(parts, message); }
    if Placed(parts, message) {
      var gaps, tail :| IsPlacement(parts, message, gaps, tail);
      PlacementMatches(parts, message, gaps, tail);
    }
  }

  // ---------- what a template means ----------

  /** A wildcard stands for any text, every other character for itself, and text may follow. */
  predicate Fits(t: string, message: string)
    decreases |t|
  {
    if t == "" then true
    else if |t| >= 3 && (t[..3] == "<*>" || t[..3] == "[*]") then
      exists k | 0 <= k <= |message| :: Fits(t[3..], message[k..])
    else message != "" && message[0] == t[0] && Fits(t[1..], message[1..])
  }

  lemma MatchRestStarts(parts: seq<string>, message: string) returns (k: nat)
    requires parts != [] && MatchRest(parts, message)
    ensures k <= |message| && Match(parts, message[k..])
  {
    var p := parts[0];
    LeftmostIs(message, p);
    k := Leftmost(message, p).value;
    assert message[k..][|p|..] == message[k + |p|..];
    assert message[k..][..|p|] == p;
  }

  lemma MatchStartsRest(parts: seq<string>, message: string, k: nat)
    requires parts != [] && k <= |message| && Match(parts, message[k..])
    ensures MatchRest(parts, message)
  {
    var p := parts[0];
    var rest := message[k..][|p|..];
    MatchRestStep(parts, rest);
    MatchRestExtends(parts, message[..k], p + rest);
    assert message[k..] == p + rest;
    assert message == message[..k] + message[k..];
  }

  lemma MatchRestIff(parts: seq<string>, message: string)
    requires parts != []
    ensures MatchRest(parts, message) <==> exists k | 0 <= k <= |message| :: Match(parts, message[k..])
  {
    if MatchRest(parts, message) {
      var k := MatchRestStarts(parts, message);
    }
    if k :| 0 <= k <= |message| && Match(parts, message[k..]) {
      MatchStartsRest(parts, message, k);
    }
  }

  lemma MatchCons(c: char, parts: seq<string>, message: string)
    requires parts != []
    ensures Match([[c] + parts[0]] + parts[1..], message)
       <==> message != "" && message[0] == c && Match(parts, message[1..])
  {
    var all := [[c] + parts[0]] + parts[1..];
    var first := [c] + parts[0];
    assert all[0] == first && all[1..] == parts[1..];
    if message != "" && message[0] == c {
      assert message == [c] + message[1..];
      assert first <= message <==> parts[0] <= message[1..];
      if first <= message { assert message[|first|..] == message[1..][|parts[0]|..]; }
    }
  }

  /** The compiled pattern matches exactly the messages that fit the template. */
  lemma {:induction false} MatchIffFits(t: string, message: string)
    ensures Match(Split(t), message) <==> Fits(t, message)
    decreases |t|
  {
    if t == "" {
    } else if WildcardAt(t) {
      var parts := Split(t[3..]);
      assert Split(t)[1..] == parts && message[0..] == message;
      MatchRestIff(parts, message);
      forall k | 0 <= k <= |message| ensures Match(parts, message[k..]) <==> Fits(t[3..], message[k..]) {
        MatchIffFits(t[3..], message[k..]);
      }
    } else {
      MatchCons(t[0], Split(t[1..]), message);
      if message != "" { MatchIffFits(t[1..], message[1..]); }
    }
  }

  /** Text without a wildcard is matched character by character. */
  lemma {:induction false} FitsLiteral(lit: string, rest: string, message: string)
    requires Plain(lit)
    ensures Fits(lit + rest, message) <==> lit <= message && Fits(rest, message[|lit|..])
  {
    if lit == "" {
      assert lit + rest == rest && message[0..] == message;
    } else {
      var t := lit + rest;
      assert t[0] == lit[0] && t[1..] == lit[1..] + rest;
      if message != "" && message[0] == lit[0] {
        FitsLiteral(lit[1..], rest, message[1..]);
        assert lit <= message <==> lit[1..] <= message[1..];
        if lit <= message { assert message[|lit|..] == message[1..][|lit[1..]|..]; }
      }
    }
  }

  /** `part` occurs in `message` at `from` or later. */
  predicate OccursFrom(message: string, from: nat, part: string) {
    exists k | from <= k <= |message| :: part <= message[k..]
  }

  lemma FitsAnywhere(w: string, post: string, message: string)
    requires Plain(post) && (w == "<*>" || w == "[*]")
    ensures Fits(w + post, message) <==> OccursFrom(message, 0, post)
  {
    assert (w + post)[..3] == w && (w + post)[3..] == post;
    forall k | 0 <= k <= |message| ensures Fits(post, message[k..]) <==> post <= message[k..] {
      assert post + "" == post;
      FitsLiteral(post, "", message[k..]);
    }
  }

  lemma OccursInRest(message: string, from: nat, part: string)
    requires from <= |message|
    ensures OccursFrom(message[from..], 0, part) <==> OccursFrom(message, from, part)
  {
    var rest := message[from..];
    if OccursFrom(rest, 0, part) {
      var k :| 0 <= k <= |rest| && part <= rest[k..];
      assert rest[k..] == message[from + k..];
    }
    if OccursFrom(message, from, part) {
      var k :| from <= k <= |message| && part <= message[k..];
      assert rest[k - from..] == message[k..];
    }
  }

  /** A template with one wildcard, in either spelling, means: starts with `pre`, and `post` occurs after it. */
  lemma FitsBetween(pre: string, w: string, post: string, message: string)
    requires Plain(pre) && Plain(post) && (w == "<*>" || w == "[*]")
    ensures Fits(pre + w + post, message) <==> pre <= message && OccursFrom(message, |pre|, post)
  {
    assert pre + w + post == pre + (w + post);
    FitsLiteral(pre, w + post, message);
    if pre <= message {
      FitsAnywhere(w, post, message[|pre|..]);
      OccursInRest(message, |pre|, post);
    }
  }

  // ---------- the compiled table ----------

  /** One CSV row: either column may be missing. */
  datatype Row = Row(eventId: Option<string>, template: Option<string>)

  datatype Pattern = Pattern(eventId: string, parts: seq<string>)

  predicate Usable(row: Row) {
    row.eventId.Some? && row.eventId.value != "" && row.template.Some? && row.template.value != ""
  }

  predicate TableOk(patterns: seq<Pattern>) {
    forall p | p in patterns :: p.eventId != "" && p.parts != []
  }

  function Compile(rows: seq<Row>): (patterns: seq<Pattern>)
    ensures TableOk(patterns)
  {
    if rows == [] then []
    else var n := |rows| - 1;
      Compile(rows[..n]) + if Usable(rows[n]) then [Pattern(rows[n].eventId.value, Split(rows[n].template.value))] else []
  }

  /** `_compile_templates`. */
  method CompileTemplates(rows: seq<Row>) returns (patterns: seq<Pattern>)
    ensures patterns == Compile(rows)
  {
    patterns := [];
    for i := 0 to |rows|
      invariant patterns == Compile(rows[..i])
    {
      assert rows[..i + 1][..i] == rows[..i];
      var row := rows[i];
      if row.eventId.None? || row.eventId.value == "" || row.template.None? || row.template.value == "" {
        continue;
      }
      patterns := patterns + [Pattern(row.eventId.value, Split(row.template.value))];
    }
    assert rows[..|rows|] == rows;
  }

  /** The event of the first pattern that matches. */
  function FirstMatch(patterns: seq<Pattern>, message: string): (event: Option<string>)
    requires TableOk(patterns)
  {
    if patterns == [] then None
    else if Match(patterns[0].parts, message) then Some(patterns[0].eventId)
    else FirstMatch(patterns[1..], message)
  }

  lemma {:induction false} FirstMatchIs(patterns: seq<Pattern>, message: string, k: nat)
    requires TableOk(patterns) && k <= |patterns|
    requires forall j | 0 <= j < k :: !Match(patterns[j].parts, message)
    requires k < |patterns| ==> Match(patterns[k].parts, message)
    ensures FirstMatch(patterns, message) == if k < |patterns| then Some(patterns[k].eventId) else None
  {
    if k == 0 {
    } else {
      FirstMatchIs(patterns[1..], message, k - 1);
    }
  }

  /** Row `i` has both columns, neither empty, and the message fits its template. */
  predicate RowFits(row: Row, message: string) {
    match row
    case Row(Some(eventId), Some(template)) => eventId != "" && template != "" && Fits(template, message)
    case _ => false
  }

  /** The message's row: the first that fits, or `|rows|`. */
  function FirstRow(rows: seq<Row>, message: string): (i: nat)
    ensures i <= |rows| && (i < |rows| ==> RowFits(rows[i], message))
    ensures forall j | 0 <= j < i :: !RowFits(rows[j], message)
  {
    if rows == [] || RowFits(rows[0], message) then 0 else 1 + FirstRow(rows[1..], message)
  }

  lemma FirstMatchAppend(patterns: seq<Pattern>, more: seq<Pattern>, message: string)
    requires TableOk(patterns) && TableOk(more)
    ensures TableOk(patterns + more)
    ensures var event := FirstMatch(patterns, message);
      FirstMatch(patterns + more, message) == if event.Some? then event else FirstMatch(more, message)
  {
    if patterns == [] {
      assert patterns + more == more;
    } else {
      assert (patterns + more)[1..] == patterns[1..] + more;
      FirstMatchAppend(patterns[1..], more, message);
    }
  }

  lemma FirstRowAppend(rows: seq<Row>, row: Row, message: string)
    ensures var i := FirstRow(rows, message);
      FirstRow(rows + [row], message) == if i < |rows| || RowFits(row, message) then i else i + 1
  {
    var all := rows + [row];
    var i, j := FirstRow(rows, message), FirstRow(all, message);
    assert forall k | 0 <= k < |rows| :: all[k] == rows[k];
    assert all[|rows|] == row;
  }

  /** From the file to the tag: a message gets the event of the first row with both columns whose template it
      fits, and none when there is no such row. */
  lemma {:induction false} FirstFittingRow(rows: seq<Row>, message: string)
    ensures var i := FirstRow(rows, message);
      FirstMatch(Compile(rows), message) == if i < |rows| then rows[i].eventId else None
  {
    if rows == [] {
    } else {
      var n := |rows| - 1;
      FirstFittingRow(rows[..n], message);
      assert rows == rows[..n] + [rows[n]];
      FirstRowAppend(rows[..n], rows[n], message);
      LastRow(rows, message);
    }
  }

  lemma LastRow(rows: seq<Row>, message: string)
    requires rows != []
    ensures var n := |rows| - 1; var before := FirstMatch(Compile(rows[..n]), message);
      FirstMatch(Compile(rows), message)
        == if before.Some? then before else if RowFits(rows[n], message) then rows[n].eventId else None
  {
    var n := |rows| - 1;
    var row := rows[n];
    if Usable(row) {
      var pattern := Pattern(row.eventId.value, Split(row.template.value));
      FirstMatchAppend(Compile(rows[..n]), [pattern], message);
      assert FirstMatch([pattern][1..], message) == None;
      MatchIffFits(row.template.value, message);
    } else {
      assert Compile(rows) == Compile(rows[..n]) + [];
      assert Compile(rows) == Compile(rows[..n]);
    }
  }

  /** A table of one row with one wildcard tags exactly the messages that start with `pre` and have `post`
      somewhere after it. */
  lemma OneWildcardRow(eventId: string, pre: string, w: string, post: string, message: string)
    requires eventId != "" && Plain(pre) && Plain(post) && (w == "<*>" || w == "[*]")
    ensures FirstMatch(Compile([Row(Some(eventId), Some(pre + w + post))]), message)
         == if pre <= message && OccursFrom(message, |pre|, post) then Some(eventId) else None
  {
    FirstFittingRow([Row(Some(eventId), Some(pre + w + post))], message);
    FitsBetween(pre, w, post, message);
  }

  class LogRecord {
    var message: string
    var enrichment: map<string, string>

    constructor (message: string)
      ensures this.message == message && enrichment == map[]
    {
      this.message, enrichment := message, map[];
    }
  }

  /** `process`: tags the record with the first matching event and changes nothing else. */
  method Process(patterns: seq<Pattern>, key: string, record: LogRecord)
    requires TableOk(patterns)
    modifies record`enrichment
    ensures var event := FirstMatch(patterns, record.message);
      record.enrichment == if event.Some? then old(record.enrichment)[key := event.value] else old(record.enrichment)
  {
    for i := 0 to |patterns|
      invariant record.enrichment == old(record.enrichment)
      invariant forall j | 0 <= j < i :: !Match(patterns[j].parts, record.message)
    {
      if Match(patterns[i].parts, record.message) {
        FirstMatchIs(patterns, record.message, i);
        record.enrichment := record.enrichment[key := patterns[i].eventId];
        return;
      }
    }
    FirstMatchIs(patterns, record.message, |patterns|);
  }

  /** The trainer's `_match_event_id` chooses the same event. */
  method MatchEventId(patterns: seq<Pattern>, message: string) returns (event: Option<string>)
    requires TableOk(patterns)
    ensures event == FirstMatch(patterns, message)
  {
    for i := 0 to |patterns|
      invariant forall j | 0 <= j < i :: !Match(patterns[j].parts, message)
    {
      if Match(patterns[i].parts, message) {
        FirstMatchIs(patterns, message, i);
        return Some(patterns[i].eventId);
      }
    }
    FirstMatchIs(patterns, message, |patterns|);
    return None;
  }

  /** Position of a usable row's pattern in the compiled table. */
  function PatternIndex(rows: seq<Row>, i: nat): nat
    requires i < |rows|
  {
    |Compile(rows[..i])|
  }

  lemma {:induction false} CompiledAt(rows: seq<Row>, i: nat)
    requires i < |rows| && Usable(rows[i])
    ensures PatternIndex(rows, i) < |Compile(rows)|
    ensures Compile(rows)[PatternIndex(rows, i)] == Pattern(rows[i].eventId.value, Split(rows[i].template.value))
  {
    var n := |rows| - 1;
    if i == n {
    } else {
      CompiledAt(rows[..n], i);
      assert rows[..n][..i] == rows[..i];
    }
  }

  /** Filling a template's wildcards with any strings and appending any tail gives a message that is
      assigned that template's event or the event of an earlier row. */
  lemma FilledTemplateMatches(rows: seq<Row>, i: nat, fills: seq<string>, tail: string)
    requires i < |rows| && Usable(rows[i]) && |fills| == |Wildcards(rows[i].template.value)|
    ensures |Split(rows[i].template.value)| == |fills| + 1
    ensures var message := Weave(Split(rows[i].template.value), fills) + tail;
      exists k :: 0 <= k <= PatternIndex(rows, i) && k < |Compile(rows)|
        && FirstMatch(Compile(rows), message) == Some(Compile(rows)[k].eventId)
  {
    var parts := Split(rows[i].template.value);
    SplitRejoins(rows[i].template.value);
    var message := Weave(parts, fills) + tail;
    CompiledAt(rows, i);
    assert IsPlacement(parts, message, fills, tail);
    MatchIffPlaced(parts, message);
    var k := MatchesBy(Compile(rows), message, PatternIndex(rows, i));
    FirstMatchIs(Compile(rows), message, k);
  }

  lemma {:induction false} MatchesBy(patterns: seq<Pattern>, message: string, bound: nat) returns (k: nat)
    requires TableOk(patterns) && bound < |patterns| && Match(patterns[bound].parts, message)
    ensures k <= bound && Match(patterns[k].parts, message)
    ensures forall j | 0 <= j < k :: !Match(patterns[j].parts, message)
  {
    k := 0;
    while !Match(patterns[k].parts, message)
      invariant k <= bound && forall j | 0 <= j < k :: !Match(patterns[j].parts, message)
      decreases bound - k
    {
      k := k + 1;
    }
  }
}
