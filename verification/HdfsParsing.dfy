/** stages/parsing/hdfs_parser.py and its oracle hdfs_structured_csv_parser.py.  Character classes are
    ASCII; `strptime` is a parameter. */
module HdfsParsing {
  import opened Wrappers

  // ---------- character classes and the fields of a line ----------

  datatype Class = Digit | Word | Component

  predicate In(cl: Class, c: char) {
    match cl
    case Digit => IsDigit(c)
    case Word => IsWordChar(c)
    case Component => IsWordChar(c) || c == '$' || c == '.'
  }

  predicate IsDigit(c: char) { '0' <= c <= '9' }

  predicate IsWordChar(c: char) { IsDigit(c) || 'a' <= c <= 'z' || 'A' <= c <= 'Z' || c == '_' }

  /** A non-empty string of one class. */
  predicate Run(cl: Class, s: string) {
    s != "" && forall c | c in s :: In(cl, c)
  }

  datatype Fields = Fields(date: string, time: string, pid: string, level: string, component: string, content: string)

  predicate WellFormed(f: Fields) {
    && Run(Digit, f.date) && |f.date| == 6 && Run(Digit, f.time) && |f.time| == 6
    && Run(Digit, f.pid) && Run(Word, f.level) && Run(Component, f.component) && '\n' !in f.content
  }

  /** `_reconstruct_raw`. */
  function Print(f: Fields): string {
    f.date + " " + f.time + " " + f.pid + " " + f.level + " " + f.component + ": " + f.content
  }

  // ---------- splitting a line ----------

  /** The longest prefix of a class. */
  function Span(cl: Class, s: string): (n: nat)
    ensures n <= |s|
    ensures forall i | 0 <= i < n :: In(cl, s[i])
    ensures n < |s| ==> !In(cl, s[n])
  {
    if s == "" || !In(cl, s[0]) then 0 else 1 + Span(cl, s[1..])
  }

  /** One `[class]+` group and the literal after it: the group and the rest of the line. */
  function Take(cl: Class, s: string, stop: string): Option<(string, string)> {
    var n := Span(cl, s);
    if n > 0 && n + |stop| <= |s| && s[n..n + |stop|] == stop then Some((s[..n], s[n + |stop|..])) else None
  }

  /** No backtracking is needed: a literal that starts outside the class can only follow the longest run. */
  lemma TakeIsUnique(cl: Class, s: string, stop: string, group: string, rest: string)
    requires stop != "" && !In(cl, stop[0])
    ensures Take(cl, s, stop) == Some((group, rest)) <==> Run(cl, group) && s == group + stop + rest
  {
    var n := Span(cl, s);
    if Take(cl, s, stop) == Some((group, rest)) {
      assert s == s[..n] + s[n..n + |stop|] + s[n + |stop|..];
      forall c | c in group ensures In(cl, c) {
        var i :| 0 <= i < n && s[i] == c;
      }
    }
    if Run(cl, group) && s == group + stop + rest {
      assert s[|group|] == stop[0];
      forall i | 0 <= i < |group| ensures In(cl, s[i]) { assert s[i] == group[i] && group[i] in group; }
      assert n == |group|;
      assert s[n..n + |stop|] == stop && s[..n] == group && s[n + |stop|..] == rest;
    }
  }

  predicate NewlineFree(s: string) {
    '\n' !in s
  }

  /** `(?P<content>.*)$`: `$` also matches before a final newline, which is then not part of the content. */
  function Content(s: string): Option<string> {
    if NewlineFree(s) then Some(s)
    else if s[|s| - 1] == '\n' && NewlineFree(s[..|s| - 1]) then Some(s[..|s| - 1])
    else None
  }

  /** `_SHAPE_RE`: date, time and pid, and what follows them. */
  function Shape(raw: string): Option<(string, string, string, string)> {
    var date := Take(Digit, raw, " ");
    if date.None? || |date.value.0| != 6 then None else
    var time := Take(Digit, date.value.1, " ");
    if time.None? || |time.value.0| != 6 then None else
    var pid := Take(Digit, time.value.1, " ");
    if pid.None? then None else Some((date.value.0, time.value.0, pid.value.0, pid.value.1))
  }

  predicate CanParse(raw: string) {
    Shape(raw).Some?
  }

  /** Level, component and content. */
  function Body(s: string): Option<(string, string, string)> {
    var level := Take(Word, s, " ");
    if level.None? then None else
    var component := Take(Component, level.value.1, ": ");
    if component.None? then None else
    var content := Content(component.value.1);
    if content.None? then None else Some((level.value.0, component.value.0, content.value))
  }

  /** `_LINE_RE.match`. */
  function SplitLine(raw: string): Option<Fields> {
    var shape := Shape(raw);
    if shape.None? then None else
    var body := Body(shape.value.3);
    if body.None? then None else
    Some(Fields(shape.value.0, shape.value.1, shape.value.2, body.value.0, body.value.1, body.value.2))
  }

  /** What the regular expression says declaratively: the line is the printed fields, perhaps with one
      newline at the end. */
  predicate Accepts(raw: string, f: Fields) {
    WellFormed(f) && (raw == Print(f) || raw == Print(f) + "\n")
  }

  lemma ContentIs(s: string, content: string)
    ensures Content(s) == Some(content) <==> NewlineFree(content) && (s == content || s == content + "\n")
  {
    if NewlineFree(content) && s == content + "\n" {
      assert s[|s| - 1] == '\n' && s[..|s| - 1] == content;
    }
    if Content(s).Some? && !NewlineFree(s) { assert s == s[..|s| - 1] + "\n"; }
  }

  lemma ShapeIs(raw: string, date: string, time: string, pid: string, rest: string)
    ensures Shape(raw) == Some((date, time, pid, rest)) <==>
            && Run(Digit, date) && |date| == 6 && Run(Digit, time) && |time| == 6 && Run(Digit, pid)
            && raw == date + " " + (time + " " + (pid + " " + rest))
  {
    var r2 := pid + " " + rest;
    var r1 := time + " " + r2;
    TakeIsUnique(Digit, raw, " ", date, r1);
    TakeIsUnique(Digit, r1, " ", time, r2);
    TakeIsUnique(Digit, r2, " ", pid, rest);
    if Shape(raw).Some? {
      var d := Take(Digit, raw, " ").value;
      var t := Take(Digit, d.1, " ").value;
      var p := Take(Digit, t.1, " ").value;
      TakeIsUnique(Digit, raw, " ", d.0, d.1);
      TakeIsUnique(Digit, d.1, " ", t.0, t.1);
      TakeIsUnique(Digit, t.1, " ", p.0, p.1);
    }
  }

  lemma BodyIs(s: string, level: string, component: string, content: string)
    ensures Body(s) == Some((level, component, content)) <==>
            && Run(Word, level) && Run(Component, component) && NewlineFree(content)
            && (s == level + " " + (component + ": " + content) || s == level + " " + (component + ": " + (content + "\n")))
  {
    forall end | end == content || end == content + "\n"
      ensures (Run(Word, level) && Run(Component, component) && NewlineFree(content)
               && s == level + " " + (component + ": " + end)) ==> Body(s) == Some((level, component, content))
    {
      TakeIsUnique(Word, s, " ", level, component + ": " + end);
      TakeIsUnique(Component, component + ": " + end, ": ", component, end);
      ContentIs(end, content);
    }
    if Body(s) == Some((level, component, content)) {
      var l := Take(Word, s, " ").value;
      var c := Take(Component, l.1, ": ").value;
      TakeIsUnique(Word, s, " ", l.0, l.1);
      TakeIsUnique(Component, l.1, ": ", c.0, c.1);
      ContentIs(c.1, content);
    }
  }

  function PrintWith(f: Fields, end: string): string {
    f.date + " " + (f.time + " " + (f.pid + " " + (f.level + " " + (f.component + ": " + end))))
  }

  lemma PrintParts(f: Fields)
    ensures PrintWith(f, f.content) == Print(f)
    ensures PrintWith(f, f.content + "\n") == Print(f) + "\n"
  {
  }

  /** The scanner finds exactly the fields the regular expression allows, and finds them whenever there
      are any; in particular printing and then splitting gives the same six fields back. */
  lemma SplitExact(raw: string, f: Fields)
    ensures SplitLine(raw) == Some(f) <==> Accepts(raw, f)
    ensures Accepts(raw, f) ==> CanParse(raw)
  {
    PrintParts(f);
    if SplitLine(raw) == Some(f) {
      var rest := Shape(raw).value.3;
      ShapeIs(raw, f.date, f.time, f.pid, rest);
      BodyIs(rest, f.level, f.component, f.content);
    }
    if Accepts(raw, f) {
      var end := if raw == Print(f) then f.content else f.content + "\n";
      var rest := f.level + " " + (f.component + ": " + end);
      ShapeIs(raw, f.date, f.time, f.pid, rest);
      BodyIs(rest, f.level, f.component, f.content);
    }
  }

  // ---------- the block id ----------

  /** `blk_(-?\d+)` at the start of a string. */
  function BlockAt(s: string): Option<string> {
    if |s| < 4 || s[..4] != "blk_" then None else
    var sign := if |s| > 4 && s[4] == '-' then 1 else 0;
    var n := Span(Digit, s[4 + sign..]);
    if n == 0 then None else Some(s[..4 + sign + n])
  }

  /** `_BLOCK_RE.search`: the leftmost place where it matches. */
  function FindBlock(s: string): Option<string> {
    if BlockAt(s).Some? then BlockAt(s) else if s == "" then None else FindBlock(s[1..])
  }

  predicate IsBlockId(id: string) {
    |id| > 4 && id[..4] == "blk_" && (Run(Digit, id[4..]) || (id[4] == '-' && Run(Digit, id[5..])))
  }

  lemma SpanOfRun(cl: Class, run: string, rest: string)
    requires Run(cl, run) && (rest != "" ==> !In(cl, rest[0]))
    ensures Span(cl, run + rest) == |run|
  {
    var s := run + rest;
    forall i | 0 <= i < |run| ensures In(cl, s[i]) { assert s[i] == run[i] && run[i] in run; }
    if rest != "" { assert s[|run|] == rest[0]; }
  }

  lemma SplitAt(a: string, b: string, k: nat)
    requires k <= |a|
    ensures (a + b)[k..] == a[k..] + b && (a + b)[..k] == a[..k] && (a + b)[..|a|] == a
  {
  }

  lemma BlockAtFinds(id: string, rest: string)
    requires IsBlockId(id) && (rest != "" ==> !In(Digit, rest[0]))
    ensures BlockAt(id + rest) == Some(id)
  {
    var sign := if id[4] == '-' then 1 else 0;
    assert id[4..][0] == id[4] && id[4] in id[4..];
    SplitAt(id, rest, 4);
    SplitAt(id, rest, 4 + sign);
    SpanOfRun(Digit, id[4 + sign..], rest);
  }

  lemma SpanIsRun(cl: Class, s: string)
    requires Span(cl, s) > 0
    ensures Run(cl, s[..Span(cl, s)])
  {
    forall c | c in s[..Span(cl, s)] ensures In(cl, c) {
      var i :| 0 <= i < Span(cl, s) && s[i] == c;
    }
  }

  lemma BlockAtOnly(id: string, rest: string)
    requires BlockAt(id + rest) == Some(id)
    ensures IsBlockId(id) && (rest != "" ==> !In(Digit, rest[0]))
  {
    var s := id + rest;
    var sign := if |s| > 4 && s[4] == '-' then 1 else 0;
    var tail := s[4 + sign..];
    var n := Span(Digit, tail);
    SpanIsRun(Digit, tail);
    assert |id| == 4 + sign + n;
    SplitAt(id, rest, 4);
    SplitAt(id, rest, 4 + sign);
    assert id[4 + sign..] == tail[..n];
    assert id[4] == s[4];
    if rest != "" { assert rest[0] == tail[n]; }
  }

  /** At a place of the message the pattern matches `id` exactly when `id` is a block id that the text
      does not continue with a digit. */
  lemma BlockAtIs(s: string, id: string, rest: string)
    requires s == id + rest
    ensures BlockAt(s) == Some(id) <==> IsBlockId(id) && (rest != "" ==> !In(Digit, rest[0]))
  {
    if BlockAt(s) == Some(id) { BlockAtOnly(id, rest); }
    if IsBlockId(id) && (rest != "" ==> !In(Digit, rest[0])) { BlockAtFinds(id, rest); }
  }

  lemma {:induction false} FindBlockMisses(s: string, i: nat)
    requires FindBlock(s).None? && i <= |s|
    ensures BlockAt(s[i..]).None?
  {
    if i == 0 {
      assert s[0..] == s;
    } else {
      assert s[i..] == s[1..][i - 1..];
      FindBlockMisses(s[1..], i - 1);
    }
  }

  /** The search finds the first block id of the message, with all its digits. */
  lemma {:induction false} FindBlockFirst(s: string) returns (i: nat)
    requires FindBlock(s).Some?
    ensures i <= |s| && BlockAt(s[i..]) == FindBlock(s)
    ensures forall j | 0 <= j < i :: BlockAt(s[j..]).None?
  {
    assert s[0..] == s;
    if BlockAt(s).Some? { return 0; }
    var k := FindBlockFirst(s[1..]);
    i := k + 1;
    assert s[i..] == s[1..][k..];
    forall j | 0 <= j < i ensures BlockAt(s[j..]).None? {
      if j > 0 { assert s[j..] == s[1..][j - 1..]; }
    }
  }

  // ---------- the two parsers ----------

  datatype Severity = DEBUG | INFO | WARNING | ERROR | CRITICAL

  function LevelMap(level: string): Option<Severity> {
    if level == "DEBUG" then Some(DEBUG)
    else if level == "INFO" then Some(INFO)
    else if level == "WARN" || level == "WARNING" then Some(WARNING)
    else if level == "ERROR" then Some(ERROR)
    else if level == "FATAL" then Some(CRITICAL)
    else None
  }

  datatype LogRecord = LogRecord(
    timestamp: real,
    source: string,
    severity: Severity,
    message: string,
    pid: string,
    levelRaw: string,
    lineId: Option<string>,
    raw: string,
    blockId: Option<string>,
    eventId: Option<string>,
    parseWarning: Option<string>
  )

  function Warning(level: string): Option<string> {
    if LevelMap(level).None? then Some("unknown level: " + level) else None
  }

  function SeverityOf(level: string): Severity {
    if LevelMap(level).Some? then LevelMap(level).value else INFO
  }

  /** `HDFSParser.parse`; None is a ParserError. */
  function Parse(raw: string, strptime: string -> Option<real>): Option<LogRecord> {
    var split := SplitLine(raw);
    if split.None? then None else
    var f := split.value;
    var timestamp := strptime(f.date + f.time);
    if timestamp.None? then None else
    Some(LogRecord(timestamp.value, f.component, SeverityOf(f.level), f.content, f.pid, f.level, None, raw,
                   FindBlock(f.content), None, Warning(f.level)))
  }

  /** `HDFSStructuredCSVParser.parse` after the CSV split. */
  function ParseCsv(row: seq<string>, strptime: string -> Option<real>): Option<LogRecord> {
    if |row| < 9 then None else
    var f := Fields(row[1], row[2], row[3], row[4], row[5], row[6]);
    var timestamp := strptime(f.date + f.time);
    if timestamp.None? then None else
    Some(LogRecord(timestamp.value, f.component, SeverityOf(f.level), f.content, f.pid, f.level, Some(row[0]), Print(f),
                   FindBlock(f.content), if row[7] != "" then Some(row[7]) else None, Warning(f.level)))
  }

  /** What the level text means for a record. */
  predicate LevelFits(level: string, severity: Severity, warning: Option<string>) {
    var known := level in {"DEBUG", "INFO", "WARN", "WARNING", "ERROR", "FATAL"};
    && (level == "DEBUG" ==> severity == DEBUG) && (level == "INFO" ==> severity == INFO)
    && (level == "WARN" ==> severity == WARNING) && (level == "WARNING" ==> severity == WARNING)
    && (level == "ERROR" ==> severity == ERROR) && (level == "FATAL" ==> severity == CRITICAL)
    && (known ==> warning.None?)
    && (!known ==> severity == INFO && warning == Some("unknown level: " + level))
  }

  /** A record made of a line's six fields: each where it belongs. */
  predicate Holds(r: LogRecord, f: Fields, raw: string, timestamp: real) {
    && r.timestamp == timestamp && r.source == f.component && r.message == f.content
    && r.pid == f.pid && r.levelRaw == f.level && r.raw == raw
    && r.blockId == FindBlock(f.content) && LevelFits(f.level, r.severity, r.parseWarning)
  }

  lemma LevelsFit(level: string)
    ensures LevelFits(level, SeverityOf(level), Warning(level))
  {
  }

  /** A line is parsed exactly when it is the print of some fields with a valid date and time, and the record
      holds those fields. */
  lemma ParseIs(raw: string, f: Fields, strptime: string -> Option<real>)
    requires Accepts(raw, f)
    ensures var record := Parse(raw, strptime); var timestamp := strptime(f.date + f.time);
      && record.Some? == timestamp.Some?
      && (record.Some? ==>
            Holds(record.value, f, raw, timestamp.value) && record.value.lineId.None? && record.value.eventId.None?)
  {
    SplitExact(raw, f);
    ParseOfSplit(raw, f, strptime);
  }

  lemma ParseOfSplit(raw: string, f: Fields, strptime: string -> Option<real>)
    requires SplitLine(raw) == Some(f)
    ensures var record := Parse(raw, strptime); var timestamp := strptime(f.date + f.time);
      && record.Some? == timestamp.Some?
      && (record.Some? ==>
            Holds(record.value, f, raw, timestamp.value) && record.value.lineId.None? && record.value.eventId.None?)
  {
    LevelsFit(f.level);
  }

  lemma ParseNeedsFields(raw: string, strptime: string -> Option<real>)
    requires Parse(raw, strptime).Some?
    ensures exists f :: Accepts(raw, f)
  {
    var f := SplitLine(raw).value;
    SplitExact(raw, f);
  }

  /** The oracle's record holds the columns of its row, the line id and a non-empty event id with them. */
  lemma ParseCsvIs(row: seq<string>, strptime: string -> Option<real>)
    ensures var record := ParseCsv(row, strptime);
      && (record.Some? <==> |row| >= 9 && strptime(row[1] + row[2]).Some?)
      && (record.Some? ==>
            var f := Fields(row[1], row[2], row[3], row[4], row[5], row[6]);
            && Holds(record.value, f, Print(f), strptime(row[1] + row[2]).value)
            && record.value.lineId == Some(row[0])
            && (if row[7] == "" then record.value.eventId.None? else record.value.eventId == Some(row[7])))
  {
    if |row| >= 9 { LevelsFit(row[4]); }
  }

  const LOWER := "abcdefghijklmnopqrstuvwxyz"

  const UPPER := "ABCDEFGHIJKLMNOPQRSTUVWXYZ"

  lemma DigitsAre(c: char)
    ensures c in "0123456789" <==> '0' <= c <= '9'
  {
    var digits := "0123456789";
    assert forall i | 0 <= i < 10 :: digits[i] == '0' + i as char;
    if '0' <= c <= '9' { assert digits[c as int - '0' as int] == c; }
  }

  lemma LowerAre(c: char)
    ensures c in LOWER <==> 'a' <= c <= 'z'
  {
    var lower := LOWER;
    assert forall i | 0 <= i < 26 :: lower[i] == 'a' + i as char;
    if 'a' <= c <= 'z' { assert lower[c as int - 'a' as int] == c; }
  }

  lemma UpperAre(c: char)
    ensures c in UPPER <==> 'A' <= c <= 'Z'
  {
    var upper := UPPER;
    assert forall i | 0 <= i < 26 :: upper[i] == 'A' + i as char;
    if 'A' <= c <= 'Z' { assert upper[c as int - 'A' as int] == c; }
  }

  /** The ASCII members of the three character classes. */
  lemma ClassesAre(c: char)
    ensures In(Digit, c) <==> c in "0123456789"
    ensures In(Word, c) <==> c in "0123456789" || c in LOWER || c in UPPER || c == '_'
    ensures In(Component, c) <==> c in "0123456789" || c in LOWER || c in UPPER || c in "_$."
  {
    DigitsAre(c);
    LowerAre(c);
    UpperAre(c);
  }

  /** On a row that holds a line's fields the oracle succeeds exactly when the line parser does, with the
      same record up to the line id and the event id the CSV adds.  The raw text agrees exactly when the
      line did not keep its final newline. */
  lemma ParsersAgree(raw: string, row: seq<string>, strptime: string -> Option<real>)
    requires |row| >= 9 && Accepts(raw, Fields(row[1], row[2], row[3], row[4], row[5], row[6]))
    ensures var line := Parse(raw, strptime); var csv := ParseCsv(row, strptime);
      && line.Some? == csv.Some?
      && (line.Some? ==>
            && csv.value.(lineId := None, eventId := None, raw := raw) == line.value
            && (csv.value.raw == line.value.raw <==> NewlineFree(raw)))
  {
    var f := Fields(row[1], row[2], row[3], row[4], row[5], row[6]);
    SplitExact(raw, f);
    PrintHasNoNewline(f);
    if raw == Print(f) + "\n" { assert raw[|raw| - 1] == '\n'; }
  }

  lemma PrintHasNoNewline(f: Fields)
    requires WellFormed(f)
    ensures NewlineFree(Print(f))
  {
    var l4 := f.component + ": " + f.content;
    var l3 := f.level + " " + l4;
    var l2 := f.pid + " " + l3;
    var l1 := f.time + " " + l2;
    assert NewlineFree(l4) && NewlineFree(l3) && NewlineFree(l2) && NewlineFree(l1);
    assert NewlineFree(f.date + " " + l1);
    PrintParts(f);
  }

  /** Parsing what the oracle reconstructed gives the oracle's own record back. */
  lemma OracleRoundTrip(row: seq<string>, strptime: string -> Option<real>)
    requires ParseCsv(row, strptime).Some? && WellFormed(Fields(row[1], row[2], row[3], row[4], row[5], row[6]))
    ensures var csv := ParseCsv(row, strptime).value;
      Parse(csv.raw, strptime) == Some(csv.(lineId := None, eventId := None))
  {
    ParsersAgree(Print(Fields(row[1], row[2], row[3], row[4], row[5], row[6])), row, strptime);
  }
}
