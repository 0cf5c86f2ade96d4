/** detectors/sequence.py: n-grams, the model and its JSON form, and the detector. */
module Sequence {
  import opened Wrappers
  import opened SessionModel

  type Gram = seq<string>

  datatype SequenceModel = SequenceModel(n: int, normalNgrams: set<Gram>, vocabulary: set<string>)

  /** `ngrams`: nothing for a sequence shorter than n. */
  function Ngrams(events: seq<string>, n: int): seq<Gram> {
    if n <= 0 || |events| < n then []
    else seq(|events| - n + 1, i requires 0 <= i <= |events| - n => events[i..i + n])
  }

  function GramSet(events: seq<string>, n: int): set<Gram> {
    set g | g in Ngrams(events, n)
  }

  datatype AnomalyEvent = AnomalyEvent(
    logRecordId: nat,
    severity: real,
    blockId: string,
    n: int,
    observedCount: nat,
    novelCount: nat,
    sequenceLength: nat,
    closedReason: Reason
  )

  function Ratio(part: nat, whole: nat): real
    requires whole > 0
  {
    part as real / whole as real
  }

  /** `detect_trace`; `freshId` stands for the random id used when a trace has no records. */
  function DetectTrace(model: SequenceModel, threshold: real, trace: BlockTrace, freshId: nat): Option<AnomalyEvent> {
    var observed := GramSet(trace.eventSequence, model.n);
    if observed == {} then None
    else
      var novel := observed - model.normalNgrams;
      var ratio := Ratio(|novel|, |observed|);
      if ratio <= threshold then None
      else Some(AnomalyEvent(if trace.recordIds != [] then trace.recordIds[0] else freshId, ratio, trace.blockId, model.n,
                             |observed|, |novel|, |trace.eventSequence|, trace.closedReason))
  }

  // ---------- fragments ----------

  predicate OccursAt(g: Gram, events: seq<string>, n: int, i: int) {
    0 <= i && n > 0 && i + n <= |events| && events[i..i + n] == g
  }

  /** What an n-gram is: any n consecutive events, for a positive n. */
  lemma GramIff(events: seq<string>, n: int, g: Gram)
    ensures g in GramSet(events, n) <==> exists i :: OccursAt(g, events, n, i)
  {
    if g in GramSet(events, n) {
      var i :| 0 <= i < |Ngrams(events, n)| && Ngrams(events, n)[i] == g;
      assert OccursAt(g, events, n, i);
    }
    if i :| OccursAt(g, events, n, i) {
      assert Ngrams(events, n)[i] == g;
    }
  }

  lemma OccursInJoin(g: Gram, a: seq<string>, b: seq<string>, n: int, i: int)
    ensures i + n <= |a| ==> (OccursAt(g, a + b, n, i) <==> OccursAt(g, a, n, i))
    ensures i >= |a| ==> (OccursAt(g, a + b, n, i) <==> OccursAt(g, b, n, i - |a|))
  {
    if 0 <= i && 0 < n && i + n <= |a| { assert (a + b)[i..i + n] == a[i..i + n]; }
    if i >= |a| && 0 < n && i + n <= |a| + |b| { assert (a + b)[i..i + n] == b[i - |a|..i - |a| + n]; }
  }

  /** Lies across the boundary between two parts. */
  ghost predicate Straddles(g: Gram, a: seq<string>, b: seq<string>, n: int) {
    exists i :: OccursAt(g, a + b, n, i) && i < |a| < i + n
  }

  lemma JoinSplits(a: seq<string>, b: seq<string>, n: int, g: Gram, i: int)
    requires OccursAt(g, a + b, n, i)
    ensures OccursAt(g, a, n, i) || OccursAt(g, b, n, i - |a|) || Straddles(g, a, b, n)
  {
    OccursInJoin(g, a, b, n, i);
  }

  lemma PartsJoin(a: seq<string>, b: seq<string>, n: int, g: Gram, i: int)
    ensures OccursAt(g, a, n, i) ==> OccursAt(g, a + b, n, i)
    ensures OccursAt(g, b, n, i) ==> OccursAt(g, a + b, n, |a| + i)
  {
    OccursInJoin(g, a, b, n, i);
    OccursInJoin(g, a, b, n, |a| + i);
  }

  /** Cutting a sequence loses exactly the n-grams that lie across the cut. */
  lemma GramsOfJoin(a: seq<string>, b: seq<string>, n: int, g: Gram)
    ensures g in GramSet(a + b, n) <==> g in GramSet(a, n) || g in GramSet(b, n) || Straddles(g, a, b, n)
  {
    GramIff(a + b, n, g);
    GramIff(a, n, g);
    GramIff(b, n, g);
    if i :| OccursAt(g, a + b, n, i) { JoinSplits(a, b, n, g, i); }
    if i :| OccursAt(g, a, n, i) { PartsJoin(a, b, n, g, i); }
    if i :| OccursAt(g, b, n, i) { PartsJoin(a, b, n, g, i); }
  }

  /** Every n-gram of a fragment is an n-gram of the whole. */
  lemma FragmentGrams(before: seq<string>, events: seq<string>, after: seq<string>, n: int)
    ensures GramSet(events, n) <= GramSet(before + events + after, n)
  {
    forall g | g in GramSet(events, n) ensures g in GramSet(before + events + after, n) {
      GramsOfJoin(before, events, n, g);
      GramsOfJoin(before + events, after, n, g);
    }
  }

  /** Without a novel n-gram the detector is silent at every threshold it accepts ... */
  lemma NothingNovelNeverFires(model: SequenceModel, threshold: real, trace: BlockTrace, freshId: nat)
    requires threshold >= 0.0 && GramSet(trace.eventSequence, model.n) <= model.normalNgrams
    ensures DetectTrace(model, threshold, trace, freshId).None?
  {
    assert GramSet(trace.eventSequence, model.n) - model.normalNgrams == {};
  }

  /** ... and at threshold 0 any novel n-gram makes it fire. */
  lemma FiresAtZero(model: SequenceModel, trace: BlockTrace, freshId: nat)
    ensures DetectTrace(model, 0.0, trace, freshId).Some? <==> !(GramSet(trace.eventSequence, model.n) <= model.normalNgrams)
  {
    var observed := GramSet(trace.eventSequence, model.n);
    var novel := observed - model.normalNgrams;
    if !(observed <= model.normalNgrams) {
      var g :| g in observed && g !in model.normalNgrams;
      assert g in novel;
      RatioPositive(|novel|, |observed|);
    } else {
      NothingNovelNeverFires(model, 0.0, trace, freshId);
    }
  }

  /** So at threshold 0 a whole fires if and only if one of two parts does or a novel n-gram lies across the
      cut: closing a trace early can hide only those. */
  lemma CutHidesOnlyStraddlers(model: SequenceModel, whole: BlockTrace, first: BlockTrace, second: BlockTrace,
                               freshId: nat)
    requires whole.eventSequence == first.eventSequence + second.eventSequence
    ensures DetectTrace(model, 0.0, whole, freshId).Some? <==>
            || DetectTrace(model, 0.0, first, freshId).Some?
            || DetectTrace(model, 0.0, second, freshId).Some?
            || exists g :: g !in model.normalNgrams && Straddles(g, first.eventSequence, second.eventSequence, model.n)
  {
    FiresAtZero(model, whole, freshId);
    FiresAtZero(model, first, freshId);
    FiresAtZero(model, second, freshId);
    forall g ensures g in GramSet(whole.eventSequence, model.n) <==>
      g in GramSet(first.eventSequence, model.n) || g in GramSet(second.eventSequence, model.n)
      || Straddles(g, first.eventSequence, second.eventSequence, model.n)
    {
      GramsOfJoin(first.eventSequence, second.eventSequence, model.n, g);
    }
  }

  /** The decision by the ratio the code computes. */
  lemma FiresByRatio(model: SequenceModel, threshold: real, trace: BlockTrace, freshId: nat,
                     observed: set<Gram>, novel: set<Gram>)
    requires observed == GramSet(trace.eventSequence, model.n) && novel == observed - model.normalNgrams
    requires observed != {}
    ensures var event := DetectTrace(model, threshold, trace, freshId);
      && (event.Some? <==> !(Ratio(|novel|, |observed|) <= threshold))
      && (event.Some? ==>
            && event.value.severity == Ratio(|novel|, |observed|)
            && (trace.recordIds != [] ==> event.value.logRecordId == trace.recordIds[0]))
  {
  }

  predicate ShareExceeds(part: nat, whole: nat, t: real) {
    part as real > t * whole as real
  }

  predicate IsShare(share: real, part: nat, whole: nat) {
    share * whole as real == part as real
  }

  /** When it fires at all: the novel n-grams are more than the threshold's share of the distinct ones, the
      severity is that share, and the event is anchored at the trace's first record. */
  lemma FiresIffShareExceeds(model: SequenceModel, threshold: real, trace: BlockTrace, freshId: nat,
                             observed: set<Gram>, novel: set<Gram>)
    requires observed == GramSet(trace.eventSequence, model.n) && novel == observed - model.normalNgrams
    ensures var event := DetectTrace(model, threshold, trace, freshId);
      && (event.Some? <==> observed != {} && ShareExceeds(|novel|, |observed|, threshold))
      && (event.Some? ==>
            && IsShare(event.value.severity, |novel|, |observed|)
            && (trace.recordIds != [] ==> event.value.logRecordId == trace.recordIds[0]))
  {
    if observed != {} {
      FiresByRatio(model, threshold, trace, freshId, observed, novel);
      RatioIsShare(|novel|, |observed|, threshold);
    }
  }

  /** What an event says of its trace: the n-grams that occur in it, those of them that are not normal, its block,
      its length and why it was closed. */
  lemma EventDescribes(model: SequenceModel, threshold: real, trace: BlockTrace, freshId: nat,
                       observed: set<Gram>, novel: set<Gram>)
    requires forall g :: g in observed <==> exists i :: OccursAt(g, trace.eventSequence, model.n, i)
    requires forall g :: g in novel <==> g in observed && g !in model.normalNgrams
    requires DetectTrace(model, threshold, trace, freshId).Some?
    ensures var event := DetectTrace(model, threshold, trace, freshId).value;
      && event.observedCount == |observed| && event.novelCount == |novel| && event.n == model.n
      && event.blockId == trace.blockId && event.closedReason == trace.closedReason
      && event.sequenceLength == |trace.eventSequence|
      && event.logRecordId == if trace.recordIds != [] then trace.recordIds[0] else freshId
  {
    forall g ensures g in observed <==> g in GramSet(trace.eventSequence, model.n) {
      GramIff(trace.eventSequence, model.n, g);
    }
    assert observed == GramSet(trace.eventSequence, model.n);
    assert novel == observed - model.normalNgrams;
  }

  lemma Divides(x: real, y: real, q: real, t: real)
    requires y > 0.0 && q == x / y
    ensures q * y == x && (q <= t <==> x <= t * y)
  {
    if q > t { assert (q - t) * y > 0.0; }
    if q <= t { assert (t - q) * y >= 0.0; }
  }

  lemma RatioIsShare(part: nat, whole: nat, t: real)
    requires whole > 0
    ensures IsShare(Ratio(part, whole), part, whole)
    ensures Ratio(part, whole) <= t <==> !ShareExceeds(part, whole, t)
  {
    Divides(part as real, whole as real, Ratio(part, whole), t);
  }

  lemma RatioPositive(part: nat, whole: nat)
    requires part > 0 && whole > 0
    ensures Ratio(part, whole) > 0.0
  {
  }

  // ---------- the model as JSON ----------

  datatype Json = JInt(i: int) | JStr(s: string) | JList(items: seq<Json>)

  /** The tuple of a list of values; `str` is applied to each. A string is iterated character by
      character, and a number is no iterable. */
  function Tuple(g: Json, str: Json -> string): Option<seq<string>> {
    match g
    case JList(items) => Some(Strings(items, str))
    case JStr(s) => Some(seq(|s|, i requires 0 <= i < |s| => [s[i]]))
    case JInt(_) => None
  }

  function Strings(items: seq<Json>, str: Json -> string): seq<string> {
    if items == [] then [] else [if items[0].JStr? then items[0].s else str(items[0])] + Strings(items[1..], str)
  }

  function Tuples(items: seq<Json>, str: Json -> string): Option<set<Gram>> {
    if items == [] then Some({})
    else var g := Tuple(items[0], str); var rest := Tuples(items[1..], str);
      if g.None? || rest.None? then None else Some({g.value} + rest.value)
  }

  function Field(data: map<string, Json>, key: string, default: Json): Json {
    if key in data then data[key] else default
  }

  /** `from_dict`; None is a malformed model. */
  function FromDict(data: map<string, Json>, str: Json -> string): Option<SequenceModel> {
    var n := Field(data, "n", JInt(2));
    var grams := Field(data, "normal_ngrams", JList([]));
    var vocabulary := Field(data, "vocabulary", JList([]));
    if !n.JInt? || !grams.JList? || !vocabulary.JList? then None else
    var normal := Tuples(grams.items, str);
    if normal.None? then None else
    Some(SequenceModel(n.i, normal.value, set v | v in Strings(vocabulary.items, str)))
  }

  lemma {:induction false} TuplesFail(items: seq<Json>, str: Json -> string)
    ensures Tuples(items, str).None? <==> exists g :: g in items && g.JInt?
  {
    if items == [] {
    } else {
      TuplesFail(items[1..], str);
      assert items == [items[0]] + items[1..];
    }
  }

  /** Whatever is absent has its default. */
  lemma DefaultModel(str: Json -> string)
    ensures FromDict(map[], str) == Some(SequenceModel(2, {}, {}))
  {
    assert Strings([], str) == [];
    assert (set v | v in Strings([], str)) == {};
  }

  /** A model is malformed exactly when n is there and no integer, one of the lists is there and no list, or an
      n-gram is a number. */
  lemma MalformedIff(data: map<string, Json>, str: Json -> string)
    ensures FromDict(data, str).None? <==>
              || ("n" in data && !data["n"].JInt?)
              || ("normal_ngrams" in data && !data["normal_ngrams"].JList?)
              || ("vocabulary" in data && !data["vocabulary"].JList?)
              || ("normal_ngrams" in data && data["normal_ngrams"].JList?
                  && exists g :: g in data["normal_ngrams"].items && g.JInt?)
  {
    var grams := Field(data, "normal_ngrams", JList([]));
    if grams.JList? { TuplesFail(grams.items, str); }
  }

  function JStrings(ss: seq<string>): seq<Json> {
    if ss == [] then [] else [JStr(ss[0])] + JStrings(ss[1..])
  }

  function JGrams(gs: seq<Gram>): seq<Json> {
    if gs == [] then [] else [JList(JStrings(gs[0]))] + JGrams(gs[1..])
  }

  /** `to_dict` when the set of n-grams is enumerated as `grams` and the vocabulary as `vocabulary`. */
  function ToDict(n: int, grams: seq<Gram>, vocabulary: seq<string>): map<string, Json> {
    map["n" := JInt(n), "normal_ngrams" := JList(JGrams(grams)), "vocabulary" := JList(JStrings(vocabulary))]
  }

  lemma {:induction false} StringsBack(ss: seq<string>, str: Json -> string)
    ensures Strings(JStrings(ss), str) == ss
  {
    if ss == [] {
    } else {
      StringsBack(ss[1..], str);
    }
  }

  lemma {:induction false} TuplesBack(gs: seq<Gram>, str: Json -> string)
    ensures Tuples(JGrams(gs), str) == Some(set g | g in gs)
  {
    if gs == [] {
      assert (set g | g in gs) == {};
    } else {
      TuplesBack(gs[1..], str);
      StringsBack(gs[0], str);
      assert JGrams(gs)[0] == JList(JStrings(gs[0])) && JGrams(gs)[1..] == JGrams(gs[1..]);
      assert (set g | g in gs) == {gs[0]} + set g | g in gs[1..];
    }
  }

  /** Writing a model and reading it back gives the same model, in whatever order its sets are listed. */
  lemma DictRoundTrip(model: SequenceModel, grams: seq<Gram>, vocabulary: seq<string>, str: Json -> string)
    requires model.normalNgrams == (set g | g in grams) && model.vocabulary == set v | v in vocabulary
    ensures FromDict(ToDict(model.n, grams, vocabulary), str) == Some(model)
  {
    TuplesBack(grams, str);
    StringsBack(vocabulary, str);
  }

  /** The elements of a set, in some order. */
  method Enumerate<T(==)>(elements: set<T>) returns (list: seq<T>)
    ensures elements == set e | e in list
  {
    list := [];
    var rest := elements;
    while rest != {}
      invariant rest <= elements && elements - rest == set e | e in list
      decreases rest
    {
      var e :| e in rest;
      ghost var before := set x | x in list;
      list := list + [e];
      assert (set x | x in list) == before + {e};
      rest := rest - {e};
    }
  }

  /** `to_dict` on a model, whatever order the sets come in: `from_dict` reads the model back. */
  method Dump(model: SequenceModel, ghost str: Json -> string) returns (data: map<string, Json>)
    ensures FromDict(data, str) == Some(model)
  {
    var grams := Enumerate(model.normalNgrams);
    var vocabulary := Enumerate(model.vocabulary);
    data := ToDict(model.n, grams, vocabulary);
    DictRoundTrip(model, grams, vocabulary, str);
  }
}
