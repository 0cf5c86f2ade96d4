# PipelineX, verified model

PipelineX is a single-process asyncio log pipeline: a producer feeds a bounded queue, workers run each
record through stages and buffer it, and batches go to a repository. One stage cuts the stream into
traces, one per HDFS block, and a detector scores each trace against n-grams collected offline. This
project models that behaviour in Dafny and proves properties of it, over every input, every run and every
interleaving. `dafny verify dfyconfig.toml` checks everything.

## Layout

| Files | Content |
|---|---|
| `ExecutorModel`, `ExecutorSafety`, `ExecutorProgress`, `ExecutorAtomic`, `ExecutorRuns`, `ExecutorOrder`, `PipelineExecutor` | `core/pipeline.py`: a transition system with a program counter per task, its invariants, its progress, the runs in which the lock never waits and what holds only of them, exact conditions on the configuration, the order of records, and the class whose methods are the code between two awaits |
| `SessionModel`, `SessionTheorems`, `SessionBounds`, `SessionTraces`, `SessionJanitor`, `SessionCap`, `SessionEviction`, `BlockSessionizer` | `block_sessionizer.py`: the machine over chunks of records, theorems over every sequence of calls, what the janitor decides in terms of the calls alone, exactly when the cap and the eviction do what the docstring says, and the two classes proved against the machine |
| `Sequence`, `Training`, `EndToEnd` | the n-gram detector, the offline trainer, and the theorem that joins trainer, sessionizer and detector |
| `HdfsParsing`, `Templates` | the HDFS line parser against its CSV oracle, and template matching |
| `Windows`, `Cusum`, `Iqr`, `ZScore` | the numeric detectors against simple specifications |
| `RateLimit`, `Retry` | the token bucket and the retry decorator |
| `Wrappers` | `Option` |

## How things are modelled

**Executor.** An action is what one task does between two of its awaits; a run is any finite list of actions,
each enabled where it is taken. Taking the batch lock is an action of its own, so these runs include
interleavings the code does not have: nothing awaits inside a body of the lock, so it is never held where a
task is suspended. Theorems for all states of these runs (`Reachable`) therefore hold of the code, and would
still hold if an await were put inside the lock. Whatever claims that a run exists, or holds only without
such interleavings, is about the runs of `ExecutorAtomic` (`Attainable`), where a task that has reached the
lock goes on to the end of the lock's body. A record is the position of its line. `Config.raises` covers
sources that raise after their last line; cancellation can then hit a worker at any of its awaits. Unless a
row says otherwise, a theorem covers both kinds of source. `Finished` means that the finally block is done:
`run` then returns its result, or, when the source raised, raises that again and has no result. A place
invariant is stated with additive measures: every function on lists of records that is additive over
concatenation (length, or the occurrences of one record) gives the same total over all places as over the
records pulled so far. The class has one method for each segment of a task's code (`PullLine` to `MainTask`),
each proved equal to its action; `Resume` joins them, and `PipelineExecutor.Run` takes an arbitrary schedule
and its contract is the conservation law.

**Sessionizer.** A trace is determined by the chunk of records it has taken in. `process`, the janitor pass
and `stop` each run under one lock, so a run is a list of whole calls in any order; a janitor pass may be
cut short by `stop` after closing any number of traces. The incremental fields of `_OpenTrace` and the
ordered dictionary are proved to follow the chunks.

**Numbers.** Floats are reals. The square roots of the detectors are parameters: z-score's is a
non-negative number whose square is the variance, and CUSUM's may be any number.

## Where documentation and code differ

The code is followed, and a theorem says exactly when it does what the documentation says.

* `docs/concurrency-model.md:66` says that consumers drain the queue when the source raises. `run` cancels
  them at once (`core/pipeline.py:97-101`). Whenever the finally block is done every line has been counted, if
  and only if the source ends normally or has no lines: `CountsEveryLineIff`. And `processed` is then the
  number of saved records, if and only if the source ends normally, or has fewer lines than a batch, or
  batches are of one record: `ProcessedIsSavedIff`.
* `docs/PRESENTATION.md:1463` says that everything drains in queue order. Records leave the queue in order
  (`QueueIsFifo`), but several workers, or one worker's batch and the flusher's, are saved at once, and the
  repository's order is that in which `save_batch` completes. It is the order of the lines in every run, if and
  only if there is at most one line, or one worker and no more lines than a batch or batches of one record:
  `SavedInOrderIff`.
* The sessionizer's docstring caps `record_count`. The code counts events (`block_sessionizer.py:209`) and
  closes at the cap, not beyond it. The cap holds of a stream, whatever the settings and the order of calls,
  if and only if in each block every record but the last has an event id: `CapHoldsIff`.
* The docstring evicts the trace with the oldest `last_timestamp`. The code evicts the block that has gone
  longest without a record (`block_sessionizer.py:198,214`). While neither the cap nor the janitor closes a
  trace, every victim is the oldest, for any number of open traces, if and only if every record that switches
  to another block is dated no earlier than all records before it: `VictimsOldestIff`. A trace closed by the
  cap (or the janitor) reopens with only the records after it, which may be older than those before, so there
  the condition no longer suffices: `CapBreaksOrder`. Which records then end up in which trace depends on every
  event id and on when the janitor runs, so no condition on blocks and timestamps alone is exact. Arrival in
  timestamp order suffices for every run: `EvictsOldestWhenInOrder`.
* The token bucket's bound by elapsed time holds, for every limiter and every window, if and only if the clock
  readings never step back: `BoundedIffClockMonotone`. The bound by tokens earned holds for every clock.
* CUSUM's docstring writes its sums in the unit of the metric (`cusum.py:9-10`). The code divides by sigma
  (`cusum.py:98`), so slack and threshold count standard deviations: `DeviationOrder`.
* The HDFS regular expression ends in `$`, which also matches before a final newline. The oracle's
  reconstruction then lacks that newline: `ParsersAgree` says that the raw texts are equal exactly when the
  line has none.

## Model

| member | source | states |
|---|---|---|
| ExecutorSafety.StepInv | src/pipelinex/core/pipeline.py:124-189 | every action of every task keeps the invariant: lock ownership, meaning of the counters, sizes, and the place of every record |
| ExecutorSafety.ReachableInv | src/pipelinex/core/pipeline.py:77-189 | the invariant holds in every reachable state of every interleaving |
| ExecutorSafety.OnePlaceEach | src/pipelinex/core/pipeline.py:124-180 | in every reachable state a pulled record is in exactly one place (producer, queue, a worker, dropped, buffer, a batch being saved, saved, lost, cut off) and a record not yet pulled is nowhere |
| ExecutorSafety.CountersMean | src/pipelinex/core/pipeline.py:145-180 | in every reachable state `processed` plus the workers that buffered but have not counted (those cancelled in between included) equals buffer, in-flight batches, saved records and cut-off batches; the last two corrections are needed only after a raising source's shutdown; `failed` is dropped plus lost; `processed` is at least minus the number of workers |
| ExecutorSafety.RunConserves | src/pipelinex/core/pipeline.py:94-105 | when the finally block is done after a normally ending source, processed = saved, failed = dropped + lost, they add up to the lines, and every line is in exactly one of the groups once |
| ExecutorSafety.Shortfall | src/pipelinex/core/pipeline.py:94-102 | for any source, the counters fall short of the lines by exactly the queue's unfinished tasks when the finally block began; they add up if and only if there were none |
| ExecutorSafety.ShutdownFindsWorkersIdle | src/pipelinex/core/pipeline.py:96-101 | after a normally ending source, cancellation reaches only workers that hold no record, and the queue is empty |
| ExecutorSafety.Bounded | src/pipelinex/core/pipeline.py:161-176 | in every reachable state, even if an await inside the lock let other tasks in, the queue never exceeds its size, the buffer and every batch given to `save_batch` have at most batch_size - 1 + num_workers records, and every batch is non-empty; the buffer has at most batch_size - 1 plus one record per worker waiting to flush, except after a raising source's shutdown |
| ExecutorRuns.RaisingSourceLosesRecords | src/pipelinex/core/pipeline.py:97-101 | under every configuration, a source that raises after at least one line has a run at whose end a line is counted nowhere |
| ExecutorRuns.CountsEveryLineIff | src/pipelinex/core/pipeline.py:94-102 | whenever the finally block is done every line is counted, if and only if the source ends normally or has no lines |
| ExecutorSafety.ProcessedAtEnd | src/pipelinex/core/pipeline.py:94-102 | when the finally block is done, for any source, `processed` is the saved and cut-off records less the workers cancelled before counting their own |
| ExecutorRuns.ProcessedIsSavedIff | src/pipelinex/core/pipeline.py:97-102 | whenever the finally block is done `processed` is the number of saved records, if and only if the source ends normally, or has fewer lines than a batch, or a batch is one record |
| ExecutorRuns.ExcessAtEnd | src/pipelinex/core/pipeline.py:97-102 | then `processed` exceeds the saved records by batch_size - 1, and batch_size records were cut off, for each worker cancelled while saving |
| ExecutorAtomic.ProcessedIsAhead | src/pipelinex/core/pipeline.py:145-180 | whenever no task is at the lock, the buffer is below batch_size, and `processed` is the records saved, buffered and in the flusher's or the final batch plus batch_size - 1 for each worker saving a batch or cancelled doing so |
| ExecutorAtomic.ProcessedCoversSaved | src/pipelinex/core/pipeline.py:175-180 | `processed` is never below the number of saved records, hence never negative, for all its compensation |
| ExecutorAtomic.BatchesExact | src/pipelinex/core/pipeline.py:161-176 | a worker saves exactly batch_size records, the flusher and the final drain at least one and fewer; the buffer is full only inside the lock code of the worker that filled it |
| ExecutorAtomic.CompletesRun | src/pipelinex/core/pipeline.py:94-102 | every state of such a run has a continuation to the end that is such a run |
| ExecutorProgress.NoDeadlock | src/pipelinex/core/pipeline.py:87-102 | in every state short of the end some task can take a step that is not a timer's (full queue, batch lock and `join` included), where the one sleep of the flusher that shutdown finds under way does not count as a timer |
| ExecutorProgress.StepMeasure | src/pipelinex/core/pipeline.py:124-189 | every step but a `get` timeout or a flusher tick before shutdown strictly decreases one measure |
| ExecutorProgress.RunLength | src/pipelinex/core/pipeline.py:124-189 | in any run the steps other than `get` timeouts and flusher wake-ups before shutdown number at most that measure plus three per flusher wake-up |
| ExecutorProgress.CanFinish | src/pipelinex/core/pipeline.py:94-102 | every state has a continuation to the end without a timer, but for at most one last flusher wake-up after shutdown |
| ExecutorOrder.QueueIsFifo | src/pipelinex/core/pipeline.py:124-137 | in every reachable state the queue and then the producer's hand are exactly the records pulled last, consecutive and in order |
| ExecutorOrder.GetTakesOldest | src/pipelinex/core/pipeline.py:137 | a `get` gives the oldest record that no worker has had |
| ExecutorOrder.OneWorkerKeepsOrder | src/pipelinex/core/pipeline.py:133-176 | with one worker, in every reachable state, what is being saved by each task, the buffer, the record in the stages, the queue and the producer's hand, end to end, are in the order of the lines |
| ExecutorOrder.SavedInOrderIff | src/pipelinex/core/pipeline.py:161-189 | in every run the repository holds its records in the order of their lines, if and only if there is at most one line, or one worker and no more lines than a batch or batches of one record |
| ExecutorOrder.BatchOvertakes | src/pipelinex/core/pipeline.py:175-189 | with one worker and more lines than a batch of at least two there is a run in which the worker's full batch is saved before the flusher's earlier one |
| ExecutorOrder.WorkersOvertake | src/pipelinex/core/pipeline.py:133-146 | with two workers and two lines there is a run that saves the later line first |
| ExecutorRuns.QueueCanFill | src/pipelinex/core/pipeline.py:61 | with at least queue_size lines there is a run that fills the queue |
| ExecutorRuns.CountsFaults | src/pipelinex/core/pipeline.py:141-180 | over a normally ending source, a run in which no save fails saves every line but those a stage refused, and `failed` counts exactly those; a run in which every save fails saves none and counts every line as failed |
| ExecutorRuns.FlushTakesAll | src/pipelinex/core/pipeline.py:168-173 | a flush leaves the buffer empty and gives all of it to `save_batch` |
| PipelineExecutors.PipelineExecutor.constructor | src/pipelinex/core/pipeline.py:60-71 | a new executor is in the initial state |
| PipelineExecutors.PipelineExecutor.Resume | src/pipelinex/core/pipeline.py:77-189 | the code between two awaits of any ready task of any kind has exactly the effect of the corresponding action |
| PipelineExecutors.PipelineExecutor.Run | src/pipelinex/core/pipeline.py:77-120 | under every schedule: there is a result exactly when the finally block is done and the source did not raise, and it obeys the conservation law; for any source the counters fall short of the lines by the debt at shutdown, and `processed` is never below what was saved |
| SessionTheorems.NothingLost | src/pipelinex/stages/sessionizing/block_sessionizer.py:162-266 | for every sequence of calls and every block, the emitted chunks in order and then the open one are exactly the block's records in arrival order |
| SessionTheorems.StepTakes | src/pipelinex/stages/sessionizing/block_sessionizer.py:162-217 | one call adds to a block's chunks exactly the record it was given, whatever it closes |
| SessionTraces.TracesReproduceStream | src/pipelinex/stages/sessionizing/block_sessionizer.py:89-97 | the published record ids and the non-empty event ids, then the open trace's, are exactly the block's in arrival order |
| SessionTraces.StopPublishesAll | src/pipelinex/stages/sessionizing/block_sessionizer.py:162-174 | after `stop` nothing is open and every record with a block id is published as often as it arrived |
| SessionTraces.TraceIsFragment | src/pipelinex/stages/sessionizing/block_sessionizer.py:221-236 | every published trace is a consecutive piece of its block's records |
| SessionTraces.TerminalMeansEvent | src/pipelinex/stages/sessionizing/block_sessionizer.py:205-206 | the terminal flag is set exactly when some record's event id, empty or not, is terminal; that is, when the event sequence contains a terminal event, or the empty string is terminal and some record has it |
| SessionCap.CapHoldsIff | src/pipelinex/stages/sessionizing/block_sessionizer.py:208-211 | no trace of any run over a stream, under any settings, exceeds the cap in records, if and only if in each block every record but the last has an event id |
| SessionCap.CapBoundsRecords | src/pipelinex/stages/sessionizing/block_sessionizer.py:208-211 | in such a stream no trace, open or published, of one given run exceeds the cap |
| SessionCap.RecordCountUnbounded | src/pipelinex/stages/sessionizing/block_sessionizer.py:209 | under any settings a trace can hold any number of records without event ids |
| SessionEviction.SecondBlockEvictsFirst | src/pipelinex/stages/sessionizing/block_sessionizer.py:213-215 | where one trace may be open, the second of two dated blocks evicts the first, which is the older if and only if it arrived with the older timestamp |
| SessionEviction.VictimsOldestIff | src/pipelinex/stages/sessionizing/block_sessionizer.py:189-215 | for dated records below the cap: every LRU victim, for every bound on open traces, has the oldest last timestamp, if and only if every record that switches block is dated no earlier than all before it |
| SessionEviction.CapBreaksOrder | src/pipelinex/stages/sessionizing/block_sessionizer.py:208-215 | at a cap within reach, a stream without backward switches whose LRU victim is newer than a trace that stays open |
| SessionEviction.EvictsOldestWhenInOrder | src/pipelinex/stages/sessionizing/block_sessionizer.py:198-215 | in every run, cap, janitor and `stop` included, whose records arrive in timestamp order the LRU victim has the oldest last timestamp of all open traces |
| SessionBounds.Bounded | src/pipelinex/stages/sessionizing/block_sessionizer.py:208-215 | at every lock release at most max_open_traces traces are open, each with fewer than max_records_per_trace events; emitted ones have at most that many, reached by their last record if at all |
| SessionBounds.OrderedByRecency | src/pipelinex/stages/sessionizing/block_sessionizer.py:189-198 | the dictionary is always ordered by when each block last received a record |
| SessionBounds.ProcessEmits | src/pipelinex/stages/sessionizing/block_sessionizer.py:208-215 | `process` emits at most one trace: its own, with exactly the cap of events, or else, only where the others leave the bound on open traces reached, the least recently touched block, never its own |
| SessionBounds.TraceTimes | src/pipelinex/stages/sessionizing/block_sessionizer.py:93-97 | over dated records the two timestamps of a trace are the least and the greatest |
| SessionBounds.FullPass | src/pipelinex/stages/sessionizing/block_sessionizer.py:253-266 | a full pass closes exactly the traces with a verdict and keeps the others, both in order; JanitorDecides says what the verdict is |
| SessionBounds.JanitorIdempotent | src/pipelinex/stages/sessionizing/block_sessionizer.py:246-266 | a pass right after a full one changes nothing |
| SessionBounds.SurvivorsAreFresh | src/pipelinex/stages/sessionizing/block_sessionizer.py:246-266 | after a full pass every open trace's last timestamp lies in [latest - idle, latest] and none holds a terminal event |
| SessionJanitor.LatestIsGreatest | src/pipelinex/stages/sessionizing/block_sessionizer.py:184-187 | the stage's latest timestamp is the greatest that any record taken in has, and None when none is dated |
| SessionJanitor.EveryTraceStarted | src/pipelinex/stages/sessionizing/block_sessionizer.py:189-196 | every trace began with a processed record: at its time, or, without one, at the clock readings of that call |
| SessionJanitor.JanitorDecides | src/pipelinex/stages/sessionizing/block_sessionizer.py:246-266 | after any calls, a full pass keeps an open trace if and only if none of its records has a terminal event and it was started, or has a record dated, no earlier than the idle window before the greatest timestamp taken in; it publishes any other, as terminal exactly when it has a terminal event, else as timeout |
| SessionJanitor.JanitorKeepsRecent | src/pipelinex/stages/sessionizing/block_sessionizer.py:246-266 | the same over dated records, by the dates of the trace's records alone |
| SessionJanitor.PartialPass | src/pipelinex/stages/sessionizing/block_sessionizer.py:264-266 | a pass cut short after k traces has published the first k of a full pass |
| SessionJanitor.PublishedInOrder | src/pipelinex/stages/sessionizing/block_sessionizer.py:170-266 | what one call publishes comes in the order in which the blocks last received a record |
| SessionJanitor.ReasonsByCall | src/pipelinex/stages/sessionizing/block_sessionizer.py:170-266 | `process` publishes traces only as evicted, the janitor as terminal or timeout, `stop` as shutdown |
| SessionJanitor.PublishedTrace | src/pipelinex/stages/sessionizing/block_sessionizer.py:221-232 | every published trace names its block, counts its record ids, and its ids and events are a consecutive piece of what arrived for that block |
| SessionJanitor.EventsIff | src/pipelinex/stages/sessionizing/block_sessionizer.py:90-91 | an event is in a sequence exactly when it is not empty and some record has it |
| SessionJanitor.ArrivalsAreProcessed | src/pipelinex/stages/sessionizing/block_sessionizer.py:176-179 | the arrivals of a block are all records that `process` was called with that have its id |
| BlockSessionizers.OpenTrace.Add | src/pipelinex/stages/sessionizing/block_sessionizer.py:89-97 | a non-empty event id and the record id are appended, the timestamps widened |
| BlockSessionizers.OpenTrace.TakeIn | src/pipelinex/stages/sessionizing/block_sessionizer.py:200-206 | the incremental fields stay what the chunk determines |
| BlockSessionizers.BlockSessionizerStage.Emit | src/pipelinex/stages/sessionizing/block_sessionizer.py:221-236 | what is published is the sealed chunk, and the counter follows |
| BlockSessionizers.BlockSessionizerStage.ProcessRecord | src/pipelinex/stages/sessionizing/block_sessionizer.py:176-217 | `process` refines the machine's step |
| BlockSessionizers.BlockSessionizerStage.Lookup | src/pipelinex/stages/sessionizing/block_sessionizer.py:189-198 | the block's trace, found or new, ends up at the recent end and the others keep their order |
| BlockSessionizers.BlockSessionizerStage.PopAndEmit | src/pipelinex/stages/sessionizing/block_sessionizer.py:265-266 | one key leaves the dictionary and its trace is published |
| BlockSessionizers.BlockSessionizerStage.SettleTrace | src/pipelinex/stages/sessionizing/block_sessionizer.py:208-215 | the hard cap, else LRU eviction, refines the machine |
| BlockSessionizers.BlockSessionizerStage.ListDue | src/pipelinex/stages/sessionizing/block_sessionizer.py:253-262 | the first janitor loop lists exactly the traces the machine closes, in order; JanitorDecides says which those are |
| BlockSessionizers.BlockSessionizerStage.CloseFirst | src/pipelinex/stages/sessionizing/block_sessionizer.py:264-266 | the second loop removes and publishes the listed traces in order |
| BlockSessionizers.BlockSessionizerStage.JanitorPass | src/pipelinex/stages/sessionizing/block_sessionizer.py:246-266 | listing and then closing one by one equals one sweep of the machine, also when interrupted; JanitorDecides and PartialPass say what a sweep does |
| BlockSessionizers.BlockSessionizerStage.StopStage | src/pipelinex/stages/sessionizing/block_sessionizer.py:170-174 | every open trace is published in order with reason shutdown |
| Sequence.GramIff | src/pipelinex/detectors/sequence.py:81-87 | the n-grams are exactly the runs of n consecutive events, none when n is not positive or the sequence too short |
| Sequence.GramsOfJoin | src/pipelinex/detectors/sequence.py:81-87 | cutting a sequence in two loses exactly the n-grams that lie across the cut |
| Sequence.FragmentGrams | src/pipelinex/detectors/sequence.py:81-87 | the n-grams of a fragment are n-grams of the whole |
| Sequence.NothingNovelNeverFires | src/pipelinex/detectors/sequence.py:117-128 | a trace without a novel n-gram gets no event at any threshold >= 0 |
| Sequence.FiresAtZero | src/pipelinex/detectors/sequence.py:123-128 | at threshold 0 the detector fires if and only if some n-gram is novel |
| Sequence.CutHidesOnlyStraddlers | src/pipelinex/detectors/sequence.py:117-128 | at threshold 0 a sequence fires if and only if one of two parts does or a novel n-gram lies across the cut |
| Sequence.FiresIffShareExceeds | src/pipelinex/detectors/sequence.py:117-137 | at every threshold it fires if and only if the novel n-grams exceed that share of the distinct ones; the severity is the share; the anchor is the first record |
| Sequence.EventDescribes | src/pipelinex/detectors/sequence.py:130-147 | an event gives the number of n-grams that occur in the trace and of those not normal, the block, the length, the reason it was closed, n, and the first record id or a fresh one |
| Sequence.MalformedIff | src/pipelinex/detectors/sequence.py:56-65 | `from_dict` fails exactly when n is there and no integer, a list is there and no list, or an n-gram is a number |
| Sequence.DefaultModel | src/pipelinex/detectors/sequence.py:57-62 | an empty dictionary is the empty model with n = 2 |
| Sequence.DictRoundTrip | src/pipelinex/detectors/sequence.py:55-78 | `from_dict` after `to_dict` gives the model back, in whatever order its sets are listed |
| Sequence.Dump | src/pipelinex/detectors/sequence.py:73-78 | `to_dict` writes something `from_dict` reads back as the same model |
| Training.GroupEvents | scripts/train_sequence_model.py:96-117 | the grouping loop computes the fold of the considered lines |
| Training.AddLine | scripts/train_sequence_model.py:100-117 | one line extends its block's list or, skipped, changes nothing |
| Training.LineEventIs | scripts/train_sequence_model.py:100-117 | a line that, its newlines taken off, is the print of some fields counts for the first block id of its message with the event of its template, when it has both and a valid date |
| Training.LineEventNeedsFields | scripts/train_sequence_model.py:103-107 | no other line counts |
| Training.RStripIs | scripts/train_sequence_model.py:100 | exactly the newlines at the end are taken off |
| Training.ConsideredPrefix | scripts/train_sequence_model.py:98-99 | the first m lines are read, none for a negative m, all when there are fewer |
| Training.GroupedGroups | scripts/train_sequence_model.py:90-117 | the dictionary holds exactly the blocks with an event, each with its events in file order |
| Training.BuildModel | scripts/train_sequence_model.py:132-159 | an n-gram is normal exactly when a block labelled Normal contains it; the vocabulary is the events of all labelled blocks |
| EndToEnd.TrainerSeesOnlineEvents | scripts/train_sequence_model.py:100-117 | for every block of a log the trainer's events are those of the online records |
| EndToEnd.TrainedNormalNeverFires | src/pipelinex/detectors/sequence.py:117-128 | however the sessionizer cuts up a block trained as Normal, none of its traces fires |
| EndToEnd.FragmentFiresThenWholeFires | src/pipelinex/detectors/sequence.py:117-128 | at threshold 0, if a fragment of a block fires then so does its whole sequence |
| EndToEnd.TrainThenDetect | scripts/train_sequence_model.py:82-160 | the whole path, model file included: train on a log, detect on the same block online, no trace fires |
| HdfsParsing.TakeIsUnique | src/pipelinex/stages/parsing/hdfs_parser.py:26-29 | a group and its following literal split a line in one way only |
| HdfsParsing.SplitExact | src/pipelinex/stages/parsing/hdfs_parser.py:26-56 | the split returns the fields if and only if the line is their print, perhaps with a final newline; such a line is claimed by `can_parse` |
| HdfsParsing.BlockAtIs | src/pipelinex/stages/parsing/hdfs_parser.py:30 | at a place the pattern matches exactly a block id with all its digits |
| HdfsParsing.FindBlockFirst | src/pipelinex/stages/parsing/hdfs_parser.py:84-86 | the search returns the match at the first place that has one |
| HdfsParsing.FindBlockMisses | src/pipelinex/stages/parsing/hdfs_parser.py:84-86 | the search fails only when no place has one |
| HdfsParsing.ParseIs | src/pipelinex/stages/parsing/hdfs_parser.py:53-91 | a line that is the print of fields is parsed exactly when date and time are valid; the record then holds the component as source, the content as message, pid, level and raw text, the first block id, the severity of the six known levels and INFO with a warning for any other |
| HdfsParsing.ParseNeedsFields | src/pipelinex/stages/parsing/hdfs_parser.py:53-56 | no other line is parsed |
| HdfsParsing.ParseCsvIs | src/pipelinex/stages/parsing/hdfs_structured_csv_parser.py:65-113 | a row is parsed exactly when it has nine columns and a valid date and time; the record holds each column where it belongs, and a non-empty event id |
| HdfsParsing.ClassesAre | src/pipelinex/stages/parsing/hdfs_parser.py:26-29 | the characters of the groups, spelled out |
| HdfsParsing.ParsersAgree | src/pipelinex/stages/parsing/hdfs_structured_csv_parser.py:74-121 | line parser and oracle succeed together with the same record; the raw texts agree exactly when the line has no newline |
| HdfsParsing.OracleRoundTrip | src/pipelinex/stages/parsing/hdfs_structured_csv_parser.py:113-121 | parsing the oracle's reconstructed line gives the oracle's record |
| Templates.SplitRejoins | src/pipelinex/stages/enrichment/template_matcher.py:30 | the literal parts with the template's own wildcards between them are the template |
| Templates.WildcardsAreSpelled | src/pipelinex/stages/enrichment/template_matcher.py:30 | a template is cut only at "<*>" and "[*]" |
| Templates.SplitCuts | src/pipelinex/stages/enrichment/template_matcher.py:30 | it is cut at its first wildcard in either spelling, and not at all without one |
| Templates.PartsAreLiteral | src/pipelinex/stages/enrichment/template_matcher.py:67-69 | neither "<*>" nor "[*]" is left inside a part |
| Templates.MatchIffPlaced | src/pipelinex/stages/enrichment/template_matcher.py:70-72 | taking every part at its leftmost place succeeds if and only if some placement of the parts exists |
| Templates.MatchIffFits | src/pipelinex/stages/enrichment/template_matcher.py:67-72 | the compiled pattern matches exactly the messages that fit the template: "<*>" and "[*]" stand for any text, every other character for itself, and text may follow |
| Templates.FirstFittingRow | src/pipelinex/stages/enrichment/template_matcher.py:57-81 | from the file to the tag: a message gets the event of the first row with both columns whose template it fits, none when there is no such row |
| Templates.OneWildcardRow | src/pipelinex/stages/enrichment/template_matcher.py:57-81 | a row `pre` wildcard `post`, in either spelling, tags exactly the messages that start with `pre` and have `post` somewhere after it |
| Templates.CompileTemplates | src/pipelinex/stages/enrichment/template_matcher.py:57-73 | the loop computes the table whose meaning FirstFittingRow gives: the usable rows in order |
| Templates.Process | src/pipelinex/stages/enrichment/template_matcher.py:75-81 | the record gets the event of the first matching row and nothing else changes |
| Templates.MatchEventId | scripts/train_sequence_model.py:177-182 | the trainer chooses the same event |
| Templates.FilledTemplateMatches | src/pipelinex/stages/enrichment/template_matcher.py:57-81 | filling a template's wildcards with any strings, plus any tail, gives its event or an earlier row's |
| Cusum.MaxSuffixNext | src/pipelinex/detectors/cusum.py:101-102 | the recursion max(0, s + x) keeps the maximum suffix sum |
| Cusum.DeviationOrder | src/pipelinex/detectors/cusum.py:98 | a deviation is beyond a bound exactly when the value is that many standard deviations beyond the target |
| Cusum.CUSUMDetector.Detect | src/pipelinex/detectors/cusum.py:78-127 | it fires exactly when some suffix of the deviations since the last alarm or calibration drifts beyond the threshold, never both ways; direction and score name that side, and the value lies beyond the slack on that side of the target; an alarm forgets the deviations |
| Cusum.CUSUMDetector.Accumulate | src/pipelinex/detectors/cusum.py:99-127 | the two sums stay maximum suffix sums, and the alarm is what those say |
| Cusum.CUSUMDetector.Reset | src/pipelinex/detectors/cusum.py:71-76 | back to an empty warm-up |
| Cusum.FeedUntilAlarm | src/pipelinex/detectors/cusum.py:78-127 | fed sample by sample, a calibrated detector first fires exactly where the suffix sums first drift, at a value on the alarm's side of the target |
| Cusum.DriftFires | src/pipelinex/detectors/cusum.py:98-125 | a calibrated detector with zeroed sums fires within any n > threshold / d samples of a stream at least d beyond the slack on one side, and names that side |
| Cusum.DeviationsReach | src/pipelinex/detectors/cusum.py:98 | at least d beyond the slack on one side means that each value is that many standard deviations from the target |
| Cusum.QuietStaysSilent | src/pipelinex/detectors/cusum.py:98-125 | a calibrated detector in any state does not fire on a stream within the slack |
| Iqr.IQRDetector.Add | src/pipelinex/detectors/iqr.py:109-117 | the window is the last window_size values and the sorted list is that window sorted |
| Iqr.IQRDetector.Detect | src/pipelinex/detectors/iqr.py:68-105 | the decision equals sorting the last window_size earlier values from scratch and judging by JudgeWindow, whose meaning DecisionIs gives |
| Iqr.SortSorts | src/pipelinex/detectors/iqr.py:117 | repeated `insort` gives an ascending permutation |
| Iqr.AscendingIsSort | src/pipelinex/detectors/iqr.py:109-117 | any ascending arrangement of the window is its sort, so deleting and inserting in place equals sorting |
| Iqr.EvictionFinds | src/pipelinex/detectors/iqr.py:111-115 | the guard before the deletion always holds, and the deletion leaves the rest of the window sorted |
| Iqr.PercentileInRange | src/pipelinex/detectors/iqr.py:131-140 | a percentile lies between the ends of the list |
| Iqr.PercentileMonotone | src/pipelinex/detectors/iqr.py:131-140 | a higher percentile is never lower |
| Iqr.PercentileMap | src/pipelinex/detectors/iqr.py:131-140 | percentiles commute with every map that keeps proportions |
| Iqr.PercentileOnLine | src/pipelinex/detectors/iqr.py:131-140 | at a rank from position i to i + 1 a percentile lies on the line between those two values |
| Iqr.PercentileAtRank | src/pipelinex/detectors/iqr.py:131-140 | at a whole rank it is the value there |
| Iqr.PercentileOfEven | src/pipelinex/detectors/iqr.py:131-140 | on evenly spaced values it is p of the way from the first to the last |
| Iqr.PercentileMirror | src/pipelinex/detectors/iqr.py:131-140 | reversing and negating the list sends p to 1 - p and negates the value |
| Iqr.QuartilesAre | src/pipelinex/detectors/iqr.py:123-125 | with n - 1 = 4m + r the quartiles lie r quarters beyond the value at m, counted from either end |
| Iqr.DecisionIs | src/pipelinex/detectors/iqr.py:80-129 | on every window: nothing below min_samples values or with equal quartiles, else a value more than k times their distance outside them is flagged, below or above, by its distance from the fence |
| Iqr.EvenWindow | src/pipelinex/detectors/iqr.py:80-140 | on a window of values d apart in any order, width w from first to last a: the fences are a + (1/4 - k/2) w and a + (3/4 + k/2) w |
| Iqr.NoSpread | src/pipelinex/detectors/iqr.py:119-129 | with too few values, or all equal, nothing is flagged |
| Iqr.BetweenQuartilesIsNormal | src/pipelinex/detectors/iqr.py:80-105 | Q1 <= Q3, a value between them is never flagged, and every severity is positive |
| Iqr.SortMap | src/pipelinex/detectors/iqr.py:117 | sorting commutes with every increasing map |
| Iqr.FlaggingIsScaleFree | src/pipelinex/detectors/iqr.py:68-105 | flag and side are unchanged when the stream is mapped by x -> a*x + b with a > 0 |
| ZScore.ScoreSquared | src/pipelinex/detectors/zscore.py:88 | a score beyond the threshold is a squared deviation beyond threshold^2 times the variance |
| ZScore.ZScoreDetector.Score | src/pipelinex/detectors/zscore.py:106-118 | there is a score exactly when the window is long enough and not constant |
| ZScore.ZScoreDetector.Detect | src/pipelinex/detectors/zscore.py:73-102 | the window is the last window_size numeric values; it fires on (v - mean)^2 > threshold^2 * variance of the values before, with severity the absolute score |
| ZScore.VarianceMapped | src/pipelinex/detectors/zscore.py:110-111 | the variance of a*x + b is a^2 times the variance |
| ZScore.VarianceIs | src/pipelinex/detectors/zscore.py:110-111 | the variance is the mean of the squares less the square of the mean |
| Windows.MeanBalances | src/pipelinex/detectors/zscore.py:110 | the values balance around their mean and around nothing else |
| ZScore.FiringIsScaleFree | src/pipelinex/detectors/zscore.py:73-118 | no decision changes when the stream is mapped by x -> a*x + b with a != 0 |
| RateLimit.RateLimitValidator.Validate | src/pipelinex/stages/validation/rate_limit_validator.py:42-59 | the decision is that of the clock readings of the calls with the same source alone, where no source and "<unknown>" count as one, whatever the bucket factory reads |
| RateLimit.KeysShared | src/pipelinex/stages/validation/rate_limit_validator.py:43 | two sources share a bucket only when they are equal or neither names one |
| RateLimit.AcceptedIffEveryWindowAllows | src/pipelinex/stages/validation/rate_limit_validator.py:47-54 | a call is accepted if and only if that keeps every window of the key's calls ending with it within capacity plus tokens earned |
| RateLimit.RateBound | src/pipelinex/stages/validation/rate_limit_validator.py:47-54 | with a clock that does not step back, the calls from t1 to t2 have at most capacity + refill * (t2 - t1) accepted |
| RateLimit.NothingEarnedBackwards | src/pipelinex/stages/validation/rate_limit_validator.py:47 | while the clock stands still or steps back nothing is earned, so at most capacity calls are accepted |
| RateLimit.Level | src/pipelinex/stages/validation/rate_limit_validator.py:47-48 | tokens stay in [0, capacity] |
| RateLimit.SpacedCallsAreAccepted | src/pipelinex/stages/validation/rate_limit_validator.py:47-52 | a first call, and one at least 1/refill after the previous, is never rejected |
| RateLimit.BoundedIffClockMonotone | src/pipelinex/stages/validation/rate_limit_validator.py:47-54 | the bound by elapsed time holds for every limiter and every window of calls, if and only if the clock readings never step back |
| RateLimit.SteppingBackBreaksTheBound | src/pipelinex/stages/validation/rate_limit_validator.py:47 | every backward step breaks the bound for some limiter |
| Retry.Process | src/pipelinex/stages/decorators/retry.py:43-66 | for every sequence of inner outcomes: as many calls as up to the first non-transient outcome, at most max_retries + 1; the last call's outcome; the delays; and a total sleep of at most max_retries * cap |
| Retry.DelaysBackOff | src/pipelinex/stages/decorators/retry.py:58 | the first delay is base, up to the cap, and each delay below the cap is followed by factor times itself, up to the cap |
| Retry.DelaysNeverDecrease | src/pipelinex/stages/decorators/retry.py:58 | with factor >= 1 and base >= 0 the delays never decrease |

## Left out

- PipelineExecutors.PipelineExecutor.Run: `save_batch` and the stages always return, and `save_batch` is all or nothing and fails only with `RepositoryError`; no other exception of the repository is modelled.
- Fairness of the event loop: progress is proved as absence of deadlock and a decreasing measure, not as termination under a scheduler.
- `asyncio.wait_for` losing an item when a timeout and a `get` coincide: a get either times out or delivers.
- Wall-clock timing of the flusher, the janitor loop and `queue.get`: ticks are steps that may happen at any time.
- Event-bus listeners and cancellation of the janitor inside a `publish` call: publishing appends to a list, and an interrupted pass stops between two traces.
- EndToEnd.TrainThenDetect: the online records of the block must reach the sessionizer in the order of the log; several workers can reorder records of one block, and the theorem then speaks of the order in which they arrive.
- `strptime`, UUIDs, the `csv` module and JSON text: an arbitrary timestamp function, distinct numbers, split fields and decoded values.
- Unicode digit and word classes: ASCII only. Unhashable event ids and event ids that are no string.
- IEEE rounding, NaN, infinity, and overflow of the backoff power: reals.
- The metadata of anomaly events beyond what is modelled, among it the truncated list of novel n-grams; the sorted order of the written vocabulary; the trainer's counters and printing; reading the label file.
- Sources, configuration, builder, CLI, HTTP routes, PostgreSQL, metrics, factories, the other validators and decorators, the synthetic generator and the benchmarks: plumbing, or only easy members.
