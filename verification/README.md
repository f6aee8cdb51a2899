# Context-window token accounting, in Dafny

A model of the token-accounting core of `scripts/claude-context-tracker.js`.
The script rebuilds an estimate of how much of a model's context window a
session uses. It reads the session's append-only transcript, one JSON record
per line. A streaming reply is logged several times under one `requestId`,
and each later record supersedes the earlier ones.

The core has three parts:

- **Session boundary locator** (`findCurrentSessionStart`). A record whose
  `parentUuid` is explicitly `null` is a session root. The current session
  begins just after the last root, or at line 0 if there is none. A
  *missing* `parentUuid` is not a root, so the model keeps "absent" and
  "null" as two separate states (`Transcript.Parent`).
- **Two-pass aggregator** (`calculateContextWindow`). Pass 1 reads only
  assistant records with a truthy `message` and a truthy `requestId`. It
  maps the request id of each such entry to the last line where one
  carries it. A record of another kind, or one without a message, is not
  indexed, even when it carries a request id. Pass 2 classifies each
  assistant entry with a message:
  - *counted* when it is that last line, or has no request id;
  - *skipped* otherwise.

  Each class has its own accumulator. Input, output, cache creation and
  its 5-minute/1-hour breakdown are summed. Cache-read is a snapshot: the
  last positive value wins. The model is the last known model among the
  counted entries. Three totals are derived at the end. `realisticTotal`
  adds the skipped input, output and cache-read tokens to the counted
  total, but not the skipped cache creation.
- **Context limit lookup** (`getContextLimit`). A fixed table by model id,
  with a default.

Modules:

| module | file | contents |
|---|---|---|
| `Transcript` | transcript.dfy | a decoded line (`Malformed` or `Rec`), entries, request ids |
| `SessionBoundary` | session_boundary.dfy | the boundary scan and its characterisation |
| `Accounting` | accounting.dfy | accumulators, the cache-read snapshot, the model, the report |
| `Deduplication` | deduplication.dfy | pass 1, the last-occurrence test, the counted/skipped streams |
| `Aggregator` | aggregator.dfy | the closed-form report, the two-pass method and its proof |
| `ModelLimits` | model_limits.dfy | the context limit table |
| `PrototypeKeys` | prototype_keys.dfy | the two lookups as written on JavaScript objects (see Findings) |

How the proof is organised:

- The *reference classification* (`Deduplication.IsCounted`) looks forward
  in the log. An entry is counted when no later entry carries its request
  id.
- The closed-form report (`Aggregator.ContextWindow`) is a function of the
  stream of counted entries and the stream of skipped entries.
- The tracker's own algorithm (`Aggregator.CalculateContextWindow`) builds
  the index and then scans with it. It is proved equal to the closed form.

Decoding is represented by its outcome. `Malformed` stands for a line that
`JSON.parse` rejects. It also stands for a line that decodes to `null`,
since reading `parentUuid` from `null` throws and the line is skipped. In a
`Rec`, an empty `requestId` or `model` and a zero token count stand for a
missing or falsy field.

Three details of the code that the model keeps:

- **`cache_read` field.** The `totals` and `skippedTotals` objects carry a
  `cache_read` field that is never written. The snapshot lives in
  `latestCacheRead` and `latestSkippedCacheRead` instead. The model keeps
  the field and proves it stays 0.
- **Model override.** A counted record overrides the model only when its
  model is truthy and not `"unknown"`, so an empty string does not
  override it.
- **Start past the end.** Both passes start at `startFromLine` itself. A
  start beyond the last line scans nothing (`Deduplication.Window`).

## Model

| member | source | states |
|---|---|---|
| SessionBoundary.ScanFrom | scripts/claude-context-tracker.js:37-47 | the scan from index i keeps its current boundary exactly when no root follows; otherwise it ends just after a root that has no root after it |
| SessionBoundary.FindCurrentSessionStart | scripts/claude-context-tracker.js:36-49 | the result lies in [0, \|lines\|]; it is 0 iff no line is a record with parentUuid null; otherwise the line before it is a root and no root comes after it |
| SessionBoundary.BoundaryUnique | scripts/claude-context-tracker.js:36-49 | the last-root characterisation determines the boundary uniquely |
| SessionBoundary.BoundaryIgnoresNonRoots | scripts/claude-context-tracker.js:39-46 | only roots matter: logs with roots at the same places have the same boundary, whatever the other lines hold (absent parent, uuid parent, decode failure) |
| SessionBoundary.AppendNonRoot | scripts/claude-context-tracker.js:41-43 | appending a line that is not an explicit-null root (for example one whose parentUuid is absent) never moves the boundary |
| SessionBoundary.AppendRoot | scripts/claude-context-tracker.js:41-43 | appending a root moves the boundary to just after it |
| Accounting.LatestCacheRead | scripts/claude-context-tracker.js:111-127 | the cache-read snapshot after a scan: the start value or a positive value, and never back to 0 once positive (the full characterisation is the next row) |
| Accounting.LatestCacheReadIsLastPositive | scripts/claude-context-tracker.js:111-127 | the cache-read snapshot is the last strictly positive cache-read in scan order, or the starting value when there is none; it is never a sum |
| Accounting.CacheReadIsSnapshot | scripts/claude-context-tracker.js:125-127 | cache-read values [5, 0, 12, 0] leave 12, not 17 |
| Accounting.LatestModel | scripts/claude-context-tracker.js:134-137 | the model after a scan: the start value or a known model, and a known model is never replaced by a missing one or "unknown" (the full characterisation is the next row) |
| Accounting.LatestModelIsLastKnown | scripts/claude-context-tracker.js:134-137 | the model is the last one among the records that is present and not "unknown", or the starting "unknown" when there is none |
| Accounting.Add | scripts/claude-context-tracker.js:122-132 | routing a record into an accumulator raises each additive field by the record's amount (a missing field adds 0) and leaves cache_read alone |
| Accounting.Summarize | scripts/claude-context-tracker.js:150-152 | the entry counts are the sizes of the two streams; realisticTotal equals countedTotal plus the skipped input, output and cache-read, with no skipped cache creation, so realisticTotal >= countedTotal; totals.cache_read stays 0 |
| Deduplication.RequestIdToLastLine | scripts/claude-context-tracker.js:72-86 | pass 1 over [start, k): never indexes the empty id, and every stored index lies in [start, k) (what it holds exactly is the next row) |
| Deduplication.RequestIdToLastLineIsLastIndex | scripts/claude-context-tracker.js:72-86 | pass 1 maps exactly the request ids of keyed entries in [start, k), each to the greatest index in that range carrying it |
| Deduplication.IsLastOccurrence | scripts/claude-context-tracker.js:97-101 | the per-entry test of pass 2: an entry without a request id passes; a keyed entry whose id is indexed passes only at the indexed line (what the test decides is the next row) |
| Deduplication.LastOccurrenceIsCounted | scripts/claude-context-tracker.js:97-101 | forward-reference resolution: with the pass-1 index, the last-occurrence test holds iff no later entry carries the same request id; an entry without a request id is always counted |
| Deduplication.Counted | scripts/claude-context-tracker.js:119-121 | the counted stream holds only assistant entries with a message, in log order |
| Deduplication.Skipped | scripts/claude-context-tracker.js:105-107 | the skipped stream holds only entries that have a request id: an entry without one is never skipped |
| Deduplication.CountedSkippedPartition | scripts/claude-context-tracker.js:105-121 | every entry lands in exactly one stream and inert lines in neither, as multisets; so entriesProcessed + entriesSkipped is the number of entries |
| Deduplication.OneCountedPerGroup | scripts/claude-context-tracker.js:98-101 | a request id carried by at least one entry has exactly one counted entry; an id carried by none has none |
| Deduplication.GroupSplitsBetweenStreams | scripts/claude-context-tracker.js:105-121 | the entries carrying a request id split between the two streams without loss: with the above, N revisions give 1 counted and N - 1 skipped |
| Deduplication.InertLinesIgnored | scripts/claude-context-tracker.js:89-94 | removing decode failures, non-assistant records and records without a message changes neither stream |
| Deduplication.SuffixClassifies | scripts/claude-context-tracker.js:89-101 | classification looks only forward: the slice from i classifies its first line as the whole log classifies line i |
| Aggregator.TotalPartition | scripts/claude-context-tracker.js:108-132 | for every additive field, the counted sum plus the skipped sum is the sum over all entries |
| Aggregator.ContextWindow | scripts/claude-context-tracker.js:53-165 | the closed-form report: entriesProcessed + entriesSkipped equals the number of entries from start on; totals and skippedTotals add up, field by field, to the sums over all entries; realisticTotal >= countedTotal |
| Aggregator.CountEntry | scripts/claude-context-tracker.js:119-137 | the counted branch: each additive field of totals grows by the entry's amount, entriesCount by 1, the snapshot and model advance as one step of the snapshot and model folds; the skipped side is untouched |
| Aggregator.SkipEntry | scripts/claude-context-tracker.js:105-118 | the skipped branch: each additive field of skippedTotals grows by the entry's amount, skippedCount by 1, the skipped snapshot advances one step; the counted side and the model are untouched |
| Aggregator.Visit | scripts/claude-context-tracker.js:89-143 | one iteration of pass 2: a line that is not an assistant entry with a message changes nothing; an entry raises exactly one of the two counters, entriesCount exactly when it passes the last-occurrence test |
| Aggregator.ResumeStart | scripts/claude-context-tracker.js:53-66 | the second pass starts with nothing accounted for |
| Aggregator.ResumeCounted | scripts/claude-context-tracker.js:119-137 | processing a counted entry keeps the scan on course to the closed-form report |
| Aggregator.ResumeSkipped | scripts/claude-context-tracker.js:105-118 | processing a skipped entry keeps the scan on course to the closed-form report |
| Aggregator.ResumeInert | scripts/claude-context-tracker.js:140-142 | passing over an inert line keeps the scan on course to the closed-form report |
| Aggregator.ResumeVisit | scripts/claude-context-tracker.js:89-143 | one iteration of the second pass, routed by the pass-1 index, keeps the scan on course to the closed-form report |
| Aggregator.ResumeFinished | scripts/claude-context-tracker.js:150-165 | once no lines are left, the accumulators hold the sums, snapshots, counts and model of the two streams |
| Aggregator.SecondPass | scripts/claude-context-tracker.js:88-143 | the second pass leaves totals and skippedTotals equal to the field sums over the counted and skipped streams, the counters equal to their sizes, the snapshots equal to their last positive cache-reads, and the model equal to the last known counted model |
| Aggregator.CalculateContextWindow | scripts/claude-context-tracker.js:52-165 | the two passes plus the derived totals return exactly the closed-form report |
| Aggregator.InertLinesChangeNothing | scripts/claude-context-tracker.js:89-142 | the report over only the entries of the window equals the report over the whole window |
| Aggregator.CurrentSessionUsage | scripts/claude-context-tracker.js:209-211 | main's composition: the report accounts for exactly the entries after the session boundary, in number and, field by field, in tokens |
| Aggregator.EarlierSessionsIgnored | scripts/claude-context-tracker.js:207-211 | the report for a log is the report over the lines after its last root; lines before that root do not matter |
| Aggregator.TwoRevisionsExample | scripts/claude-context-tracker.js:97-132 | two revisions of "r1" on lines 2 and 5: line 2 is skipped in full, line 5 counted in full, entriesProcessed = entriesSkipped = 1 |
| ModelLimits.GetContextLimit | scripts/claude-context-tracker.js:7-22 | the table entry for a known model id, 200000 for any other id ("unknown" included); always 200000 or 1000000 |
| PrototypeKeys.RequestIdToLastLineAsWritten | scripts/claude-context-tracker.js:73-81 | pass 1 into an object literal: the key "__proto__" is never stored as an own property; every stored index lies in [start, k) |
| PrototypeKeys.IsLastOccurrenceAsWritten | scripts/claude-context-tracker.js:97-101 | the written test: an entry without a request id passes; an id naming an Object.prototype member that is not an own property never passes |
| PrototypeKeys.GetContextLimitAsWritten | scripts/claude-context-tracker.js:20-22 | the written lookup: never undefined; a number is 200000 or 1000000; it yields an inherited member exactly for the Object.prototype names |
| PrototypeKeys.AsWrittenOwnKeys | scripts/claude-context-tracker.js:73-81 | the object-literal index as written holds the corrected index minus the key "__proto__" |
| PrototypeKeys.AsWrittenAgreesOffProto | scripts/claude-context-tracker.js:97-101 | for every request id other than "__proto__", the written last-occurrence test decides as the corrected one |
| PrototypeKeys.ProtoGroupAllSkipped | scripts/claude-context-tracker.js:97-101 | as written, an entry with request id "__proto__" is never the last occurrence, so its whole group is skipped |
| PrototypeKeys.ProtoCounterexample | scripts/claude-context-tracker.js:73-101 | a one-line log with request id "__proto__": skipped as written, counted by the corrected test |
| PrototypeKeys.InheritedModelIdHasNoLimit | scripts/claude-context-tracker.js:20-22 | as written, a model id naming an Object.prototype member yields a non-number limit |
| PrototypeKeys.AsWrittenLimitAgreesElsewhere | scripts/claude-context-tracker.js:20-22 | for every other model id, the written lookup returns the corrected limit |

## Left out

- Reading stdin, checking and reading the transcript file, printing and
  exiting (`main`, 175-238). These are I/O; the model takes the decoded
  lines as its input.
- The `null` return when the transcript cannot be read (144-147). This is
  an I/O failure, and the model has no file to read.
- `JSON.parse` and the `trim()` of each line. These are foreign calls; their
  outcome is the `Malformed`/`Rec` value of a line.
- Splitting the file into non-empty lines (70, 208). This is preprocessing
  of the file contents; the model takes the line sequence as given.
- `main` reads the file twice: once for the boundary and once inside
  `calculateContextWindow`. The model assumes both reads see the same
  lines.
- `formatTokenCount` (25-33) and the usage percentage (219). Both rely on
  floating-point division and `toFixed`/`Math.round` rounding.
- `calculateContextStats` (169-172). It is dead code that always returns
  `null`.
- Transcript.Usage: token counts are natural numbers. The model does not
  cover negative, fractional or non-numeric counts, which JavaScript would
  add or concatenate as they come.
- Transcript.Usage: token sums are unbounded natural numbers. JavaScript
  adds IEEE doubles, which are exact only below 2^53, so sums beyond that
  would round in the tracker but not in the model.
- Transcript.Line: a `requestId` or `model` that is not a string is left
  out. JavaScript would coerce it to a property key, and it would then
  share a group with the string of the same spelling.

## Findings

| source | as written | input that shows it | evidently intended | confidence | as-written member | corrected member |
|---|---|---|---|---|---|---|
| scripts/claude-context-tracker.js:73-101 | `requestIdToLastLine` is an object literal. `obj["__proto__"] = lineIdx` stores nothing, yet `"__proto__" in obj` is true and `obj["__proto__"]` is not a number. | one assistant entry with a message and `requestId: "__proto__"` | the last entry of every request-id group is counted | not executed; follows from the ECMAScript semantics of object literals | PrototypeKeys.ProtoGroupAllSkipped | Deduplication.LastOccurrenceIsCounted |
| scripts/claude-context-tracker.js:7-22 | `CONTEXT_LIMITS[modelId]` on an object literal returns an inherited member (a function) for ids such as `"constructor"` or `"toString"`. That value is truthy, so it becomes the limit. | a counted entry whose `message.model` is `"constructor"` | an unknown model id gets the default limit of 200000 | not executed; follows from the ECMAScript semantics of object literals | PrototypeKeys.InheritedModelIdHasNoLimit | ModelLimits.GetContextLimit |

The rest of the model uses the corrected definitions. They are a
`map<string, nat>` index in `Deduplication` and a `map` lookup in
`ModelLimits`.
