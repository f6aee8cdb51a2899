/**
 * The usage aggregator: `calculateContextWindow`.
 *
 * `ContextWindow` is the report in closed form: sums, snapshots and counts
 * over the stream of counted entries and the stream of skipped entries.
 * `CalculateContextWindow` is the tracker's two-pass scan, proved to
 * produce exactly that report.
 */
module Aggregator {
  import opened Transcript
  import opened Accounting
  import opened Deduplication
  import SessionBoundary

  /** Every entry's tokens land in exactly one accumulator. */
  lemma {:induction false} TotalPartition(w: seq<Line>, f: Field)
    ensures Total(Counted(w), f) + Total(Skipped(w), f) == Total(Entries(w), f)
  {
    if w != [] {
      TotalPartition(w[1..], f);
      var c := if IsCounted(w, 0) then [w[0]] else [];
      var s := if IsSkipped(w, 0) then [w[0]] else [];
      var e := if IsEntry(w[0]) then [w[0]] else [];
      TotalConcat(c, Counted(w[1..]), f);
      TotalConcat(s, Skipped(w[1..]), f);
      TotalConcat(e, Entries(w[1..]), f);
      assert [w[0]][1..] == [];
    }
  }

  /** The report `calculateContextWindow` returns when it scans `lines`
      from `start`: totals and the cache-read snapshot of the counted
      entries, the same of the skipped entries, their numbers, the last
      known model, and the three derived totals. */
  function ContextWindow(lines: seq<Line>, start: nat): (r: Report)
    ensures r.entriesProcessed + r.entriesSkipped == |Entries(Window(lines, start))|
    ensures forall f :: Get(r.totals, f) + Get(r.skippedTotals, f)
                        == Total(Entries(Window(lines, start)), f)
    ensures r.realisticTotal >= r.countedTotal
  {
    var w := Window(lines, start);
    CountedSkippedPartition(w);
    forall f
      ensures Total(Counted(w), f) + Total(Skipped(w), f) == Total(Entries(w), f)
    {
      TotalPartition(w, f);
    }
    Summarize(Counted(w), Skipped(w))
  }

  /** The running state of the second pass: the two accumulators, the two
      counters, the two cache-read snapshots and the model. */
  datatype Scan = Scan(
    totals: Totals,
    skippedTotals: Totals,
    entriesCount: nat,
    skippedCount: nat,
    latestCacheRead: nat,
    latestSkippedCacheRead: nat,
    modelId: string)

  const Initial := Scan(NoTokens, NoTokens, 0, 0, 0, 0, UnknownModel)

  /** A final revision: its tokens are summed into `totals`, a positive
      cache-read replaces the snapshot, a known model replaces the model.
      The skipped side is untouched. */
  function CountEntry(acc: Scan, l: Line): (a: Scan)
    requires IsEntry(l)
    ensures forall f :: Get(a.totals, f) == Get(acc.totals, f) + Amount(UsageOf(l), f)
    ensures a.totals.cacheRead == acc.totals.cacheRead
    ensures a.entriesCount == acc.entriesCount + 1
    ensures a.latestCacheRead == LatestCacheRead([l], acc.latestCacheRead)
    ensures a.modelId == LatestModel([l], acc.modelId)
    ensures a.skippedTotals == acc.skippedTotals && a.skippedCount == acc.skippedCount
    ensures a.latestSkippedCacheRead == acc.latestSkippedCacheRead
  {
    assert [l][1..] == [];
    acc.(totals := Add(acc.totals, l.usage),
         entriesCount := acc.entriesCount + 1,
         latestCacheRead := if l.usage.cacheRead > 0 then l.usage.cacheRead else acc.latestCacheRead,
         modelId := if IsKnownModel(l.model) then l.model else acc.modelId)
  }

  /** A superseded revision: the same routing into the skipped side. The
      counted side, the model included, is untouched. */
  function SkipEntry(acc: Scan, l: Line): (a: Scan)
    requires IsEntry(l)
    ensures forall f :: Get(a.skippedTotals, f) == Get(acc.skippedTotals, f) + Amount(UsageOf(l), f)
    ensures a.skippedTotals.cacheRead == acc.skippedTotals.cacheRead
    ensures a.skippedCount == acc.skippedCount + 1
    ensures a.latestSkippedCacheRead == LatestCacheRead([l], acc.latestSkippedCacheRead)
    ensures a.totals == acc.totals && a.entriesCount == acc.entriesCount
    ensures a.latestCacheRead == acc.latestCacheRead && a.modelId == acc.modelId
  {
    assert [l][1..] == [];
    acc.(skippedTotals := Add(acc.skippedTotals, l.usage),
         skippedCount := acc.skippedCount + 1,
         latestSkippedCacheRead :=
           if l.usage.cacheRead > 0 then l.usage.cacheRead else acc.latestSkippedCacheRead)
  }

  /** Resuming the scan in state `acc` on the lines `rest` ends where the
      scan of the whole window `w` ends: what is still to come is exactly
      the counted and skipped streams of `rest`. */
  ghost predicate Resumes(acc: Scan, rest: seq<Line>, w: seq<Line>) {
    && (forall f :: Get(acc.totals, f) + Total(Counted(rest), f) == Total(Counted(w), f))
    && (forall f :: Get(acc.skippedTotals, f) + Total(Skipped(rest), f) == Total(Skipped(w), f))
    && acc.totals.cacheRead == 0
    && acc.skippedTotals.cacheRead == 0
    && acc.entriesCount + |Counted(rest)| == |Counted(w)|
    && acc.skippedCount + |Skipped(rest)| == |Skipped(w)|
    && LatestCacheRead(Counted(rest), acc.latestCacheRead) == LatestCacheRead(Counted(w), 0)
    && LatestCacheRead(Skipped(rest), acc.latestSkippedCacheRead) == LatestCacheRead(Skipped(w), 0)
    && LatestModel(Counted(rest), acc.modelId) == LatestModel(Counted(w), UnknownModel)
  }

  lemma ResumeCounted(acc: Scan, rest: seq<Line>, w: seq<Line>)
    requires rest != [] && IsCounted(rest, 0)
    requires Resumes(acc, rest, w)
    ensures Resumes(CountEntry(acc, rest[0]), rest[1..], w)
  {
    var x, c := rest[0], Counted(rest[1..]);
    assert Counted(rest) == [x] + c;
    assert ([x] + c)[0] == x && ([x] + c)[1..] == c;
    assert Skipped(rest) == Skipped(rest[1..]);
    forall f
      ensures Total(Counted(rest), f) == Amount(x.usage, f) + Total(c, f)
    {
    }
  }

  lemma ResumeSkipped(acc: Scan, rest: seq<Line>, w: seq<Line>)
    requires rest != [] && IsSkipped(rest, 0)
    requires Resumes(acc, rest, w)
    ensures Resumes(SkipEntry(acc, rest[0]), rest[1..], w)
  {
    var x, k := rest[0], Skipped(rest[1..]);
    assert Skipped(rest) == [x] + k;
    assert ([x] + k)[0] == x && ([x] + k)[1..] == k;
    assert Counted(rest) == Counted(rest[1..]);
    forall f
      ensures Total(Skipped(rest), f) == Amount(x.usage, f) + Total(k, f)
    {
    }
  }

  lemma ResumeInert(acc: Scan, rest: seq<Line>, w: seq<Line>)
    requires rest != [] && !IsEntry(rest[0])
    requires Resumes(acc, rest, w)
    ensures Resumes(acc, rest[1..], w)
  {
    assert Counted(rest) == Counted(rest[1..]);
    assert Skipped(rest) == Skipped(rest[1..]);
  }

  /** One iteration of the second pass on the line `l` at `lineIdx`: an
      entry is routed by the last-occurrence test, any other line is
      passed over. */
  function Visit(acc: Scan, m: map<string, nat>, lineIdx: nat, l: Line): (r: Scan)
    ensures !IsEntry(l) ==> r == acc
    ensures r.entriesCount + r.skippedCount
            == acc.entriesCount + acc.skippedCount + (if IsEntry(l) then 1 else 0)
    ensures IsEntry(l) ==> (r.entriesCount == acc.entriesCount + 1 <==> IsLastOccurrence(m, lineIdx, l))
  {
    if !IsEntry(l) then acc
    else if !IsLastOccurrence(m, lineIdx, l) then SkipEntry(acc, l)
    else CountEntry(acc, l)
  }

  lemma ResumeVisit(acc: Scan, lines: seq<Line>, start: nat, i: nat, w: seq<Line>)
    requires start <= i < |lines|
    requires Resumes(acc, lines[i..], w)
    ensures Resumes(Visit(acc, RequestIdToLastLine(lines, start, |lines|), i, lines[i]),
                    lines[i + 1..], w)
  {
    SuffixClassifies(lines, i);
    var rest := lines[i..];
    if IsEntry(lines[i]) {
      LastOccurrenceIsCounted(lines, start, i);
      if IsCounted(lines, i) {
        ResumeCounted(acc, rest, w);
      } else {
        ResumeSkipped(acc, rest, w);
      }
    } else {
      ResumeInert(acc, rest, w);
    }
  }

  /** The scan starts with nothing accounted for. */
  lemma ResumeStart(w: seq<Line>)
    ensures Resumes(Initial, w, w)
  {
  }

  /** A scan that has nothing left to read holds the closed-form report's
      accumulators. */
  lemma ResumeFinished(acc: Scan, w: seq<Line>)
    requires Resumes(acc, [], w)
    ensures acc.totals == Sum(Counted(w)) && acc.skippedTotals == Sum(Skipped(w))
    ensures acc.entriesCount == |Counted(w)| && acc.skippedCount == |Skipped(w)|
    ensures acc.latestCacheRead == LatestCacheRead(Counted(w), 0)
    ensures acc.latestSkippedCacheRead == LatestCacheRead(Skipped(w), 0)
    ensures acc.modelId == LatestModel(Counted(w), UnknownModel)
  {
    TotalsEqual(acc.totals, Sum(Counted(w)));
    TotalsEqual(acc.skippedTotals, Sum(Skipped(w)));
  }

  /** The second pass of `calculateContextWindow` over `lines` from
      `startFromLine`, given the index of the first pass: each entry is
      routed into the counted or the skipped accumulator. The accumulators
      end up holding the sums, snapshots, counts and model of the counted
      and the skipped streams of the window. */
  method SecondPass(lines: seq<Line>, startFromLine: nat, requestIdToLastLine: map<string, nat>)
    returns (acc: Scan)
    requires requestIdToLastLine == RequestIdToLastLine(lines, startFromLine, |lines|)
    ensures var w := Window(lines, startFromLine);
      && acc.totals == Sum(Counted(w))
      && acc.skippedTotals == Sum(Skipped(w))
      && acc.entriesCount == |Counted(w)|
      && acc.skippedCount == |Skipped(w)|
      && acc.latestCacheRead == LatestCacheRead(Counted(w), 0)
      && acc.latestSkippedCacheRead == LatestCacheRead(Skipped(w), 0)
      && acc.modelId == LatestModel(Counted(w), UnknownModel)
  {
    ghost var w := Window(lines, startFromLine);
    acc := Initial;
    var lineIdx := if startFromLine < |lines| then startFromLine else |lines|;
    assert w == lines[lineIdx..];
    ResumeStart(w);
    while lineIdx < |lines|
      invariant lineIdx <= |lines|
      invariant lineIdx == |lines| || startFromLine <= lineIdx
      invariant Resumes(acc, lines[lineIdx..], w)
    {
      ResumeVisit(acc, lines, startFromLine, lineIdx, w);
      acc := Visit(acc, requestIdToLastLine, lineIdx, lines[lineIdx]);
      lineIdx := lineIdx + 1;
    }
    assert lines[lineIdx..] == [];
    ResumeFinished(acc, w);
  }

  /** `calculateContextWindow` on `lines` from `startFromLine` (the file read
      and its failure are not modelled): the first pass indexes the last
      line of every request id, the second pass accumulates, and the three
      totals are derived from the accumulators. */
  method CalculateContextWindow(lines: seq<Line>, startFromLine: nat) returns (r: Report)
    ensures r == ContextWindow(lines, startFromLine)
  {
    var requestIdToLastLine := RequestIdToLastLine(lines, startFromLine, |lines|);
    var acc := SecondPass(lines, startFromLine, requestIdToLastLine);
    var totals, skippedTotals := acc.totals, acc.skippedTotals;
    var countedTotal := totals.input + totals.cacheCreation + acc.latestCacheRead + totals.output;
    var skippedTotal := skippedTotals.input + skippedTotals.cacheCreation
                        + acc.latestSkippedCacheRead + skippedTotals.output;
    var realisticTotal := countedTotal + (skippedTotal - skippedTotals.cacheCreation);
    r := Report(countedTotal, skippedTotal, realisticTotal, acc.entriesCount, acc.skippedCount,
                totals, skippedTotals, acc.latestCacheRead, acc.latestSkippedCacheRead,
                acc.modelId);
  }

  /** Inert lines change nothing: the report over the window's entries
      alone equals the report over the whole window. */
  lemma InertLinesChangeNothing(lines: seq<Line>, start: nat)
    ensures ContextWindow(Entries(Window(lines, start)), 0) == ContextWindow(lines, start)
  {
    var w := Window(lines, start);
    InertLinesIgnored(w);
    assert Window(Entries(w), 0) == Entries(w);
  }

  /** What the tracker reports for a log: the aggregation over the current
      session, which begins after the last root. */
  function CurrentSessionUsage(lines: seq<Line>): (r: Report)
    ensures var b := SessionBoundary.FindCurrentSessionStart(lines);
      && r.entriesProcessed + r.entriesSkipped == |Entries(lines[b..])|
      && forall f :: Get(r.totals, f) + Get(r.skippedTotals, f) == Total(Entries(lines[b..]), f)
  {
    var b := SessionBoundary.FindCurrentSessionStart(lines);
    assert Window(lines, b) == lines[b..];
    ContextWindow(lines, b)
  }

  /** Records before the last root are ignored: only the current session
      is accounted for. */
  lemma EarlierSessionsIgnored(before: seq<Line>, root: Line, session: seq<Line>)
    requires IsRoot(root)
    requires forall j | 0 <= j < |session| :: !IsRoot(session[j])
    ensures CurrentSessionUsage(before + [root] + session) == ContextWindow(session, 0)
  {
    var lines := before + [root] + session;
    assert lines[|before|] == root;
    assert forall j | |before| + 1 <= j < |lines| :: lines[j] == session[j - |before| - 1];
    SessionBoundary.BoundaryUnique(lines, |before| + 1);
    assert Window(lines, |before| + 1) == session;
    assert Window(session, 0) == session;
  }

  /** Two revisions of request "r1" on lines 2 and 5, the other lines
      inert: line 2 is skipped in full and line 5 counted in full. */
  lemma TwoRevisionsExample(fill: Line, a: Line, b: Line)
    requires !IsEntry(fill)
    requires a == Rec(Absent, AssistantKind, true, "r1", Usage(100, 10, 0, 0, 0, 0), "")
    requires b == Rec(Absent, AssistantKind, true, "r1", Usage(120, 15, 0, 0, 0, 0), "")
    ensures var r := ContextWindow([fill, fill, a, fill, fill, b], 0);
      && r.entriesProcessed == 1 && r.entriesSkipped == 1
      && r.totals.input == 120 && r.totals.output == 15
      && r.skippedTotals.input == 100 && r.skippedTotals.output == 10
  {
    var lines := [fill, fill, a, fill, fill, b];
    InertLinesChangeNothing(lines, 0);
    ExampleEntries(fill, a, b);
    ExampleStreams(a, b);
    assert Window([a, b], 0) == [a, b];
    assert ContextWindow(lines, 0) == Summarize([b], [a]);
    SingletonTotal(b, Input);
    SingletonTotal(b, Output);
    SingletonTotal(a, Input);
    SingletonTotal(a, Output);
  }

  lemma SingletonTotal(x: Line, f: Field)
    ensures Total([x], f) == Amount(UsageOf(x), f)
  {
  }

  lemma ExampleEntries(fill: Line, a: Line, b: Line)
    requires !IsEntry(fill) && IsEntry(a) && IsEntry(b)
    ensures Entries(Window([fill, fill, a, fill, fill, b], 0)) == [a, b]
  {
    var lines := [fill, fill, a, fill, fill, b];
    assert Window(lines, 0) == lines;
    assert Entries([b]) == [b] by { assert [b][1..] == []; }
    assert Entries([fill, b]) == [b] by { assert [fill, b][1..] == [b]; }
    assert Entries([fill, fill, b]) == [b] by { assert [fill, fill, b][1..] == [fill, b]; }
    assert Entries([a, fill, fill, b]) == [a, b] by {
      assert [a, fill, fill, b][1..] == [fill, fill, b];
    }
    assert Entries([fill, a, fill, fill, b]) == [a, b] by {
      assert [fill, a, fill, fill, b][1..] == [a, fill, fill, b];
    }
    assert lines[1..] == [fill, a, fill, fill, b];
  }

  lemma ExampleStreams(a: Line, b: Line)
    requires IsKeyed(a) && IsKeyed(b) && a.requestId == b.requestId
    ensures Counted([a, b]) == [b] && Skipped([a, b]) == [a]
  {
  }
}
