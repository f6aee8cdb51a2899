/**
 * Token accumulators and the usage report.
 *
 * Input, output and cache-creation counts (with the 5-minute and 1-hour
 * breakdown) are additive and are summed over a stream of records. The
 * cache-read count is a snapshot of the prompt cache at one moment: it is
 * never summed, the last strictly positive value is kept.
 */
module Accounting {
  import opened Transcript

  /** A `totals` object. Its `cacheRead` field exists in the report but no
      record ever adds to it; the snapshot lives in the report's
      `latestCacheRead` instead. */
  datatype Totals = Totals(
    input: nat,
    output: nat,
    cacheCreation: nat,
    cacheRead: nat,
    ephemeral5m: nat,
    ephemeral1h: nat)

  const NoTokens := Totals(0, 0, 0, 0, 0, 0)

  /** The additive usage fields. */
  datatype Field = Input | Output | CacheCreation | Ephemeral5m | Ephemeral1h

  function Amount(u: Usage, f: Field): nat {
    match f
    case Input => u.input
    case Output => u.output
    case CacheCreation => u.cacheCreation
    case Ephemeral5m => u.ephemeral5m
    case Ephemeral1h => u.ephemeral1h
  }

  function Get(t: Totals, f: Field): nat {
    match f
    case Input => t.input
    case Output => t.output
    case CacheCreation => t.cacheCreation
    case Ephemeral5m => t.ephemeral5m
    case Ephemeral1h => t.ephemeral1h
  }

  /** Two accumulators agree when every additive field and `cacheRead` do. */
  lemma TotalsEqual(a: Totals, b: Totals)
    requires forall f :: Get(a, f) == Get(b, f)
    requires a.cacheRead == b.cacheRead
    ensures a == b
  {
    assert Get(a, Input) == Get(b, Input) && Get(a, Output) == Get(b, Output);
    assert Get(a, CacheCreation) == Get(b, CacheCreation);
    assert Get(a, Ephemeral5m) == Get(b, Ephemeral5m);
    assert Get(a, Ephemeral1h) == Get(b, Ephemeral1h);
  }

  /** One record routed into an accumulator: each additive field grows by
      the record's amount (a missing field adds nothing); cache-read is not
      among them. */
  function Add(t: Totals, u: Usage): (t': Totals)
    ensures forall f :: Get(t', f) == Get(t, f) + Amount(u, f)
    ensures t'.cacheRead == t.cacheRead
  {
    Totals(t.input + u.input, t.output + u.output, t.cacheCreation + u.cacheCreation,
           t.cacheRead, t.ephemeral5m + u.ephemeral5m, t.ephemeral1h + u.ephemeral1h)
  }

  /** The sum of field `f` over the records of `s`. */
  function Total(s: seq<Line>, f: Field): nat {
    if s == [] then 0 else Amount(UsageOf(s[0]), f) + Total(s[1..], f)
  }

  lemma {:induction false} TotalConcat(a: seq<Line>, b: seq<Line>, f: Field)
    ensures Total(a + b, f) == Total(a, f) + Total(b, f)
  {
    if a == [] {
      assert a + b == b;
    } else {
      assert (a + b)[0] == a[0];
      assert (a + b)[1..] == a[1..] + b;
      TotalConcat(a[1..], b, f);
    }
  }

  /** The accumulator holding the field-wise sums over `s`. */
  function Sum(s: seq<Line>): (t: Totals)
    ensures forall f :: Get(t, f) == Total(s, f)
    ensures t.cacheRead == 0
  {
    Totals(Total(s, Input), Total(s, Output), Total(s, CacheCreation), 0,
           Total(s, Ephemeral5m), Total(s, Ephemeral1h))
  }

  /** The cache-read value left after scanning `s`, starting from `latest`:
      a record with a strictly positive cache-read replaces the value, any
      other record leaves it. A zero never resets a snapshot once taken. */
  function LatestCacheRead(s: seq<Line>, latest: nat): (r: nat)
    ensures r == latest || r > 0
    ensures latest > 0 ==> r > 0
  {
    if s == [] then latest
    else LatestCacheRead(s[1..], if UsageOf(s[0]).cacheRead > 0 then UsageOf(s[0]).cacheRead else latest)
  }

  /** The snapshot is the last strictly positive cache-read of `s`, or the
      starting value if there is none; it is never a sum. */
  lemma {:induction false} LatestCacheReadIsLastPositive(s: seq<Line>, latest: nat)
    ensures var r := LatestCacheRead(s, latest);
      && ((forall j | 0 <= j < |s| :: UsageOf(s[j]).cacheRead == 0) ==> r == latest)
      && ((exists j | 0 <= j < |s| :: UsageOf(s[j]).cacheRead > 0) ==>
            exists j | 0 <= j < |s| ::
              && r == UsageOf(s[j]).cacheRead
              && r > 0
              && forall k | j < k < |s| :: UsageOf(s[k]).cacheRead == 0)
  {
    if s != [] {
      var next := if UsageOf(s[0]).cacheRead > 0 then UsageOf(s[0]).cacheRead else latest;
      LatestCacheReadIsLastPositive(s[1..], next);
      assert forall k | 0 < k < |s| :: s[k] == s[1..][k - 1];
    }
  }

  const UnknownModel := "unknown"

  /** A model id that overrides the report's model: present and not the
      sentinel "unknown". */
  predicate IsKnownModel(m: string) {
    m != "" && m != UnknownModel
  }

  /** The model left after scanning `s`, starting from `model`: a record
      with a known model replaces it, any other record leaves it. A known
      model is never replaced by a missing one or by "unknown". */
  function LatestModel(s: seq<Line>, model: string): (r: string)
    ensures r == model || IsKnownModel(r)
    ensures IsKnownModel(model) ==> IsKnownModel(r)
  {
    if s == [] then model
    else LatestModel(s[1..], if IsKnownModel(ModelOf(s[0])) then ModelOf(s[0]) else model)
  }

  /** Last writer wins: the result is the last known model of `s`, or the
      starting value if `s` names none. */
  lemma {:induction false} LatestModelIsLastKnown(s: seq<Line>, model: string)
    ensures var r := LatestModel(s, model);
      && ((forall j | 0 <= j < |s| :: !IsKnownModel(ModelOf(s[j]))) ==> r == model)
      && ((exists j | 0 <= j < |s| :: IsKnownModel(ModelOf(s[j]))) ==>
            exists j | 0 <= j < |s| ::
              && r == ModelOf(s[j])
              && IsKnownModel(r)
              && forall k | j < k < |s| :: !IsKnownModel(ModelOf(s[k])))
  {
    if s != [] {
      var next := if IsKnownModel(ModelOf(s[0])) then ModelOf(s[0]) else model;
      LatestModelIsLastKnown(s[1..], next);
      assert forall k | 0 < k < |s| :: s[k] == s[1..][k - 1];
    }
  }

  /** The value `calculateContextWindow` returns. */
  datatype Report = Report(
    countedTotal: nat,
    skippedTotal: nat,
    realisticTotal: int,
    entriesProcessed: nat,
    entriesSkipped: nat,
    totals: Totals,
    skippedTotals: Totals,
    latestCacheRead: nat,
    latestSkippedCacheRead: nat,
    model: string)

  /** The report over a stream of counted records and a stream of skipped
      ones. Superseded revisions add their input, output and cache-read
      tokens to the realistic total but not their cache creation. */
  function Summarize(counted: seq<Line>, skipped: seq<Line>): (r: Report)
    ensures r.entriesProcessed == |counted| && r.entriesSkipped == |skipped|
    ensures r.realisticTotal
      == r.countedTotal + r.skippedTotals.input + r.latestSkippedCacheRead + r.skippedTotals.output
    ensures r.realisticTotal >= r.countedTotal
    ensures r.totals.cacheRead == 0 && r.skippedTotals.cacheRead == 0
  {
    var totals := Sum(counted);
    var skippedTotals := Sum(skipped);
    var latestCacheRead := LatestCacheRead(counted, 0);
    var latestSkippedCacheRead := LatestCacheRead(skipped, 0);
    var countedTotal := totals.input + totals.cacheCreation + latestCacheRead + totals.output;
    var skippedTotal := skippedTotals.input + skippedTotals.cacheCreation
                        + latestSkippedCacheRead + skippedTotals.output;
    Report(
      countedTotal,
      skippedTotal,
      countedTotal + (skippedTotal - skippedTotals.cacheCreation),
      |counted|,
      |skipped|,
      totals,
      skippedTotals,
      latestCacheRead,
      latestSkippedCacheRead,
      LatestModel(counted, UnknownModel))
  }

  /** A stream of records whose cache-read values are [5, 0, 12, 0] leaves
      12, not the sum 17. */
  lemma CacheReadIsSnapshot(a: Line, b: Line, c: Line, d: Line)
    requires UsageOf(a).cacheRead == 5 && UsageOf(b).cacheRead == 0
    requires UsageOf(c).cacheRead == 12 && UsageOf(d).cacheRead == 0
    ensures LatestCacheRead([a, b, c, d], 0) == 12
  {
    var s := [a, b, c, d];
    assert s[1..] == [b, c, d] && s[1..][1..] == [c, d];
    assert s[1..][1..][1..] == [d] && [d][1..] == [];
    calc {
      LatestCacheRead(s, 0);
      LatestCacheRead([b, c, d], 5);
      LatestCacheRead([c, d], 5);
      LatestCacheRead([d], 12);
      LatestCacheRead([], 12);
    }
  }
}
