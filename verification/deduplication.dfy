/**
 * Deduplication of streaming revisions.
 *
 * Several entries may share a request id: they are successive revisions of
 * one reply, and only the last one is counted; the earlier ones are
 * skipped. Entries without a request id are never duplicates.
 *
 * The reference classification looks forward in the log: an entry is
 * counted when no later entry carries its request id. The tracker decides
 * the same thing with an index built in a first pass; the lemmas here show
 * the two agree.
 */
module Deduplication {
  import opened Transcript

  /** The entry at `i` is the final revision of its reply: no later entry
      carries its request id. An entry without a request id always is. */
  predicate IsCounted(lines: seq<Line>, i: nat)
    requires i < |lines|
  {
    IsEntry(lines[i]) && lines[i].requestId !in KeyedIds(lines[i + 1..])
  }

  /** The entry at `i` is superseded by a later revision. */
  predicate IsSkipped(lines: seq<Line>, i: nat)
    requires i < |lines|
  {
    IsEntry(lines[i]) && lines[i].requestId in KeyedIds(lines[i + 1..])
  }

  /** The lines both passes scan: those from `start` on (none when `start`
      is past the end). */
  function Window(lines: seq<Line>, start: nat): seq<Line> {
    if start < |lines| then lines[start..] else []
  }

  /** `m` maps every request id of a keyed entry in [start, k) to the
      greatest index in [start, k) that carries it, and holds nothing else. */
  ghost predicate IsLastIndexMap(m: map<string, nat>, lines: seq<Line>, start: nat, k: nat)
    requires k <= |lines|
  {
    && (forall id :: id in m <==>
          exists j :: start <= j < k && IsKeyed(lines[j]) && lines[j].requestId == id)
    && (forall id | id in m ::
          && start <= m[id] < k
          && IsKeyed(lines[m[id]])
          && lines[m[id]].requestId == id
          && forall j | m[id] < j < k :: IsKeyed(lines[j]) ==> lines[j].requestId != id)
  }

  /** The first pass over [start, k): each keyed entry overwrites the index
      stored for its request id, so the last occurrence wins. */
  function RequestIdToLastLine(lines: seq<Line>, start: nat, k: nat): (m: map<string, nat>)
    requires k <= |lines|
    ensures "" !in m
    ensures forall id | id in m :: start <= m[id] < k
  {
    if k <= start then map[]
    else
      var m := RequestIdToLastLine(lines, start, k - 1);
      if IsKeyed(lines[k - 1]) then m[lines[k - 1].requestId := k - 1] else m
  }

  /** The first pass's index holds exactly the request ids of the keyed
      entries it scanned, each mapped to its last occurrence. */
  lemma {:induction false} RequestIdToLastLineIsLastIndex(lines: seq<Line>, start: nat, k: nat)
    requires k <= |lines|
    ensures IsLastIndexMap(RequestIdToLastLine(lines, start, k), lines, start, k)
  {
    if k > start {
      RequestIdToLastLineIsLastIndex(lines, start, k - 1);
      var m := RequestIdToLastLine(lines, start, k - 1);
      var l := lines[k - 1];
      var m' := RequestIdToLastLine(lines, start, k);
      forall id
        ensures id in m' <==>
                exists j :: start <= j < k && IsKeyed(lines[j]) && lines[j].requestId == id
      {
        if IsKeyed(l) && id == l.requestId {
          assert start <= k - 1 < k && IsKeyed(lines[k - 1]) && lines[k - 1].requestId == id;
        } else {
          assert id in m' <==> id in m;
        }
      }
      forall id | id in m'
        ensures start <= m'[id] < k && IsKeyed(lines[m'[id]]) && lines[m'[id]].requestId == id
        ensures forall j | m'[id] < j < k :: IsKeyed(lines[j]) ==> lines[j].requestId != id
      {
        if !(IsKeyed(l) && id == l.requestId) {
          assert m'[id] == m[id];
        }
      }
    }
  }

  /** The second pass's test for the entry `l` at `lineIdx`: it is the last
      occurrence unless it has a request id that the index maps elsewhere. */
  predicate IsLastOccurrence(m: map<string, nat>, lineIdx: nat, l: Line): (r: bool)
    requires IsEntry(l)
    ensures l.requestId == "" ==> r
    ensures r && l.requestId != "" && l.requestId in m ==> m[l.requestId] == lineIdx
  {
    l.requestId == "" || l.requestId !in m || lineIdx == m[l.requestId]
  }

  /** Forward-reference resolution: with the index of the first pass, the
      second pass counts exactly the entries the reference classification
      counts, and an entry without a request id is always counted. */
  lemma LastOccurrenceIsCounted(lines: seq<Line>, start: nat, i: nat)
    requires start <= i < |lines|
    requires IsEntry(lines[i])
    ensures (IsLastOccurrence(RequestIdToLastLine(lines, start, |lines|), i, lines[i])
             <==> IsCounted(lines, i))
    ensures lines[i].requestId == "" ==> IsCounted(lines, i)
  {
    RequestIdToLastLineIsLastIndex(lines, start, |lines|);
    var m := RequestIdToLastLine(lines, start, |lines|);
    var id := lines[i].requestId;
    var tail := lines[i + 1..];
    if id != "" {
      assert id in m;
      var last := m[id];
      assert i <= last by {
        assert IsKeyed(lines[i]);
      }
      if last == i {
        forall j | 0 <= j < |tail|
          ensures !(IsKeyed(tail[j]) && tail[j].requestId == id)
        {
          assert tail[j] == lines[i + 1 + j];
        }
      } else {
        assert tail[last - i - 1] == lines[last];
      }
    }
  }

  /** The counted entries of `w`, in order. */
  function Counted(w: seq<Line>): (c: seq<Line>)
    ensures forall x | x in c :: IsEntry(x)
    ensures |c| <= |w|
  {
    if w == [] then []
    else (if IsCounted(w, 0) then [w[0]] else []) + Counted(w[1..])
  }

  /** The skipped entries of `w`, in order. Every one has a request id:
      an entry without one is never skipped. */
  function Skipped(w: seq<Line>): (s: seq<Line>)
    ensures forall x | x in s :: IsKeyed(x)
    ensures |s| <= |w|
  {
    if w == [] then []
    else (if IsSkipped(w, 0) then [w[0]] else []) + Skipped(w[1..])
  }

  /** Every entry lands in exactly one of the two streams, and inert lines
      in neither. */
  lemma {:induction false} CountedSkippedPartition(w: seq<Line>)
    ensures multiset(Counted(w)) + multiset(Skipped(w)) == multiset(Entries(w))
    ensures |Counted(w)| + |Skipped(w)| == |Entries(w)|
  {
    if w != [] {
      CountedSkippedPartition(w[1..]);
    }
  }

  /** The number of entries of `s` with request id `id`. */
  function GroupSize(s: seq<Line>, id: string): (n: nat)
    ensures n > 0 <==> id in KeyedIds(s)
    ensures n <= |s|
  {
    if s == [] then 0
    else
      assert forall j | 0 < j < |s| :: s[j] == s[1..][j - 1];
      (if IsKeyed(s[0]) && s[0].requestId == id then 1 else 0) + GroupSize(s[1..], id)
  }

  lemma {:induction false} GroupSizeConcat(a: seq<Line>, b: seq<Line>, id: string)
    ensures GroupSize(a + b, id) == GroupSize(a, id) + GroupSize(b, id)
  {
    if a == [] {
      assert a + b == b;
    } else {
      assert (a + b)[0] == a[0];
      assert (a + b)[1..] == a[1..] + b;
      GroupSizeConcat(a[1..], b, id);
    }
  }

  /** A group of revisions sharing a request id contributes exactly one
      counted entry, the last. */
  lemma {:induction false} OneCountedPerGroup(w: seq<Line>, id: string)
    requires id != ""
    ensures GroupSize(Counted(w), id) == (if GroupSize(w, id) > 0 then 1 else 0)
  {
    if w != [] {
      OneCountedPerGroup(w[1..], id);
      var c := if IsCounted(w, 0) then [w[0]] else [];
      GroupSizeConcat(c, Counted(w[1..]), id);
      GroupSizeConcat([w[0]], w[1..], id);
      assert w == [w[0]] + w[1..];
      assert [w[0]][1..] == [];
    }
  }

  /** The revisions of one reply split between the streams: N of them give
      one counted entry and N - 1 skipped ones. */
  lemma {:induction false} GroupSplitsBetweenStreams(w: seq<Line>, id: string)
    requires id != ""
    ensures GroupSize(Counted(w), id) + GroupSize(Skipped(w), id) == GroupSize(w, id)
  {
    if w != [] {
      GroupSplitsBetweenStreams(w[1..], id);
      var c := if IsCounted(w, 0) then [w[0]] else [];
      var s := if IsSkipped(w, 0) then [w[0]] else [];
      GroupSizeConcat(c, Counted(w[1..]), id);
      GroupSizeConcat(s, Skipped(w[1..]), id);
      GroupSizeConcat([w[0]], w[1..], id);
      assert w == [w[0]] + w[1..];
      assert [w[0]][1..] == [];
    }
  }

  /** Inert lines (decode failures, records that are not assistant entries
      or have no message) classify nothing: dropping them leaves both
      streams unchanged. */
  lemma {:induction false} InertLinesIgnored(w: seq<Line>)
    ensures Counted(Entries(w)) == Counted(w)
    ensures Skipped(Entries(w)) == Skipped(w)
  {
    if w != [] {
      InertLinesIgnored(w[1..]);
      EntriesKeepKeyedIds(w[1..]);
      var e := Entries(w);
      if IsEntry(w[0]) {
        assert e == [w[0]] + Entries(w[1..]);
        assert e[0] == w[0] && e[1..] == Entries(w[1..]);
      } else {
        assert e == Entries(w[1..]);
      }
    }
  }

  /** The window's slice after `i` classifies its entries as the whole log
      does: classification only looks forward. */
  lemma SuffixClassifies(lines: seq<Line>, i: nat)
    requires i < |lines|
    ensures lines[i..][0] == lines[i]
    ensures lines[i..][1..] == lines[i + 1..]
    ensures IsCounted(lines[i..], 0) == IsCounted(lines, i)
    ensures IsSkipped(lines[i..], 0) == IsSkipped(lines, i)
  {
  }
}
