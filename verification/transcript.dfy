/**
 * The transcript as the tracker sees it: one decoded value per log line.
 *
 * Decoding itself (JSON.parse) is not modelled; a line is either a decode
 * failure or a record carrying the handful of fields the tracker reads.
 */
module Transcript {

  /** The `parentUuid` field. A missing field and an explicit `null` are
      different states: only `null` marks the root of a session. */
  datatype Parent = Absent | Null | Uuid(value: string)

  /** The token counts of `message.usage` (and its nested `cache_creation`
      breakdown). A missing or falsy field is 0. */
  datatype Usage = Usage(
    input: nat,
    output: nat,
    cacheCreation: nat,
    cacheRead: nat,
    ephemeral5m: nat,
    ephemeral1h: nat)

  const NoUsage := Usage(0, 0, 0, 0, 0, 0)

  /** One line of the log after decoding. In a record, `parent` is the
      top-level `parentUuid`, `kind` the top-level `type`, `hasMessage`
      says whether `message` is truthy, and `requestId` is the top-level
      `requestId`. `usage` and `model` are read from inside the message:
      `message.usage` and `message.model`. `requestId` and `model` are ""
      when missing or falsy. */
  datatype Line =
    | Malformed
    | Rec(parent: Parent, kind: string, hasMessage: bool, requestId: string,
          usage: Usage, model: string)

  const AssistantKind := "assistant"

  /** A record whose `parentUuid` is explicitly `null`. */
  predicate IsRoot(l: Line) {
    l.Rec? && l.parent == Null
  }

  /** An assistant record with a message: the only lines the aggregator reads. */
  predicate IsEntry(l: Line) {
    l.Rec? && l.kind == AssistantKind && l.hasMessage
  }

  /** An entry that belongs to a group of streaming revisions. */
  predicate IsKeyed(l: Line) {
    IsEntry(l) && l.requestId != ""
  }

  function UsageOf(l: Line): Usage {
    if l.Rec? then l.usage else NoUsage
  }

  function ModelOf(l: Line): string {
    if l.Rec? then l.model else ""
  }

  /** The request ids of the keyed entries of `s`. */
  function KeyedIds(s: seq<Line>): (ids: set<string>)
    ensures forall id :: id in ids <==>
      exists j :: 0 <= j < |s| && IsKeyed(s[j]) && s[j].requestId == id
    ensures "" !in ids
  {
    if s == [] then {}
    else
      var rest := KeyedIds(s[1..]);
      assert forall j :: 0 < j < |s| ==> s[j] == s[1..][j - 1];
      (if IsKeyed(s[0]) then {s[0].requestId} else {}) + rest
  }

  lemma {:induction false} KeyedIdsConcat(a: seq<Line>, b: seq<Line>)
    ensures KeyedIds(a + b) == KeyedIds(a) + KeyedIds(b)
  {
    forall id
      ensures id in KeyedIds(a + b) <==> id in KeyedIds(a) + KeyedIds(b)
    {
      if id in KeyedIds(a + b) {
        var j :| 0 <= j < |a + b| && IsKeyed((a + b)[j]) && (a + b)[j].requestId == id;
        if j >= |a| {
          assert b[j - |a|] == (a + b)[j];
        }
      }
      if id in KeyedIds(a) {
        var j :| 0 <= j < |a| && IsKeyed(a[j]) && a[j].requestId == id;
        assert (a + b)[j] == a[j];
      }
      if id in KeyedIds(b) {
        var j :| 0 <= j < |b| && IsKeyed(b[j]) && b[j].requestId == id;
        assert (a + b)[|a| + j] == b[j];
      }
    }
  }

  /** The entries of `s`, in order: every other line is inert. */
  function Entries(s: seq<Line>): (e: seq<Line>)
    ensures forall x | x in e :: IsEntry(x)
    ensures forall x | x in s && IsEntry(x) :: x in e
    ensures |e| <= |s|
  {
    if s == [] then []
    else
      assert forall x | x in s :: x == s[0] || x in s[1..];
      (if IsEntry(s[0]) then [s[0]] else []) + Entries(s[1..])
  }

  /** Inert lines carry no request id into the grouping. */
  lemma {:induction false} EntriesKeepKeyedIds(s: seq<Line>)
    ensures KeyedIds(Entries(s)) == KeyedIds(s)
  {
    if s != [] {
      EntriesKeepKeyedIds(s[1..]);
      var head := if IsEntry(s[0]) then [s[0]] else [];
      KeyedIdsConcat(head, Entries(s[1..]));
      KeyedIdsConcat([s[0]], s[1..]);
      assert s == [s[0]] + s[1..];
    }
  }
}
