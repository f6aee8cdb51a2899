/**
 * The two lookups of the tracker as written, on plain JavaScript objects.
 *
 * Both the first pass's index (`requestIdToLastLine = {}`) and the table of
 * context limits are object literals used as dictionaries, so they inherit
 * the members of Object.prototype. A key that names one of those members
 * behaves unlike a dictionary key:
 *   - assigning a number to `obj["__proto__"]` runs the inherited setter,
 *     which ignores anything that is not an object, so nothing is stored;
 *   - `key in obj` is true for an inherited member;
 *   - `obj[key]` for an inherited member is a function (or, for
 *     `__proto__`, the prototype object), never a number.
 * The rest of the model uses the corrected lookups (`Deduplication`,
 * `ModelLimits`); this module shows where the written code departs from
 * them.
 */
module PrototypeKeys {
  import opened Transcript
  import opened Deduplication
  import ModelLimits

  const ProtoKey := "__proto__"

  /** The members every object literal inherits from Object.prototype. */
  const InheritedNames: set<string> := {
    ProtoKey, "constructor", "hasOwnProperty", "isPrototypeOf",
    "propertyIsEnumerable", "toLocaleString", "toString", "valueOf",
    "__defineGetter__", "__defineSetter__", "__lookupGetter__", "__lookupSetter__"
  }

  /** An object literal holding line indices as own properties. */
  datatype JsIndex = JsIndex(own: map<string, nat>)

  /** `obj[key] = value` with a number `value`. */
  function Assign(obj: JsIndex, key: string, value: nat): JsIndex {
    if key == ProtoKey then obj else JsIndex(obj.own[key := value])
  }

  /** `key in obj`: an own or an inherited property. */
  predicate Has(obj: JsIndex, key: string) {
    key in obj.own || key in InheritedNames
  }

  /** `lineIdx === obj[key]`: only an own property holds a number. */
  predicate StrictEqualsIndex(obj: JsIndex, key: string, lineIdx: nat) {
    key in obj.own && obj.own[key] == lineIdx
  }

  /** The first pass as written: the same overwrite-per-keyed-entry loop
      over [start, k), into an object literal. */
  function RequestIdToLastLineAsWritten(lines: seq<Line>, start: nat, k: nat): (obj: JsIndex)
    requires k <= |lines|
    ensures ProtoKey !in obj.own
    ensures forall id | id in obj.own :: start <= obj.own[id] < k
  {
    if k <= start then JsIndex(map[])
    else
      var obj := RequestIdToLastLineAsWritten(lines, start, k - 1);
      if IsKeyed(lines[k - 1]) then Assign(obj, lines[k - 1].requestId, k - 1) else obj
  }

  /** The second pass's last-occurrence test as written: an inherited
      name that is not an own property passes `in` but never `===`. */
  predicate IsLastOccurrenceAsWritten(obj: JsIndex, lineIdx: nat, l: Line): (r: bool)
    requires IsEntry(l)
    ensures l.requestId == "" ==> r
    ensures l.requestId in InheritedNames && l.requestId !in obj.own ==> !r
  {
    if l.requestId != "" && Has(obj, l.requestId) then StrictEqualsIndex(obj, l.requestId, lineIdx)
    else true
  }

  /** Writing a key and then dropping `__proto__` is dropping first and
      then writing, unless the key written is `__proto__` itself. */
  lemma RemoveAfterUpdate(m: map<string, nat>, key: string, value: nat)
    ensures key == ProtoKey ==> m[key := value] - {ProtoKey} == m - {ProtoKey}
    ensures key != ProtoKey ==> m[key := value] - {ProtoKey} == (m - {ProtoKey})[key := value]
  {
  }

  /** The object's own properties are the corrected index without the
      `__proto__` key. */
  lemma {:induction false} AsWrittenOwnKeys(lines: seq<Line>, start: nat, k: nat)
    requires k <= |lines|
    ensures RequestIdToLastLineAsWritten(lines, start, k).own
            == RequestIdToLastLine(lines, start, k) - {ProtoKey}
  {
    if k > start {
      AsWrittenOwnKeys(lines, start, k - 1);
      if IsKeyed(lines[k - 1]) {
        RemoveAfterUpdate(RequestIdToLastLine(lines, start, k - 1), lines[k - 1].requestId, k - 1);
      }
    }
  }

  /** For every request id but `__proto__` (the other inherited names
      included) the written test decides as the corrected one. */
  lemma AsWrittenAgreesOffProto(lines: seq<Line>, start: nat, i: nat)
    requires start <= i < |lines|
    requires IsEntry(lines[i]) && lines[i].requestId != ProtoKey
    ensures IsLastOccurrenceAsWritten(RequestIdToLastLineAsWritten(lines, start, |lines|), i, lines[i])
            == IsLastOccurrence(RequestIdToLastLine(lines, start, |lines|), i, lines[i])
  {
    AsWrittenOwnKeys(lines, start, |lines|);
    RequestIdToLastLineIsLastIndex(lines, start, |lines|);
    var m := RequestIdToLastLine(lines, start, |lines|);
    if lines[i].requestId != "" {
      assert lines[i].requestId in m;
    }
  }

  /** The discrepancy: an entry whose request id is `__proto__` is never
      the last occurrence as written, so its whole group is skipped and
      none of it is counted. */
  lemma ProtoGroupAllSkipped(lines: seq<Line>, start: nat, i: nat)
    requires start <= i < |lines|
    requires IsEntry(lines[i]) && lines[i].requestId == ProtoKey
    ensures !IsLastOccurrenceAsWritten(RequestIdToLastLineAsWritten(lines, start, |lines|), i, lines[i])
  {
  }

  /** A one-line log with a single reply under request id `__proto__`: the
      written test skips it, the corrected classification counts it. */
  lemma ProtoCounterexample(l: Line)
    requires l == Rec(Absent, AssistantKind, true, ProtoKey, NoUsage, "")
    ensures !IsLastOccurrenceAsWritten(RequestIdToLastLineAsWritten([l], 0, 1), 0, l)
    ensures IsLastOccurrence(RequestIdToLastLine([l], 0, 1), 0, l)
    ensures IsCounted([l], 0)
  {
  }

  /** A value read from the limits table. */
  datatype JsValue = Number(n: nat) | InheritedMember(name: string) | Undefined

  predicate Truthy(v: JsValue) {
    match v
    case Number(n) => n != 0
    case InheritedMember(_) => true
    case Undefined => false
  }

  /** `CONTEXT_LIMITS[modelId] || CONTEXT_LIMITS.default` as written: the
      fallback catches an undefined entry but not an inherited one. */
  function GetContextLimitAsWritten(modelId: string): (v: JsValue)
    ensures !v.Undefined?
    ensures v.Number? ==> v.n == 200000 || v.n == 1000000
    ensures v.InheritedMember? <==> modelId in InheritedNames
  {
    var v :=
      if modelId in ModelLimits.Limits then Number(ModelLimits.Limits[modelId])
      else if modelId in InheritedNames then InheritedMember(modelId)
      else Undefined;
    if Truthy(v) then v else Number(ModelLimits.Limits[ModelLimits.DefaultKey])
  }

  /** A model id naming an inherited member yields no number at all. */
  lemma InheritedModelIdHasNoLimit(modelId: string)
    requires modelId in InheritedNames
    ensures !GetContextLimitAsWritten(modelId).Number?
  {
  }

  /** Every other model id gets the corrected limit. */
  lemma AsWrittenLimitAgreesElsewhere(modelId: string)
    requires modelId !in InheritedNames
    ensures GetContextLimitAsWritten(modelId) == Number(ModelLimits.GetContextLimit(modelId))
  {
  }
}
