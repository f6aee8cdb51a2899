/**
 * The session boundary locator: where the current session's records begin.
 *
 * A log may hold several sessions; a record whose `parentUuid` is explicitly
 * `null` is the root of a session, and only the records after the last root
 * belong to the session being tracked.
 */
module SessionBoundary {
  import opened Transcript

  /** `b` is the offset just after the last root of `lines`, or 0 if there is
      no root. */
  ghost predicate IsSessionStart(lines: seq<Line>, b: nat) {
    && b <= |lines|
    && (b > 0 ==> IsRoot(lines[b - 1]))
    && (forall j | b <= j < |lines| :: !IsRoot(lines[j]))
  }

  /** The scan loop from index `i` on, `boundary` being the value so far.
      Each root sets the boundary to its index plus one; every other line,
      a decode failure included, leaves it alone. */
  function ScanFrom(lines: seq<Line>, i: nat, boundary: nat): (b: nat)
    requires boundary <= i <= |lines|
    ensures boundary <= b <= |lines|
    ensures b == boundary <==> forall j | i <= j < |lines| :: !IsRoot(lines[j])
    ensures b > i ==> IsRoot(lines[b - 1])
    ensures forall j | i <= j < |lines| && b <= j :: !IsRoot(lines[j])
    decreases |lines| - i
  {
    if i == |lines| then boundary
    else ScanFrom(lines, i + 1, if IsRoot(lines[i]) then i + 1 else boundary)
  }

  /** findCurrentSessionStart: the offset just after the last root, 0 when
      the log has none. */
  function FindCurrentSessionStart(lines: seq<Line>): (b: nat)
    ensures IsSessionStart(lines, b)
    ensures b == 0 <==> forall j | 0 <= j < |lines| :: !IsRoot(lines[j])
  {
    ScanFrom(lines, 0, 0)
  }

  /** The boundary is determined by its characterisation. */
  lemma BoundaryUnique(lines: seq<Line>, b: nat)
    requires IsSessionStart(lines, b)
    ensures b == FindCurrentSessionStart(lines)
  {
  }

  /** Only roots matter: two logs of the same length with roots at the same
      places have the same boundary, whatever else their lines hold (a
      missing `parentUuid`, a uuid, a decode failure). */
  lemma BoundaryIgnoresNonRoots(a: seq<Line>, c: seq<Line>)
    requires |a| == |c|
    requires forall j | 0 <= j < |a| :: IsRoot(a[j]) == IsRoot(c[j])
    ensures FindCurrentSessionStart(a) == FindCurrentSessionStart(c)
  {
  }

  /** Appending a line that is not a root never moves the boundary. */
  lemma AppendNonRoot(lines: seq<Line>, l: Line)
    requires !IsRoot(l)
    ensures FindCurrentSessionStart(lines + [l]) == FindCurrentSessionStart(lines)
  {
    var b := FindCurrentSessionStart(lines);
    assert forall j | 0 <= j < |lines| :: (lines + [l])[j] == lines[j];
    BoundaryUnique(lines + [l], b);
  }

  /** Appending a root starts a new, empty session after it. */
  lemma AppendRoot(lines: seq<Line>, l: Line)
    requires IsRoot(l)
    ensures FindCurrentSessionStart(lines + [l]) == |lines| + 1
  {
    BoundaryUnique(lines + [l], |lines| + 1);
  }
}
