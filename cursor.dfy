/** The forward-only schedule cursor shared by every fixed-focus routine:
    `ind` is the index of the next zone and `id == ind - 1` the zone in use.
    An initial scan moves `ind` to the first zone (from index 1) that does
    not start before the first output sample; inside the sample loop the
    cursor moves one zone forward when the absolute sample has passed the
    start of zone `ind`. The functions are over the zones' start samples. */
module Cursor {
  import opened Schedules

  /** Result of the initial scan started at `from`: the first index at or
      after `from` whose zone does not start before absolute sample `o`. */
  function Scan(times: seq<int>, o: int, from: nat): (ind: nat)
    requires 1 <= from < |times| && times[|times| - 1] >= o
    ensures from <= ind < |times| && times[ind] >= o
    ensures forall k :: from <= k < ind ==> times[k] < o
    decreases |times| - from
  {
    if times[from] < o then Scan(times, o, from + 1) else from
  }

  /** The in-loop check: one step forward when absolute sample `o` has
      passed the start of zone `ind`. */
  function Advance(times: seq<int>, ind: nat, o: int): nat
    requires ind < |times|
  {
    if o > times[ind] then ind + 1 else ind
  }

  /** The value of `ind` after the check made for output sample `os`, the
      first output sample being absolute sample `o0`. */
  function CursorAt(times: seq<int>, o0: int, os: nat): (ind: nat)
    requires HasSentinel(times, o0 + os)
    ensures 1 <= ind < |times|
    decreases os, 1
  {
    Advance(times, CursorBefore(times, o0, os), o0 + os)
  }

  /** The value of `ind` when the check for output sample `os` is made:
      the initial scan's result for the first sample, otherwise the value
      left by the previous sample. */
  function CursorBefore(times: seq<int>, o0: int, os: nat): (ind: nat)
    requires HasSentinel(times, o0 + os)
    ensures 1 <= ind < |times|
    decreases os, 0
  {
    if os == 0 then Scan(times, o0, 1) else CursorAt(times, o0, os - 1)
  }

  /** The in-loop check for output sample `os`, absolute sample `o`: one
      zone forward when `o` has passed the start of zone `ind`. It leaves the
      cursor where the check for the next sample finds it. */
  method Check(times: seq<int>, o0: int, os: nat, o: int, id: nat, ind: nat) returns (nextId: nat, nextInd: nat)
    requires HasSentinel(times, o0 + os) && o == o0 + os
    requires ind == id + 1 && ind == CursorBefore(times, o0, os)
    ensures nextInd == nextId + 1 && nextInd == CursorAt(times, o0, os)
    ensures HasSentinel(times, o0 + os + 1) ==> nextInd == CursorBefore(times, o0, os + 1)
  {
    nextId, nextInd := id, ind;
    if o > times[ind] {
      nextInd, nextId := ind + 1, id + 1;
    }
  }

  /** The initial scan as the routines run it, keeping `ind == id + 1`. */
  method FindFirstSegment(times: seq<int>, o: int) returns (id: nat, ind: nat)
    requires HasSentinel(times, o)
    ensures ind == id + 1 && ind < |times|
    ensures times[ind] >= o
    ensures forall k :: 1 <= k < ind ==> times[k] < o
  {
    id, ind := 0, 1;
    while times[ind] < o
      invariant ind == id + 1 && 1 <= ind < |times|
      invariant forall k :: 1 <= k < ind ==> times[k] < o
      decreases |times| - ind
    {
      ind, id := ind + 1, id + 1;
    }
  }

  /** The scan result is characterised by its postcondition: any index with
      those properties is the one the scan stops at. */
  lemma {:induction false} ScanIsLeast(times: seq<int>, o: int, from: nat, ind: nat)
    requires 1 <= from <= ind < |times| && times[|times| - 1] >= o
    requires times[ind] >= o
    requires forall k :: from <= k < ind ==> times[k] < o
    ensures Scan(times, o, from) == ind
    decreases ind - from
  {
    if from < ind {
      ScanIsLeast(times, o, from + 1, ind);
    }
  }

  /** The check made for the first output sample never moves the cursor. */
  lemma FirstCheckKeepsScan(times: seq<int>, o0: int)
    requires HasSentinel(times, o0)
    ensures CursorAt(times, o0, 0) == Scan(times, o0, 1)
  {
  }

  /** `id` never decreases, and it moves at most one zone per output sample. */
  lemma {:induction false} CursorMonotone(times: seq<int>, o0: int, i: nat, j: nat)
    requires i <= j && HasSentinel(times, o0 + j)
    ensures CursorAt(times, o0, i) <= CursorAt(times, o0, j) <= CursorAt(times, o0, i) + (j - i)
    decreases j - i
  {
    if i < j {
      CursorMonotone(times, o0, i, j - 1);
    }
  }

  /** With strictly increasing zone starts the incremental cursor agrees with
      a fresh scan from the absolute sample where it stands: one step per
      sample is always enough. */
  lemma {:induction false} CursorIsLookup(times: seq<int>, o0: int, os: nat)
    requires HasSentinel(times, o0 + os) && StrictlyIncreasing(times)
    ensures CursorAt(times, o0, os) == Scan(times, o0 + os, 1)
    decreases os
  {
    if os > 0 {
      CursorIsLookup(times, o0, os - 1);
      var p := CursorAt(times, o0, os - 1);
      if times[p] < o0 + os {
        assert p + 1 < |times|;
        ScanIsLeast(times, o0 + os, 1, p + 1);
      } else {
        ScanIsLeast(times, o0 + os, 1, p);
      }
    }
  }

  /** The zone in use at absolute sample `o0 + os` is the last one that
      started strictly before it (or the first zone), and the next zone does
      not start before it. */
  lemma ActiveZoneIsLatestStarted(times: seq<int>, o0: int, os: nat)
    requires HasSentinel(times, o0 + os) && StrictlyIncreasing(times)
    ensures var id := CursorAt(times, o0, os) - 1;
      && (forall k :: 1 <= k <= id ==> times[k] < o0 + os)
      && (forall k :: id < k < |times| ==> times[k] >= o0 + os)
  {
    CursorIsLookup(times, o0, os);
  }
}
