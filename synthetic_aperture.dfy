/** Synthetic-aperture combination on fixed focusing: sum_lines_time builds
    a high-resolution line from two low-resolution lines, and add/sub
    (apo) lines_time add a low-resolution line's focused contribution into a
    high-resolution line in place or take it out again; sum_images,
    add_images and sub_images apply them line by line. */
module SyntheticAperture {
  import opened Schedules
  import opened Cursor
  import opened FixedFocus

  /** The element check the combination routines make: they abort when
      `element > no_elements`, so the index no_elements itself passes. */
  predicate ElementAcceptedAsWritten(element: nat, noElements: nat)
  {
    !(element > noElements)
  }

  /** The check they evidently intend: element indexes run 0 .. noElements-1. */
  predicate ElementInRange(element: nat, noElements: nat)
  {
    element < noElements
  }

  /** For tables holding exactly one delay and one fraction per element,
      the check as written lets through exactly one element the intended
      check refuses, element `noElements`, and no zone has an entry for it. */
  lemma ElementGuardAdmitsOnePastTheEnd(ftl: FocusTimeLine, element: nat)
    requires forall s :: 0 <= s < |ftl.delay| ==> |ftl.delay[s].d| == ftl.noElements && |ftl.delay[s].a| == ftl.noElements
    ensures ElementAcceptedAsWritten(element, ftl.noElements) && !ElementInRange(element, ftl.noElements)
        <==> element == ftl.noElements
    ensures element == ftl.noElements ==>
      forall s :: 0 <= s < |ftl.delay| ==> !(element < |ftl.delay[s].d|) && !(element < |ftl.delay[s].a|)
  {
  }

  /** An element that passes the intended check has a delay, a fraction and
      a weight in every zone of tables that cover the transducer. */
  lemma ElementInRangeReadsInside(ftl: FocusTimeLine, atl: ApoTimeLine, o0: int, n: nat, element: nat)
    requires FocusCovers(ftl, o0, n) && ApoCovers(atl, ftl.noElements, o0, n)
    requires ElementInRange(element, ftl.noElements)
    ensures forall s :: 0 <= s < |ftl.delay| ==> element < |ftl.delay[s].d| && element < |ftl.delay[s].a|
    ensures forall s :: 0 <= s < |atl.a| ==> element < |atl.a[s].a|
  {
  }

  // ---------------------------------------------------------------------
  // sum_lines_time
  // ---------------------------------------------------------------------

  /** sum_lines_time's abort checks as requirements (a non-empty apodization
      table, a non-empty focus table, both elements in range), the
      `no_samples--` that needs at least one sample, and the data read. */
  predicate SumInputs(ftl: FocusTimeLine, atl: ApoTimeLine, o0: int,
                      line1: seq<real>, e1: nat, line2: seq<real>, e2: nat, n: nat)
  {
    && atl.noTimes > 0 && ftl.noTimes > 0
    && ElementInRange(e1, ftl.noElements) && ElementInRange(e2, ftl.noElements)
    && 1 <= n && n <= |line1| && n <= |line2|
    && FocusCovers(ftl, o0, n) && ApoCovers(atl, ftl.noElements, o0, n)
  }

  /** One line's weighted, interpolated contribution when the compensated
      index lies in [1, top], and nothing otherwise. */
  function Windowed(line: seq<real>, is1: int, frac: real, weight: real, top: int): real
    requires top < |line|
  {
    if 1 <= is1 <= top then weight * Interp(line, is1, frac) else 0.0
  }

  /** Output sample `os` (before the last) of the intended sum: both lines
      in the zones in use, each with its own element's delay, fraction and
      weight, over the window [1, n-1]. */
  function SumSample(ftl: FocusTimeLine, atl: ApoTimeLine, o0: int,
                     line1: seq<real>, e1: nat, line2: seq<real>, e2: nat, n: nat, os: nat): real
    requires SumInputs(ftl, atl, o0, line1, e1, line2, e2, n) && os < n - 1
  {
    var z, w := DelayZone(ftl, o0, os), ApoZone(atl, o0, os);
    Windowed(line1, os - z.d[e1], z.a[e1], w.a[e1], n - 1)
    + Windowed(line2, os - z.d[e2], z.a[e2], w.a[e2], n - 1)
  }

  /** The line the corrected sum_lines_time returns; the last sample keeps
      the zero the allocation gave it. */
  function SumLine(ftl: FocusTimeLine, atl: ApoTimeLine, o0: int,
                   line1: seq<real>, e1: nat, line2: seq<real>, e2: nat, n: nat): (r: seq<real>)
    requires SumInputs(ftl, atl, o0, line1, e1, line2, e2, n)
    ensures |r| == n && r[n - 1] == 0.0
  {
    seq(n, os requires 0 <= os < n =>
      if os < n - 1 then SumSample(ftl, atl, o0, line1, e1, line2, e2, n, os) else 0.0)
  }

  /** Output sample `os` of sum_lines_time as written: the second line's
      fraction is first read from element1's entry and only switches to
      element2's entry when the delay cursor first moves. */
  function SumSampleAsWritten(ftl: FocusTimeLine, atl: ApoTimeLine, o0: int,
                              line1: seq<real>, e1: nat, line2: seq<real>, e2: nat, n: nat, os: nat): real
    requires SumInputs(ftl, atl, o0, line1, e1, line2, e2, n) && os < n - 1
  {
    var times := DelayTimes(ftl.delay);
    var z, w := DelayZone(ftl, o0, os), ApoZone(atl, o0, os);
    var frac2 := if CursorAt(times, o0, os) == Scan(times, o0, 1) then z.a[e1] else z.a[e2];
    Windowed(line1, os - z.d[e1], z.a[e1], w.a[e1], n - 1)
    + Windowed(line2, os - z.d[e2], frac2, w.a[e2], n - 1)
  }

  function SumLineAsWritten(ftl: FocusTimeLine, atl: ApoTimeLine, o0: int,
                            line1: seq<real>, e1: nat, line2: seq<real>, e2: nat, n: nat): (r: seq<real>)
    requires SumInputs(ftl, atl, o0, line1, e1, line2, e2, n)
    ensures |r| == n
  {
    seq(n, os requires 0 <= os < n =>
      if os < n - 1 then SumSampleAsWritten(ftl, atl, o0, line1, e1, line2, e2, n, os) else 0.0)
  }

  /** The intended sum does not depend on which line is passed first. */
  lemma SumLineSymmetric(ftl: FocusTimeLine, atl: ApoTimeLine, o0: int,
                         line1: seq<real>, e1: nat, line2: seq<real>, e2: nat, n: nat)
    requires SumInputs(ftl, atl, o0, line1, e1, line2, e2, n)
    ensures SumInputs(ftl, atl, o0, line2, e2, line1, e1, n)
    ensures SumLine(ftl, atl, o0, line1, e1, line2, e2, n) == SumLine(ftl, atl, o0, line2, e2, line1, e1, n)
  {
    var r, q := SumLine(ftl, atl, o0, line1, e1, line2, e2, n), SumLine(ftl, atl, o0, line2, e2, line1, e1, n);
    forall os | 0 <= os < n
      ensures r[os] == q[os]
    {
      if os < n - 1 {
        assert r[os] == SumSample(ftl, atl, o0, line1, e1, line2, e2, n, os);
        assert q[os] == SumSample(ftl, atl, o0, line2, e2, line1, e1, n, os);
      }
    }
  }

  /** The example for the as-written sum: two elements, one zone with
      delays 0 and fractions 0 and 0.5, unit weights, three samples, both
      lines [1, 2, 3]. */
  function SumExampleFocus(): FocusTimeLine
  {
    FocusTimeLine(1, [DelaySegment(0, [0, 0], [0.0, 0.5]), DelaySegment(3, [0, 0], [0.0, 0.5])], false, false, 2)
  }

  function SumExampleApo(): ApoTimeLine
  {
    ApoTimeLine(1, [ApoSegment(0, [1.0, 1.0]), ApoSegment(3, [1.0, 1.0])])
  }

  /** As written, sample 1 of the example is 4 with the elements in one order
      and 3 in the other, while the intended sum is 3.5 either way. */
  lemma SumAsWrittenDependsOnOrder()
    ensures SumInputs(SumExampleFocus(), SumExampleApo(), 0, [1.0, 2.0, 3.0], 0, [1.0, 2.0, 3.0], 1, 3)
    ensures SumInputs(SumExampleFocus(), SumExampleApo(), 0, [1.0, 2.0, 3.0], 1, [1.0, 2.0, 3.0], 0, 3)
    ensures SumLineAsWritten(SumExampleFocus(), SumExampleApo(), 0, [1.0, 2.0, 3.0], 0, [1.0, 2.0, 3.0], 1, 3)[1] == 4.0
    ensures SumLineAsWritten(SumExampleFocus(), SumExampleApo(), 0, [1.0, 2.0, 3.0], 1, [1.0, 2.0, 3.0], 0, 3)[1] == 3.0
    ensures SumLine(SumExampleFocus(), SumExampleApo(), 0, [1.0, 2.0, 3.0], 0, [1.0, 2.0, 3.0], 1, 3)[1] == 3.5
  {
    var ftl, atl, line := SumExampleFocus(), SumExampleApo(), [1.0, 2.0, 3.0];
    var times := DelayTimes(ftl.delay);
    assert times == [0, 3] && ApoTimes(atl.a) == [0, 3];
    assert Scan(times, 0, 1) == 1;
    CursorMonotone(times, 0, 1, 2);
    CursorMonotone(ApoTimes(atl.a), 0, 1, 2);
    assert CursorAt(times, 0, 1) == 1 && CursorAt(ApoTimes(atl.a), 0, 1) == 1;
    assert Interp(line, 1, 0.0) == 2.0 && Interp(line, 1, 0.5) == 1.5;
  }

  /** sum_lines_time (with element2's fraction read at the start, as
      intended): a zero-initialised line, both cursors advancing together,
      each line adding its term when its compensated index is in [1, n-1]. */
  method SumLinesTime(ftl: FocusTimeLine, atl: ApoTimeLine, o0: nat,
                      line1: seq<real>, e1: nat, line2: seq<real>, e2: nat, n: nat)
    returns (sumLine: array<real>)
    requires SumInputs(ftl, atl, o0, line1, e1, line2, e2, n)
    ensures fresh(sumLine)
    ensures sumLine[..] == SumLine(ftl, atl, o0, line1, e1, line2, e2, n)
  {
    sumLine := new real[n](_ => 0.0);
    FillSum(ftl, atl, o0, line1, e1, line2, e2, n, sumLine);
    assert sumLine[..] == SumLine(ftl, atl, o0, line1, e1, line2, e2, n);
  }

  /** The sample loop of sum_lines_time over a zero-initialised line. */
  method FillSum(ftl: FocusTimeLine, atl: ApoTimeLine, o0: nat,
                 line1: seq<real>, e1: nat, line2: seq<real>, e2: nat, n: nat, sumLine: array<real>)
    requires SumInputs(ftl, atl, o0, line1, e1, line2, e2, n)
    requires sumLine.Length == n && forall k :: 0 <= k < n ==> sumLine[k] == 0.0
    modifies sumLine
    ensures sumLine[n - 1] == 0.0
    ensures forall k :: 0 <= k < n - 1 ==> sumLine[k] == SumSample(ftl, atl, o0, line1, e1, line2, e2, n, k)
  {
    var times, apoTimes := DelayTimes(ftl.delay), ApoTimes(atl.a);
    var id, ind := FindFirstSegment(times, o0);
    ScanIsLeast(times, o0, 1, ind);
    var ia, ina := FindFirstSegment(apoTimes, o0);
    ScanIsLeast(apoTimes, o0, 1, ina);
    var m := n - 1;
    var os, oAbs := 0, o0;
    while os < m
      invariant os <= m && oAbs == o0 + os
      invariant ind == id + 1 && ina == ia + 1
      invariant ind == CursorBefore(times, o0, os)
      invariant ina == CursorBefore(apoTimes, o0, os)
      invariant forall k :: os <= k < n ==> sumLine[k] == 0.0
      invariant forall k :: 0 <= k < os ==> sumLine[k] == SumSample(ftl, atl, o0, line1, e1, line2, e2, n, k)
    {
      id, ind := Check(times, o0, os, oAbs, id, ind);
      ia, ina := Check(apoTimes, o0, os, oAbs, ia, ina);
      var v := SumSampleInZones(ftl, atl, o0, line1, e1, line2, e2, n, os, id, ia);
      sumLine[os] := sumLine[os] + v;
      os, oAbs := os + 1, oAbs + 1;
    }
  }

  /** Both windowed terms of output sample `os`, in the zones the cursors
      stand in after the check for that sample. */
  method SumSampleInZones(ftl: FocusTimeLine, atl: ApoTimeLine, o0: int,
                          line1: seq<real>, e1: nat, line2: seq<real>, e2: nat, n: nat, os: nat, id: nat, ia: nat)
    returns (v: real)
    requires SumInputs(ftl, atl, o0, line1, e1, line2, e2, n) && os < n - 1
    requires id + 1 == CursorAt(DelayTimes(ftl.delay), o0, os)
    requires ia + 1 == CursorAt(ApoTimes(atl.a), o0, os)
    ensures v == SumSample(ftl, atl, o0, line1, e1, line2, e2, n, os)
  {
    var d1, a1 := ftl.delay[id].d[e1], ftl.delay[id].a[e1];
    var d2, a2 := ftl.delay[id].d[e2], ftl.delay[id].a[e2];
    var apo1, apo2 := atl.a[ia].a[e1], atl.a[ia].a[e2];
    var m := n - 1;
    var is1, is2 := os - d1, os - d2;
    v := 0.0;
    if 0 <= is1 - 1 < m {
      v := v + apo1 * (line1[is1] * (1.0 - a1) + line1[is1 - 1] * a1);
    }
    if 0 <= is2 - 1 < m {
      v := v + apo2 * (line2[is2] * (1.0 - a2) + line2[is2 - 1] * a2);
    }
  }

  // ---------------------------------------------------------------------
  // add/sub (apo) lines_time
  // ---------------------------------------------------------------------

  /** The abort checks of add_lines_time and sub_lines_time as requirements
      (a non-empty focus table, the element in range), the `no_samples--`
      that needs at least one sample, and the data read. */
  predicate LoInputs(ftl: FocusTimeLine, o0: int, lo: seq<real>, element: nat, n: nat)
  {
    && ftl.noTimes > 0 && ElementInRange(element, ftl.noElements)
    && 1 <= n && n - 1 <= |lo|
    && FocusCovers(ftl, o0, n)
  }

  /** The apodized variants also abort on an empty apodization table. */
  predicate ApoLoInputs(ftl: FocusTimeLine, atl: ApoTimeLine, o0: int, lo: seq<real>, element: nat, n: nat)
  {
    LoInputs(ftl, o0, lo, element, n) && atl.noTimes > 0 && ApoCovers(atl, ftl.noElements, o0, n)
  }

  /** The low-resolution line's interpolated sample when the compensated
      index lies in [1, n-2] (the unsigned test `is1-1 < m && is1 < m` with
      m = n-1), and nothing otherwise. */
  function LoTerm(lo: seq<real>, is1: int, frac: real, n: nat): real
    requires n - 1 <= |lo|
  {
    if 1 <= is1 <= n - 2 then Interp(lo, is1, frac) else 0.0
  }

  /** What add_lines_time adds to (and sub_lines_time takes from) each of the
      high-resolution samples 0 .. n-2. */
  function Contribution(ftl: FocusTimeLine, o0: int, lo: seq<real>, element: nat, n: nat): (c: seq<real>)
    requires LoInputs(ftl, o0, lo, element, n)
    ensures |c| == n - 1
  {
    seq(n - 1, os requires 0 <= os < n - 1 => LoSample(ftl, o0, lo, element, n, os))
  }

  /** Sample `os` of the contribution, in the delay zone in use there. */
  function LoSample(ftl: FocusTimeLine, o0: int, lo: seq<real>, element: nat, n: nat, os: nat): real
    requires LoInputs(ftl, o0, lo, element, n) && os < n - 1
  {
    var z := DelayZone(ftl, o0, os);
    LoTerm(lo, os - z.d[element], z.a[element], n)
  }

  /** The same, weighted by the element's apodization in the zone in use. */
  function ApoContribution(ftl: FocusTimeLine, atl: ApoTimeLine, o0: int, lo: seq<real>, element: nat, n: nat): (c: seq<real>)
    requires ApoLoInputs(ftl, atl, o0, lo, element, n)
    ensures |c| == n - 1
  {
    seq(n - 1, os requires 0 <= os < n - 1 => ApoLoSample(ftl, atl, o0, lo, element, n, os))
  }

  /** Sample `os` of the weighted contribution, in the zones in use there. */
  function ApoLoSample(ftl: FocusTimeLine, atl: ApoTimeLine, o0: int, lo: seq<real>, element: nat, n: nat, os: nat): real
    requires ApoLoInputs(ftl, atl, o0, lo, element, n) && os < n - 1
  {
    var z, w := DelayZone(ftl, o0, os), ApoZone(atl, o0, os);
    w.a[element] * LoTerm(lo, os - z.d[element], z.a[element], n)
  }

  /** `h` with `c` added to its first |c| samples. */
  function Added(h: seq<real>, c: seq<real>): (r: seq<real>)
    requires |c| <= |h|
    ensures |r| == |h|
  {
    seq(|h|, i requires 0 <= i < |h| => if i < |c| then h[i] + c[i] else h[i])
  }

  /** `h` with `c` taken from its first |c| samples. */
  function Subtracted(h: seq<real>, c: seq<real>): (r: seq<real>)
    requires |c| <= |h|
    ensures |r| == |h|
  {
    seq(|h|, i requires 0 <= i < |h| => if i < |c| then h[i] - c[i] else h[i])
  }

  /** Subtracting a contribution undoes adding it, and the other way round. */
  lemma SubtractUndoesAdd(h: seq<real>, c: seq<real>)
    requires |c| <= |h|
    ensures Subtracted(Added(h, c), c) == h
    ensures Added(Subtracted(h, c), c) == h
  {
    assert forall i :: 0 <= i < |h| ==> Subtracted(Added(h, c), c)[i] == h[i];
    assert forall i :: 0 <= i < |h| ==> Added(Subtracted(h, c), c)[i] == h[i];
  }

  /** Adding two contributions one after the other is adding their sum, in
      either order: the order in which low-resolution lines are folded into
      a high-resolution line does not matter. */
  lemma AddsCommute(h: seq<real>, c1: seq<real>, c2: seq<real>)
    requires |c1| <= |h| && |c2| <= |h|
    ensures Added(Added(h, c1), c2) == Added(Added(h, c2), c1)
  {
    assert forall i :: 0 <= i < |h| ==> Added(Added(h, c1), c2)[i] == Added(Added(h, c2), c1)[i];
  }

  /** Adding or taking away nothing changes nothing. */
  lemma AddedNothing(h: seq<real>)
    ensures Added(h, []) == h
  {
  }

  lemma SubtractedNothing(h: seq<real>)
    ensures Subtracted(h, []) == h
  {
  }

  /** One more sample of a contribution, added or taken away, changes that
      sample only. */
  lemma AddedPrefixStep(h: seq<real>, c: seq<real>, os: nat)
    requires os < |c| <= |h|
    ensures Added(h, c[..os + 1]) == Added(h, c[..os])[os := h[os] + c[os]]
  {
  }

  lemma SubtractedPrefixStep(h: seq<real>, c: seq<real>, os: nat)
    requires os < |c| <= |h|
    ensures Subtracted(h, c[..os + 1]) == Subtracted(h, c[..os])[os := h[os] - c[os]]
  {
  }

  /** One step of add_lines_time on the array: `hi`, holding `h` with the
      first `os` samples of `c` added, gets sample `os` of `c` added too. */
  method AddSample(hi: array<real>, ghost h: seq<real>, ghost c: seq<real>, os: nat, v: real)
    requires os < |c| <= |h| == hi.Length && v == c[os]
    requires hi[..] == Added(h, c[..os])
    modifies hi
    ensures hi[..] == Added(h, c[..os + 1])
  {
    AddedPrefixStep(h, c, os);
    hi[os] := hi[os] + v;
  }

  /** One step of sub_lines_time on the array. */
  method SubtractSample(hi: array<real>, ghost h: seq<real>, ghost c: seq<real>, os: nat, v: real)
    requires os < |c| <= |h| == hi.Length && v == c[os]
    requires hi[..] == Subtracted(h, c[..os])
    modifies hi
    ensures hi[..] == Subtracted(h, c[..os + 1])
  {
    SubtractedPrefixStep(h, c, os);
    hi[os] := hi[os] - v;
  }

  /** Samples 0 .. n-2 are the only ones touched, and a sample whose
      element's compensated index is outside [1, n-2] gets nothing. */
  lemma ContributionWindow(ftl: FocusTimeLine, o0: int, lo: seq<real>, element: nat, n: nat, os: nat)
    requires LoInputs(ftl, o0, lo, element, n) && os < n - 1
    requires var z := DelayZone(ftl, o0, os); !(1 <= os - z.d[element] <= n - 2)
    ensures Contribution(ftl, o0, lo, element, n)[os] == 0.0
  {
  }

  /** With unit weights the apodized contribution is the plain one. */
  lemma UnitWeightContribution(ftl: FocusTimeLine, atl: ApoTimeLine, o0: int, lo: seq<real>, element: nat, n: nat)
    requires ApoLoInputs(ftl, atl, o0, lo, element, n)
    requires forall s :: 0 <= s < |atl.a| ==> atl.a[s].a[element] == 1.0
    ensures ApoContribution(ftl, atl, o0, lo, element, n) == Contribution(ftl, o0, lo, element, n)
  {
    var c, p := ApoContribution(ftl, atl, o0, lo, element, n), Contribution(ftl, o0, lo, element, n);
    forall os | 0 <= os < n - 1
      ensures c[os] == p[os]
    {
      var w := ApoZone(atl, o0, os);
      assert w.a[element] == 1.0;
    }
  }

  /** sum_lines_time and add_apo_lines_time agree: a sample of the summed
      line is what adding both low-resolution lines would give it, except
      where a compensated index is n-1, which only the sum's window holds. */
  lemma SumIsTwoAdds(ftl: FocusTimeLine, atl: ApoTimeLine, o0: int,
                     line1: seq<real>, e1: nat, line2: seq<real>, e2: nat, n: nat, os: nat)
    requires SumInputs(ftl, atl, o0, line1, e1, line2, e2, n) && os < n - 1
    requires var z := DelayZone(ftl, o0, os); os - z.d[e1] != n - 1 && os - z.d[e2] != n - 1
    ensures ApoLoInputs(ftl, atl, o0, line1, e1, n) && ApoLoInputs(ftl, atl, o0, line2, e2, n)
    ensures SumLine(ftl, atl, o0, line1, e1, line2, e2, n)[os]
         == ApoContribution(ftl, atl, o0, line1, e1, n)[os] + ApoContribution(ftl, atl, o0, line2, e2, n)[os]
  {
    assert SumLine(ftl, atl, o0, line1, e1, line2, e2, n)[os] == SumSample(ftl, atl, o0, line1, e1, line2, e2, n, os);
  }

  /** The term of output sample `os` of add/sub lines_time, in the zone the
      cursor stands in after the check for that sample: the interpolated
      low-resolution sample when `is1-1 < m && is1 < m`, otherwise 0. */
  method LoSampleInZone(ftl: FocusTimeLine, o0: int, lo: seq<real>, element: nat, n: nat, os: nat, id: nat)
    returns (v: real)
    requires LoInputs(ftl, o0, lo, element, n) && os < n - 1
    requires id + 1 == CursorAt(DelayTimes(ftl.delay), o0, os)
    ensures v == Contribution(ftl, o0, lo, element, n)[os]
  {
    var d1, a1 := ftl.delay[id].d[element], ftl.delay[id].a[element];
    var m := n - 1;
    var is1 := os - d1;
    v := 0.0;
    if 0 <= is1 - 1 < m && is1 < m {
      v := lo[is1] * (1.0 - a1) + lo[is1 - 1] * a1;
    }
  }

  /** The same for add/sub apo lines_time, weighted by the element's
      apodization in the zone the apodization cursor stands in. */
  method ApoLoSampleInZones(ftl: FocusTimeLine, atl: ApoTimeLine, o0: int, lo: seq<real>, element: nat, n: nat,
                            os: nat, id: nat, ia: nat)
    returns (v: real)
    requires ApoLoInputs(ftl, atl, o0, lo, element, n) && os < n - 1
    requires id + 1 == CursorAt(DelayTimes(ftl.delay), o0, os)
    requires ia + 1 == CursorAt(ApoTimes(atl.a), o0, os)
    ensures v == ApoContribution(ftl, atl, o0, lo, element, n)[os]
  {
    var d1, a1, apo1 := ftl.delay[id].d[element], ftl.delay[id].a[element], atl.a[ia].a[element];
    var m := n - 1;
    var is1 := os - d1;
    v := 0.0;
    if 0 <= is1 - 1 < m && is1 < m {
      v := apo1 * (lo[is1] * (1.0 - a1) + lo[is1 - 1] * a1);
    }
  }

  /** add_lines_time: each high-resolution sample 0 .. n-2 gets its term
      added, the delay cursor advancing with the samples. */
  method AddLinesTime(ftl: FocusTimeLine, o0: nat, hi: array<real>, lo: seq<real>, element: nat, n: nat)
    requires LoInputs(ftl, o0, lo, element, n) && n - 1 <= hi.Length
    modifies hi
    ensures hi[..] == Added(old(hi[..]), Contribution(ftl, o0, lo, element, n))
  {
    ghost var h0, c := hi[..], Contribution(ftl, o0, lo, element, n);
    var times := DelayTimes(ftl.delay);
    var id, ind := FindFirstSegment(times, o0);
    ScanIsLeast(times, o0, 1, ind);
    var os, oAbs := 0, o0;
    assert c[..0] == [];
    AddedNothing(h0);
    while os < n - 1
      invariant os <= n - 1 && oAbs == o0 + os
      invariant ind == id + 1 && ind == CursorBefore(times, o0, os)
      invariant hi[..] == Added(h0, c[..os])
    {
      id, ind := Check(times, o0, os, oAbs, id, ind);
      var v := LoSampleInZone(ftl, o0, lo, element, n, os, id);
      AddSample(hi, h0, c, os, v);
      os, oAbs := os + 1, oAbs + 1;
    }
    assert c[..n - 1] == c;
  }

  /** sub_lines_time: the same terms, taken away. */
  method SubLinesTime(ftl: FocusTimeLine, o0: nat, hi: array<real>, lo: seq<real>, element: nat, n: nat)
    requires LoInputs(ftl, o0, lo, element, n) && n - 1 <= hi.Length
    modifies hi
    ensures hi[..] == Subtracted(old(hi[..]), Contribution(ftl, o0, lo, element, n))
  {
    ghost var h0, c := hi[..], Contribution(ftl, o0, lo, element, n);
    var times := DelayTimes(ftl.delay);
    var id, ind := FindFirstSegment(times, o0);
    ScanIsLeast(times, o0, 1, ind);
    var os, oAbs := 0, o0;
    assert c[..0] == [];
    SubtractedNothing(h0);
    while os < n - 1
      invariant os <= n - 1 && oAbs == o0 + os
      invariant ind == id + 1 && ind == CursorBefore(times, o0, os)
      invariant hi[..] == Subtracted(h0, c[..os])
    {
      id, ind := Check(times, o0, os, oAbs, id, ind);
      var v := LoSampleInZone(ftl, o0, lo, element, n, os, id);
      SubtractSample(hi, h0, c, os, v);
      os, oAbs := os + 1, oAbs + 1;
    }
    assert c[..n - 1] == c;
  }

  /** add_apo_lines_time: as add_lines_time with weighted terms, the
      apodization cursor advancing alongside the delay cursor. */
  method AddApoLinesTime(ftl: FocusTimeLine, atl: ApoTimeLine, o0: nat, hi: array<real>, lo: seq<real>, element: nat, n: nat)
    requires ApoLoInputs(ftl, atl, o0, lo, element, n) && n - 1 <= hi.Length
    modifies hi
    ensures hi[..] == Added(old(hi[..]), ApoContribution(ftl, atl, o0, lo, element, n))
  {
    ghost var h0, c := hi[..], ApoContribution(ftl, atl, o0, lo, element, n);
    var times, apoTimes := DelayTimes(ftl.delay), ApoTimes(atl.a);
    var id, ind := FindFirstSegment(times, o0);
    ScanIsLeast(times, o0, 1, ind);
    var ia, ina := FindFirstSegment(apoTimes, o0);
    ScanIsLeast(apoTimes, o0, 1, ina);
    var os, oAbs := 0, o0;
    assert c[..0] == [];
    AddedNothing(h0);
    while os < n - 1
      invariant os <= n - 1 && oAbs == o0 + os
      invariant ind == id + 1 && ind == CursorBefore(times, o0, os)
      invariant ina == ia + 1 && ina == CursorBefore(apoTimes, o0, os)
      invariant hi[..] == Added(h0, c[..os])
    {
      id, ind := Check(times, o0, os, oAbs, id, ind);
      ia, ina := Check(apoTimes, o0, os, oAbs, ia, ina);
      var v := ApoLoSampleInZones(ftl, atl, o0, lo, element, n, os, id, ia);
      AddSample(hi, h0, c, os, v);
      os, oAbs := os + 1, oAbs + 1;
    }
    assert c[..n - 1] == c;
  }

  /** sub_apo_lines_time: the weighted terms, taken away. */
  method SubApoLinesTime(ftl: FocusTimeLine, atl: ApoTimeLine, o0: nat, hi: array<real>, lo: seq<real>, element: nat, n: nat)
    requires ApoLoInputs(ftl, atl, o0, lo, element, n) && n - 1 <= hi.Length
    modifies hi
    ensures hi[..] == Subtracted(old(hi[..]), ApoContribution(ftl, atl, o0, lo, element, n))
  {
    ghost var h0, c := hi[..], ApoContribution(ftl, atl, o0, lo, element, n);
    var times, apoTimes := DelayTimes(ftl.delay), ApoTimes(atl.a);
    var id, ind := FindFirstSegment(times, o0);
    ScanIsLeast(times, o0, 1, ind);
    var ia, ina := FindFirstSegment(apoTimes, o0);
    ScanIsLeast(apoTimes, o0, 1, ina);
    var os, oAbs := 0, o0;
    assert c[..0] == [];
    SubtractedNothing(h0);
    while os < n - 1
      invariant os <= n - 1 && oAbs == o0 + os
      invariant ind == id + 1 && ind == CursorBefore(times, o0, os)
      invariant ina == ia + 1 && ina == CursorBefore(apoTimes, o0, os)
      invariant hi[..] == Subtracted(h0, c[..os])
    {
      id, ind := Check(times, o0, os, oAbs, id, ind);
      ia, ina := Check(apoTimes, o0, os, oAbs, ia, ina);
      var v := ApoLoSampleInZones(ftl, atl, o0, lo, element, n, os, id, ia);
      SubtractSample(hi, h0, c, os, v);
      os, oAbs := os + 1, oAbs + 1;
    }
    assert c[..n - 1] == c;
  }

  /** Adding a low-resolution line and then subtracting it again leaves the
      high-resolution line as it was. */
  method AddThenSubtract(ftl: FocusTimeLine, atl: ApoTimeLine, o0: nat, hi: array<real>, lo: seq<real>, element: nat, n: nat)
    requires ApoLoInputs(ftl, atl, o0, lo, element, n) && n - 1 <= hi.Length
    modifies hi
    ensures hi[..] == old(hi[..])
  {
    AddApoLinesTime(ftl, atl, o0, hi, lo, element, n);
    SubApoLinesTime(ftl, atl, o0, hi, lo, element, n);
    SubtractUndoesAdd(old(hi[..]), ApoContribution(ftl, atl, o0, lo, element, n));
  }

  /** add/sub (apo) lines_time leave sample n-1 onward untouched, and so
      every sample whose element's compensated index is outside [1, n-2]. */
  lemma AddSubFrame(ftl: FocusTimeLine, atl: ApoTimeLine, o0: int, lo: seq<real>, element: nat, n: nat,
                    h: seq<real>, i: nat)
    requires LineLoInputs(ftl, atl, o0, lo, element, n) && n - 1 <= |h| && i < |h|
    requires i < n - 1 ==> !(1 <= i - DelayZone(ftl, o0, i).d[element] <= n - 2)
    ensures Added(h, LineContribution(ftl, atl, o0, lo, element, n))[i] == h[i]
    ensures Subtracted(h, LineContribution(ftl, atl, o0, lo, element, n))[i] == h[i]
  {
    if i < n - 1 {
      ContributionWindow(ftl, o0, lo, element, n, i);
    }
  }

  // ---------------------------------------------------------------------
  // sum_images, add_images, sub_images
  // ---------------------------------------------------------------------

  /** What sum_images reads when the counts agree: one pair of
      low-resolution lines per focus line, each meeting sum_lines_time's
      requirements. */
  predicate SumImageInputs(flc: seq<FocusTimeLine>, alc: seq<ApoTimeLine>, o0: int,
                           rf1: seq<seq<real>>, e1: nat, rf2: seq<seq<real>>, e2: nat, n: nat)
  {
    CountsAgree(flc, alc) ==>
      && |flc| <= |rf1| && |flc| <= |rf2|
      && forall i :: 0 <= i < |flc| ==> SumInputs(flc[i], alc[i], o0, rf1[i], e1, rf2[i], e2, n)
  }

  /** The image sum_images returns: nothing when the counts differ or are
      zero, otherwise line i is the sum of the two lines i. */
  function SumImage(flc: seq<FocusTimeLine>, alc: seq<ApoTimeLine>, o0: int,
                    rf1: seq<seq<real>>, e1: nat, rf2: seq<seq<real>>, e2: nat, n: nat): (r: Option<seq<seq<real>>>)
    requires SumImageInputs(flc, alc, o0, rf1, e1, rf2, e2, n)
    ensures r.None? <==> !CountsAgree(flc, alc)
    ensures r.Some? ==> |r.value| == |flc| && forall i :: 0 <= i < |flc| ==> |r.value[i]| == n
  {
    if !CountsAgree(flc, alc) then None
    else Some(seq(|flc|, i requires 0 <= i < |flc| => SumLine(flc[i], alc[i], o0, rf1[i], e1, rf2[i], e2, n)))
  }

  /** The intended image sum does not depend on which image is passed first. */
  lemma SumImageSymmetric(flc: seq<FocusTimeLine>, alc: seq<ApoTimeLine>, o0: int,
                          rf1: seq<seq<real>>, e1: nat, rf2: seq<seq<real>>, e2: nat, n: nat)
    requires SumImageInputs(flc, alc, o0, rf1, e1, rf2, e2, n)
    ensures SumImageInputs(flc, alc, o0, rf2, e2, rf1, e1, n)
    ensures SumImage(flc, alc, o0, rf1, e1, rf2, e2, n) == SumImage(flc, alc, o0, rf2, e2, rf1, e1, n)
  {
    if CountsAgree(flc, alc) {
      forall i | 0 <= i < |flc|
        ensures SumInputs(flc[i], alc[i], o0, rf2[i], e2, rf1[i], e1, n)
        ensures SumLine(flc[i], alc[i], o0, rf1[i], e1, rf2[i], e2, n) == SumLine(flc[i], alc[i], o0, rf2[i], e2, rf1[i], e1, n)
      {
        SumLineSymmetric(flc[i], alc[i], o0, rf1[i], e1, rf2[i], e2, n);
      }
      var r, q := SumImage(flc, alc, o0, rf1, e1, rf2, e2, n).value, SumImage(flc, alc, o0, rf2, e2, rf1, e1, n).value;
      assert r == q;
    }
  }

  /** sum_images: the count checks, then one sum_lines_time call per line. */
  method SumImages(flc: seq<FocusTimeLine>, alc: seq<ApoTimeLine>, o0: nat,
                   rf1: seq<seq<real>>, e1: nat, rf2: seq<seq<real>>, e2: nat, n: nat)
    returns (r: Option<seq<array<real>>>)
    requires SumImageInputs(flc, alc, o0, rf1, e1, rf2, e2, n)
    ensures r.None? <==> SumImage(flc, alc, o0, rf1, e1, rf2, e2, n).None?
    ensures r.Some? ==> |r.value| == |flc|
    ensures r.Some? ==> forall i :: 0 <= i < |flc| ==>
      fresh(r.value[i]) && r.value[i][..] == SumImage(flc, alc, o0, rf1, e1, rf2, e2, n).value[i]
  {
    if |flc| != |alc| {
      return None;
    }
    if |flc| == 0 {
      return None;
    }
    var lines: seq<array<real>> := [];
    var lineNo := 0;
    while lineNo < |flc|
      invariant lineNo <= |flc| && |lines| == lineNo
      invariant forall i :: 0 <= i < lineNo ==>
        fresh(lines[i]) && lines[i][..] == SumLine(flc[i], alc[i], o0, rf1[i], e1, rf2[i], e2, n)
    {
      var line := SumLinesTime(flc[lineNo], alc[lineNo], o0, rf1[lineNo], e1, rf2[lineNo], e2, n);
      lines := lines + [line];
      lineNo := lineNo + 1;
    }
    r := Some(lines);
  }

  /** What add_lines_time or add_apo_lines_time, whichever a line goes to,
      requires: the apodized one is called when the line's table is not
      empty. */
  predicate LineLoInputs(ftl: FocusTimeLine, atl: ApoTimeLine, o0: int, lo: seq<real>, element: nat, n: nat)
  {
    LoInputs(ftl, o0, lo, element, n) && (atl.noTimes > 0 ==> ApoCovers(atl, ftl.noElements, o0, n))
  }

  /** The contribution add_images and sub_images fold in for one line: the
      weighted one when the line's apodization table is not empty. */
  function LineContribution(ftl: FocusTimeLine, atl: ApoTimeLine, o0: int, lo: seq<real>, element: nat, n: nat): (c: seq<real>)
    requires LineLoInputs(ftl, atl, o0, lo, element, n)
    ensures |c| == n - 1
  {
    if atl.noTimes > 0 then ApoContribution(ftl, atl, o0, lo, element, n) else Contribution(ftl, o0, lo, element, n)
  }

  /** The per-line dispatch of add_images. */
  method AddLine(ftl: FocusTimeLine, atl: ApoTimeLine, o0: nat, hi: array<real>, lo: seq<real>, element: nat, n: nat)
    requires LineLoInputs(ftl, atl, o0, lo, element, n) && n - 1 <= hi.Length
    modifies hi
    ensures hi[..] == Added(old(hi[..]), LineContribution(ftl, atl, o0, lo, element, n))
  {
    if atl.noTimes > 0 {
      AddApoLinesTime(ftl, atl, o0, hi, lo, element, n);
    } else {
      AddLinesTime(ftl, o0, hi, lo, element, n);
    }
  }

  /** The per-line dispatch of sub_images. */
  method SubLine(ftl: FocusTimeLine, atl: ApoTimeLine, o0: nat, hi: array<real>, lo: seq<real>, element: nat, n: nat)
    requires LineLoInputs(ftl, atl, o0, lo, element, n) && n - 1 <= hi.Length
    modifies hi
    ensures hi[..] == Subtracted(old(hi[..]), LineContribution(ftl, atl, o0, lo, element, n))
  {
    if atl.noTimes > 0 {
      SubApoLinesTime(ftl, atl, o0, hi, lo, element, n);
    } else {
      SubLinesTime(ftl, o0, hi, lo, element, n);
    }
  }

  /** What add_images and sub_images read: the line loops run over the focus
      lines whatever the apodization count is (a mismatch is only reported),
      so every other collection must hold at least that many lines. Each
      line has a high-resolution buffer of its own. */
  predicate ImageLoInputs(flc: seq<FocusTimeLine>, alc: seq<ApoTimeLine>, o0: int,
                          hi: seq<array<real>>, lo: seq<seq<real>>, element: nat, n: nat)
  {
    && |flc| <= |alc| && |flc| <= |hi| && |flc| <= |lo|
    && (forall i :: 0 <= i < |flc| ==> LineLoInputs(flc[i], alc[i], o0, lo[i], element, n) && n - 1 <= hi[i].Length)
    && (forall i, j :: 0 <= i < j < |flc| ==> hi[i] != hi[j])
  }

  /** The contribution of each line of the image. */
  function ImageContributions(flc: seq<FocusTimeLine>, alc: seq<ApoTimeLine>, o0: int,
                              hi: seq<array<real>>, lo: seq<seq<real>>, element: nat, n: nat): (cs: seq<seq<real>>)
    requires ImageLoInputs(flc, alc, o0, hi, lo, element, n)
    ensures |cs| == |flc|
    ensures forall i :: 0 <= i < |flc| ==> cs[i] == LineContribution(flc[i], alc[i], o0, lo[i], element, n)
  {
    seq(|flc|, i requires 0 <= i < |flc| => LineContribution(flc[i], alc[i], o0, lo[i], element, n))
  }

  /** add_images aborts when any line is dynamically or pixel focused. */
  predicate FixedOnly(flc: seq<FocusTimeLine>)
  {
    forall i :: 0 <= i < |flc| ==> !flc[i].dynamic && !flc[i].pixel
  }

  /** add_images: every high-resolution line gets its low-resolution line's
      contribution added, through the apodized routine when the line's table
      is not empty. */
  method AddImages(flc: seq<FocusTimeLine>, alc: seq<ApoTimeLine>, o0: nat,
                   hi: seq<array<real>>, lo: seq<seq<real>>, element: nat, n: nat)
    requires ImageLoInputs(flc, alc, o0, hi, lo, element, n) && FixedOnly(flc)
    modifies set i | 0 <= i < |flc| :: hi[i]
    ensures forall i :: 0 <= i < |flc| ==>
      hi[i][..] == Added(old(hi[i][..]), LineContribution(flc[i], alc[i], o0, lo[i], element, n))
  {
    ghost var cs := ImageContributions(flc, alc, o0, hi, lo, element, n);
    ghost var before := seq(|flc|, i requires 0 <= i < |flc| reads hi => hi[i][..]);
    var lineNo := 0;
    while lineNo < |flc|
      invariant lineNo <= |flc|
      invariant forall i :: 0 <= i < lineNo ==> hi[i][..] == Added(before[i], cs[i])
      invariant forall i :: lineNo <= i < |flc| ==> hi[i][..] == before[i]
    {
      label Step:
      AddLine(flc[lineNo], alc[lineNo], o0, hi[lineNo], lo[lineNo], element, n);
      forall i | 0 <= i < |flc| && i != lineNo
        ensures hi[i][..] == old@Step(hi[i][..])
      {
        assert hi[i] != hi[lineNo];
      }
      lineNo := lineNo + 1;
    }
  }

  /** sub_images: the same contributions taken away; it makes no check of
      the focusing mode. */
  method SubImages(flc: seq<FocusTimeLine>, alc: seq<ApoTimeLine>, o0: nat,
                   hi: seq<array<real>>, lo: seq<seq<real>>, element: nat, n: nat)
    requires ImageLoInputs(flc, alc, o0, hi, lo, element, n)
    modifies set i | 0 <= i < |flc| :: hi[i]
    ensures forall i :: 0 <= i < |flc| ==>
      hi[i][..] == Subtracted(old(hi[i][..]), LineContribution(flc[i], alc[i], o0, lo[i], element, n))
  {
    ghost var cs := ImageContributions(flc, alc, o0, hi, lo, element, n);
    ghost var before := seq(|flc|, i requires 0 <= i < |flc| reads hi => hi[i][..]);
    var lineNo := 0;
    while lineNo < |flc|
      invariant lineNo <= |flc|
      invariant forall i :: 0 <= i < lineNo ==> hi[i][..] == Subtracted(before[i], cs[i])
      invariant forall i :: lineNo <= i < |flc| ==> hi[i][..] == before[i]
    {
      label Step:
      SubLine(flc[lineNo], alc[lineNo], o0, hi[lineNo], lo[lineNo], element, n);
      forall i | 0 <= i < |flc| && i != lineNo
        ensures hi[i][..] == old@Step(hi[i][..])
      {
        assert hi[i] != hi[lineNo];
      }
      lineNo := lineNo + 1;
    }
  }

  /** Adding a low-resolution image and then subtracting it again leaves
      every high-resolution line as it was. */
  method AddThenSubtractImage(flc: seq<FocusTimeLine>, alc: seq<ApoTimeLine>, o0: nat,
                              hi: seq<array<real>>, lo: seq<seq<real>>, element: nat, n: nat)
    requires ImageLoInputs(flc, alc, o0, hi, lo, element, n) && FixedOnly(flc)
    modifies set i | 0 <= i < |flc| :: hi[i]
    ensures forall i :: 0 <= i < |flc| ==> hi[i][..] == old(hi[i][..])
  {
    AddImages(flc, alc, o0, hi, lo, element, n);
    SubImages(flc, alc, o0, hi, lo, element, n);
    forall i | 0 <= i < |flc|
      ensures hi[i][..] == old(hi[i][..])
    {
      SubtractUndoesAdd(old(hi[i][..]), LineContribution(flc[i], alc[i], o0, lo[i], element, n));
    }
  }
}
