/** Fixed-focus line beamforming (beamform_line_times and
    beamform_apo_line_times) and in-place apodization (apodize_fix).
    Samples are reals; `o0` is the absolute index of the first output
    sample, the truncated product of the start time and the sampling
    frequency. */
module FixedFocus {
  import opened Schedules
  import opened Cursor

  /** Linear interpolation between input samples `is1` and `is1 - 1`. */
  function Interp(row: seq<real>, is1: int, frac: real): real
    requires 1 <= is1 < |row|
  {
    row[is1] * (1.0 - frac) + row[is1 - 1] * frac
  }

  /** The delay zone in use at output sample `os`. */
  function DelayZone(ftl: FocusTimeLine, o0: int, os: nat): DelaySegment
    requires HasSentinel(DelayTimes(ftl.delay), o0 + os)
  {
    ftl.delay[CursorAt(DelayTimes(ftl.delay), o0, os) - 1]
  }

  /** The apodization zone in use at output sample `os`. */
  function ApoZone(atl: ApoTimeLine, o0: int, os: nat): ApoSegment
    requires HasSentinel(ApoTimes(atl.a), o0 + os)
  {
    atl.a[CursorAt(ApoTimes(atl.a), o0, os) - 1]
  }

  /** What one element adds to output sample `os` of beamform_line_times:
      the raw first sample when the delay-compensated index is 0, the
      interpolated sample when it lies in [1, n-2], and nothing otherwise. */
  function PlainTerm(row: seq<real>, delay: int, frac: real, os: nat, n: nat): real
    requires os < n <= |row|
  {
    var is1 := os - delay;
    if is1 == 0 then row[0]
    else if 1 <= is1 <= n - 2 then Interp(row, is1, frac)
    else 0.0
  }

  /** What one element adds to output sample `os` of beamform_apo_line_times:
      the weighted interpolated sample when the delay-compensated index lies
      in [1, n-1], and nothing otherwise. */
  function ApoTerm(row: seq<real>, delay: int, frac: real, weight: real, os: nat, n: nat): real
    requires os < n <= |row|
  {
    var is1 := os - delay;
    if 1 <= is1 <= n - 1 then Interp(row, is1, frac) * weight else 0.0
  }

  /** Sum of the plain terms of elements 0 .. k-1, in element order. */
  function PlainSum(zone: DelaySegment, rf: seq<seq<real>>, os: nat, n: nat, k: nat): real
    requires k <= |zone.d| && k <= |zone.a| && RfCovers(rf, k, n) && os < n
  {
    if k == 0 then 0.0
    else PlainSum(zone, rf, os, n, k - 1) + PlainTerm(rf[k - 1], zone.d[k - 1], zone.a[k - 1], os, n)
  }

  /** Sum of the apodized terms of elements 0 .. k-1, in element order. */
  function ApoSum(zone: DelaySegment, weights: ApoSegment, rf: seq<seq<real>>, os: nat, n: nat, k: nat): real
    requires k <= |zone.d| && k <= |zone.a| && k <= |weights.a| && RfCovers(rf, k, n) && os < n
  {
    if k == 0 then 0.0
    else ApoSum(zone, weights, rf, os, n, k - 1)
         + ApoTerm(rf[k - 1], zone.d[k - 1], zone.a[k - 1], weights.a[k - 1], os, n)
  }

  /** Everything beamform_line_times reads is there. */
  predicate LineInputs(ftl: FocusTimeLine, o0: int, rf: seq<seq<real>>, n: nat)
  {
    FocusCovers(ftl, o0, n) && RfCovers(rf, ftl.noElements, n)
  }

  /** Everything beamform_apo_line_times reads is there; a non-empty
      apodization table needs at least one output sample, because the
      routine writes sample n-1 unconditionally. */
  predicate ApoLineInputs(ftl: FocusTimeLine, atl: ApoTimeLine, o0: int, rf: seq<seq<real>>, n: nat)
  {
    && LineInputs(ftl, o0, rf, n)
    && (atl.noTimes > 0 ==> 1 <= n && ApoCovers(atl, ftl.noElements, o0, n))
  }

  function LineSample(ftl: FocusTimeLine, o0: int, rf: seq<seq<real>>, n: nat, os: nat): real
    requires LineInputs(ftl, o0, rf, n) && os < n
  {
    PlainSum(DelayZone(ftl, o0, os), rf, os, n, ftl.noElements)
  }

  function ApoLineSample(ftl: FocusTimeLine, atl: ApoTimeLine, o0: int, rf: seq<seq<real>>, n: nat, os: nat): real
    requires LineInputs(ftl, o0, rf, n) && ApoCovers(atl, ftl.noElements, o0, n) && os < n
  {
    ApoSum(DelayZone(ftl, o0, os), ApoZone(atl, o0, os), rf, os, n, ftl.noElements)
  }

  /** The line beamform_line_times returns. */
  function LineTimes(ftl: FocusTimeLine, o0: int, rf: seq<seq<real>>, n: nat): (r: seq<real>)
    requires LineInputs(ftl, o0, rf, n)
    ensures |r| == n
  {
    seq(n, os requires 0 <= os < n => LineSample(ftl, o0, rf, n, os))
  }

  /** The line beamform_apo_line_times returns: the plain line when the
      apodization table is empty, otherwise apodized samples with the last
      one set to 0. */
  function ApoLineTimes(ftl: FocusTimeLine, atl: ApoTimeLine, o0: int, rf: seq<seq<real>>, n: nat): (r: seq<real>)
    requires ApoLineInputs(ftl, atl, o0, rf, n)
    ensures |r| == n
    ensures atl.noTimes > 0 ==> r[n - 1] == 0.0
  {
    if atl.noTimes == 0 then LineTimes(ftl, o0, rf, n)
    else seq(n, os requires 0 <= os < n => if os == n - 1 then 0.0 else ApoLineSample(ftl, atl, o0, rf, n, os))
  }

  /** The element loop of beamform_line_times run in the zone the cursor
      stands in after the check for output sample `os`. */
  method PlainSampleInZone(ftl: FocusTimeLine, o0: int, rf: seq<seq<real>>, n: nat, os: nat, id: nat)
    returns (v: real)
    requires LineInputs(ftl, o0, rf, n) && os < n
    requires id + 1 == CursorAt(DelayTimes(ftl.delay), o0, os)
    ensures v == LineSample(ftl, o0, rf, n, os)
  {
    v := PlainSampleSum(ftl.delay[id], rf, os, n, ftl.noElements);
  }

  /** The element loop of beamform_apo_line_times run in the zones the two
      cursors stand in after the check for output sample `os`. */
  method ApoSampleInZones(ftl: FocusTimeLine, atl: ApoTimeLine, o0: int, rf: seq<seq<real>>, n: nat, os: nat, id: nat, ia: nat)
    returns (v: real)
    requires LineInputs(ftl, o0, rf, n) && ApoCovers(atl, ftl.noElements, o0, n) && os < n
    requires id + 1 == CursorAt(DelayTimes(ftl.delay), o0, os)
    requires ia + 1 == CursorAt(ApoTimes(atl.a), o0, os)
    ensures v == ApoLineSample(ftl, atl, o0, rf, n, os)
  {
    v := ApoSampleSum(ftl.delay[id], atl.a[ia], rf, os, n, ftl.noElements);
  }

  /** The element loop of beamform_line_times for one output sample. */
  method PlainSampleSum(zone: DelaySegment, rf: seq<seq<real>>, os: nat, n: nat, noElements: nat) returns (acc: real)
    requires noElements <= |zone.d| && noElements <= |zone.a| && RfCovers(rf, noElements, n) && os < n
    ensures acc == PlainSum(zone, rf, os, n, noElements)
  {
    acc := 0.0;
    var ic := 0;
    while ic < noElements
      invariant ic <= noElements
      invariant acc == PlainSum(zone, rf, os, n, ic)
    {
      var is1 := os - zone.d[ic];
      if is1 == 0 {
        acc := acc + rf[ic][is1];
      } else if 1 <= is1 <= n - 2 {
        var A := zone.a[ic];
        acc := acc + (rf[ic][is1] * (1.0 - A) + rf[ic][is1 - 1] * A);
      }
      assert PlainSum(zone, rf, os, n, ic + 1) == PlainSum(zone, rf, os, n, ic) + PlainTerm(rf[ic], zone.d[ic], zone.a[ic], os, n);
      ic := ic + 1;
    }
  }

  /** The element loop of beamform_apo_line_times for one output sample. */
  method ApoSampleSum(zone: DelaySegment, weights: ApoSegment, rf: seq<seq<real>>, os: nat, n: nat, noElements: nat)
    returns (acc: real)
    requires noElements <= |zone.d| && noElements <= |zone.a| && noElements <= |weights.a|
    requires RfCovers(rf, noElements, n) && os < n
    ensures acc == ApoSum(zone, weights, rf, os, n, noElements)
  {
    acc := 0.0;
    var ic := 0;
    while ic < noElements
      invariant ic <= noElements
      invariant acc == ApoSum(zone, weights, rf, os, n, ic)
    {
      var is1 := os - zone.d[ic];
      if 1 <= is1 <= n - 1 {
        var A := zone.a[ic];
        var d := rf[ic][is1] * (1.0 - A) + rf[ic][is1 - 1] * A;
        acc := acc + d * weights.a[ic];
      }
      assert ApoSum(zone, weights, rf, os, n, ic + 1)
          == ApoSum(zone, weights, rf, os, n, ic) + ApoTerm(rf[ic], zone.d[ic], zone.a[ic], weights.a[ic], os, n);
      ic := ic + 1;
    }
  }

  /** beamform_line_times: a fresh line filled one output sample at a time
      while the delay cursor advances. */
  method BeamformLineTimes(ftl: FocusTimeLine, o0: nat, rf: seq<seq<real>>, n: nat) returns (bfLine: array<real>)
    requires LineInputs(ftl, o0, rf, n)
    ensures fresh(bfLine)
    ensures bfLine[..] == LineTimes(ftl, o0, rf, n)
  {
    bfLine := new real[n];
    var times := DelayTimes(ftl.delay);
    var id, ind := FindFirstSegment(times, o0);
    ScanIsLeast(times, o0, 1, ind);
    var os, oAbs := 0, o0;
    while os < n
      invariant os <= n && oAbs == o0 + os
      invariant ind == id + 1
      invariant ind == CursorBefore(times, o0, os)
      invariant forall k :: 0 <= k < os ==> bfLine[k] == LineSample(ftl, o0, rf, n, k)
    {
      id, ind := Check(times, o0, os, oAbs, id, ind);
      var v := PlainSampleInZone(ftl, o0, rf, n, os, id);
      bfLine[os] := v;
      os, oAbs := os + 1, oAbs + 1;
    }
    assert bfLine[..] == LineTimes(ftl, o0, rf, n);
  }

  /** beamform_apo_line_times: delegates to beamform_line_times when the
      apodization table is empty; otherwise a fresh line whose last sample is
      0, both cursors advancing together. */
  method BeamformApoLineTimes(ftl: FocusTimeLine, atl: ApoTimeLine, o0: nat, rf: seq<seq<real>>, n: nat)
    returns (bfLine: array<real>)
    requires ApoLineInputs(ftl, atl, o0, rf, n)
    ensures fresh(bfLine)
    ensures bfLine[..] == ApoLineTimes(ftl, atl, o0, rf, n)
  {
    if atl.noTimes == 0 {
      bfLine := BeamformLineTimes(ftl, o0, rf, n);
      return;
    }
    bfLine := new real[n];
    FillApodized(ftl, atl, o0, rf, n, bfLine);
    assert bfLine[..] == ApoLineTimes(ftl, atl, o0, rf, n);
  }

  /** The apodized branch of beamform_apo_line_times: sample n-1 is set to
      0 and samples 0 .. n-2 are computed with the delay and apodization
      cursors advancing together. */
  method FillApodized(ftl: FocusTimeLine, atl: ApoTimeLine, o0: nat, rf: seq<seq<real>>, n: nat, bfLine: array<real>)
    requires LineInputs(ftl, o0, rf, n) && ApoCovers(atl, ftl.noElements, o0, n)
    requires 1 <= n == bfLine.Length
    modifies bfLine
    ensures bfLine[n - 1] == 0.0
    ensures forall k :: 0 <= k < n - 1 ==> bfLine[k] == ApoLineSample(ftl, atl, o0, rf, n, k)
  {
    var times, apoTimes := DelayTimes(ftl.delay), ApoTimes(atl.a);
    var id, ind := FindFirstSegment(times, o0);
    ScanIsLeast(times, o0, 1, ind);
    var ia, ina := FindFirstSegment(apoTimes, o0);
    ScanIsLeast(apoTimes, o0, 1, ina);
    var m := n - 1;
    bfLine[m] := 0.0;
    var os, oAbs := 0, o0;
    while os < m
      invariant os <= m && oAbs == o0 + os
      invariant ind == id + 1 && ina == ia + 1
      invariant ind == CursorBefore(times, o0, os)
      invariant ina == CursorBefore(apoTimes, o0, os)
      invariant bfLine[m] == 0.0
      invariant forall k :: 0 <= k < os ==> bfLine[k] == ApoLineSample(ftl, atl, o0, rf, n, k)
    {
      id, ind := Check(times, o0, os, oAbs, id, ind);
      ia, ina := Check(apoTimes, o0, os, oAbs, ia, ina);
      var v := ApoSampleInZones(ftl, atl, o0, rf, n, os, id, ia);
      bfLine[os] := v;
      os, oAbs := os + 1, oAbs + 1;
    }
  }

  /** apodize_fix: with exactly one apodization zone, every sample
      rf[s, ic] with s < noSamples and ic < noChannels is multiplied by
      that zone's weight for channel ic, in place (layout rf[sample, channel]);
      with any other number of zones nothing changes. */
  method ApodizeFix(atl: ApoTimeLine, rf: array2<real>, noSamples: nat, noChannels: nat) returns (r: array2<real>)
    requires noSamples <= rf.Length0 && noChannels <= rf.Length1
    requires atl.noTimes == 1 ==> 1 <= |atl.a| && noChannels <= |atl.a[0].a|
    modifies rf
    ensures r == rf
    ensures forall s, ic :: 0 <= s < rf.Length0 && 0 <= ic < rf.Length1 ==>
      rf[s, ic] == if atl.noTimes == 1 && s < noSamples && ic < noChannels
                    then old(rf[s, ic]) * atl.a[0].a[ic]
                    else old(rf[s, ic])
  {
    r := rf;
    if atl.noTimes != 1 {
      return;
    }
    var a := atl.a[0].a;
    var s := 0;
    while s < noSamples
      invariant s <= noSamples
      invariant forall i, j :: 0 <= i < rf.Length0 && 0 <= j < rf.Length1 ==>
        rf[i, j] == if i < s && j < noChannels then old(rf[i, j]) * a[j] else old(rf[i, j])
    {
      var ic := 0;
      while ic < noChannels
        invariant ic <= noChannels
        invariant forall i, j :: 0 <= i < rf.Length0 && 0 <= j < rf.Length1 ==>
          rf[i, j] == if (i < s && j < noChannels) || (i == s && j < ic) then old(rf[i, j]) * a[j] else old(rf[i, j])
      {
        rf[s, ic] := rf[s, ic] * a[ic];
        ic := ic + 1;
      }
      s := s + 1;
    }
  }

  /** With strictly increasing zone starts every sample of the line is the
      element sum in the zone that a fresh search for its absolute sample
      finds: the one-step-per-sample cursor never lags behind. */
  lemma LineUsesLatestZone(ftl: FocusTimeLine, o0: int, rf: seq<seq<real>>, n: nat, os: nat)
    requires LineInputs(ftl, o0, rf, n) && StrictlyIncreasing(DelayTimes(ftl.delay)) && os < n
    ensures LineTimes(ftl, o0, rf, n)[os]
         == PlainSum(ftl.delay[Scan(DelayTimes(ftl.delay), o0 + os, 1) - 1], rf, os, n, ftl.noElements)
  {
    CursorIsLookup(DelayTimes(ftl.delay), o0, os);
  }

  /** The apodized routine's sample agrees with the plain routine's when the
      weights are 1 and no element's compensated index is 0 or n-1, the two
      indexes where their windows differ. */
  predicate WindowsAgree(zone: DelaySegment, weights: ApoSegment, os: nat, n: nat, k: nat)
    requires k <= |zone.d| && k <= |weights.a|
  {
    forall i :: 0 <= i < k ==> weights.a[i] == 1.0 && os - zone.d[i] != 0 && os - zone.d[i] != n - 1
  }

  lemma {:induction false} UnitWeightSumMatchesPlain(zone: DelaySegment, weights: ApoSegment, rf: seq<seq<real>>, os: nat, n: nat, k: nat)
    requires k <= |zone.d| && k <= |zone.a| && k <= |weights.a| && RfCovers(rf, k, n) && os < n
    requires WindowsAgree(zone, weights, os, n, k)
    ensures ApoSum(zone, weights, rf, os, n, k) == PlainSum(zone, rf, os, n, k)
    decreases k
  {
    if k > 0 {
      UnitWeightSumMatchesPlain(zone, weights, rf, os, n, k - 1);
    }
  }

  /** Unit apodization leaves a sample before the last one as the plain
      routine computes it, as long as no element hits the edge indexes. */
  lemma UnitApodizationMatchesPlain(ftl: FocusTimeLine, atl: ApoTimeLine, o0: int, rf: seq<seq<real>>, n: nat, os: nat)
    requires ApoLineInputs(ftl, atl, o0, rf, n) && atl.noTimes > 0 && os < n - 1
    requires WindowsAgree(DelayZone(ftl, o0, os), ApoZone(atl, o0, os), os, n, ftl.noElements)
    ensures ApoLineTimes(ftl, atl, o0, rf, n)[os] == LineTimes(ftl, o0, rf, n)[os]
  {
    UnitWeightSumMatchesPlain(DelayZone(ftl, o0, os), ApoZone(atl, o0, os), rf, os, n, ftl.noElements);
  }

  /** Two data sets with rows of the same lengths. */
  predicate SameShape(x: seq<seq<real>>, y: seq<seq<real>>)
  {
    |x| == |y| && forall i :: 0 <= i < |x| ==> |x[i]| == |y[i]|
  }

  /** Sample-by-sample sum of two data sets of the same shape. */
  function RfSum(x: seq<seq<real>>, y: seq<seq<real>>): (z: seq<seq<real>>)
    requires SameShape(x, y)
    ensures SameShape(x, z)
  {
    seq(|x|, i requires 0 <= i < |x| => seq(|x[i]|, j requires 0 <= j < |x[i]| => x[i][j] + y[i][j]))
  }

  /** Rows whose samples are the sums of two rows' samples. */
  predicate RowSum(z: seq<real>, x: seq<real>, y: seq<real>)
  {
    |z| == |x| == |y| && forall j :: 0 <= j < |z| ==> z[j] == x[j] + y[j]
  }

  lemma PlainTermAdditive(z: seq<real>, x: seq<real>, y: seq<real>, delay: int, frac: real, os: nat, n: nat)
    requires RowSum(z, x, y) && os < n <= |x|
    ensures PlainTerm(z, delay, frac, os, n) == PlainTerm(x, delay, frac, os, n) + PlainTerm(y, delay, frac, os, n)
  {
    var is1 := os - delay;
    if 1 <= is1 <= n - 2 {
      assert z[is1] == x[is1] + y[is1] && z[is1 - 1] == x[is1 - 1] + y[is1 - 1];
    }
  }

  lemma ApoTermAdditive(z: seq<real>, x: seq<real>, y: seq<real>, delay: int, frac: real, weight: real, os: nat, n: nat)
    requires RowSum(z, x, y) && os < n <= |x|
    ensures ApoTerm(z, delay, frac, weight, os, n)
         == ApoTerm(x, delay, frac, weight, os, n) + ApoTerm(y, delay, frac, weight, os, n)
  {
    var is1 := os - delay;
    if 1 <= is1 <= n - 1 {
      assert z[is1] == x[is1] + y[is1] && z[is1 - 1] == x[is1 - 1] + y[is1 - 1];
      assert Interp(z, is1, frac) == Interp(x, is1, frac) + Interp(y, is1, frac);
    }
  }

  lemma {:induction false} PlainSumAdditive(zone: DelaySegment, x: seq<seq<real>>, y: seq<seq<real>>, os: nat, n: nat, k: nat)
    requires k <= |zone.d| && k <= |zone.a| && RfCovers(x, k, n) && SameShape(x, y) && os < n
    ensures RfCovers(y, k, n) && RfCovers(RfSum(x, y), k, n)
    ensures PlainSum(zone, RfSum(x, y), os, n, k) == PlainSum(zone, x, os, n, k) + PlainSum(zone, y, os, n, k)
    decreases k
  {
    if k > 0 {
      PlainSumAdditive(zone, x, y, os, n, k - 1);
      PlainTermAdditive(RfSum(x, y)[k - 1], x[k - 1], y[k - 1], zone.d[k - 1], zone.a[k - 1], os, n);
    }
  }

  lemma {:induction false} ApoSumAdditive(zone: DelaySegment, weights: ApoSegment, x: seq<seq<real>>, y: seq<seq<real>>, os: nat, n: nat, k: nat)
    requires k <= |zone.d| && k <= |zone.a| && k <= |weights.a| && RfCovers(x, k, n) && SameShape(x, y) && os < n
    ensures RfCovers(y, k, n) && RfCovers(RfSum(x, y), k, n)
    ensures ApoSum(zone, weights, RfSum(x, y), os, n, k)
         == ApoSum(zone, weights, x, os, n, k) + ApoSum(zone, weights, y, os, n, k)
    decreases k
  {
    if k > 0 {
      ApoSumAdditive(zone, weights, x, y, os, n, k - 1);
      ApoTermAdditive(RfSum(x, y)[k - 1], x[k - 1], y[k - 1], zone.d[k - 1], zone.a[k - 1], weights.a[k - 1], os, n);
    }
  }

  /** Delay-and-sum is linear in the received data: beamforming the sum of
      two data sets gives the sum of the two beamformed lines. */
  lemma LineTimesAdditive(ftl: FocusTimeLine, o0: int, x: seq<seq<real>>, y: seq<seq<real>>, n: nat, os: nat)
    requires LineInputs(ftl, o0, x, n) && SameShape(x, y) && os < n
    ensures LineInputs(ftl, o0, y, n) && LineInputs(ftl, o0, RfSum(x, y), n)
    ensures LineTimes(ftl, o0, RfSum(x, y), n)[os] == LineTimes(ftl, o0, x, n)[os] + LineTimes(ftl, o0, y, n)[os]
  {
    PlainSumAdditive(DelayZone(ftl, o0, os), x, y, os, n, ftl.noElements);
  }

  lemma ApoLineTimesAdditive(ftl: FocusTimeLine, atl: ApoTimeLine, o0: int, x: seq<seq<real>>, y: seq<seq<real>>, n: nat, os: nat)
    requires ApoLineInputs(ftl, atl, o0, x, n) && SameShape(x, y) && os < n
    ensures ApoLineInputs(ftl, atl, o0, y, n) && ApoLineInputs(ftl, atl, o0, RfSum(x, y), n)
    ensures ApoLineTimes(ftl, atl, o0, RfSum(x, y), n)[os]
         == ApoLineTimes(ftl, atl, o0, x, n)[os] + ApoLineTimes(ftl, atl, o0, y, n)[os]
  {
    PlainSumAdditive(DelayZone(ftl, o0, os), x, y, os, n, ftl.noElements);
    if atl.noTimes > 0 {
      ApoSumAdditive(DelayZone(ftl, o0, os), ApoZone(atl, o0, os), x, y, os, n, ftl.noElements);
    }
  }

  /** One element with no delay and no interpolation: the plain routine
      passes the received row through, except that its last sample falls
      outside the window [0, n-2] and is 0 (unless it is also the first). */
  lemma ZeroDelayPassesRowThrough(ftl: FocusTimeLine, o0: int, rf: seq<seq<real>>, n: nat, os: nat)
    requires LineInputs(ftl, o0, rf, n) && ftl.noElements == 1 && os < n
    requires forall s :: 0 <= s < |ftl.delay| ==> ftl.delay[s].d[0] == 0 && ftl.delay[s].a[0] == 0.0
    ensures LineTimes(ftl, o0, rf, n)[os] == if os == 0 || os < n - 1 then rf[0][os] else 0.0
  {
    var zone := DelayZone(ftl, o0, os);
    assert zone.d[0] == 0 && zone.a[0] == 0.0;
    assert PlainSum(zone, rf, os, n, 1) == PlainTerm(rf[0], 0, 0.0, os, n);
    if 1 <= os <= n - 2 {
      assert Interp(rf[0], os, 0.0) == rf[0][os];
    }
  }

  /** One element delayed by one sample, three samples, the row [1, 2, 3],
      a single zone with fraction 0 and unit weight. */
  function ExampleFocus(): FocusTimeLine
  {
    FocusTimeLine(1, [DelaySegment(0, [1], [0.0]), DelaySegment(3, [1], [0.0])], false, false, 1)
  }

  function ExampleApo(): ApoTimeLine
  {
    ApoTimeLine(1, [ApoSegment(0, [1.0]), ApoSegment(3, [1.0])])
  }

  /** The plain routine does not clear its last sample: the example line
      is [0, 1, 2]. */
  lemma PlainLastSampleExample()
    ensures LineInputs(ExampleFocus(), 0, [[1.0, 2.0, 3.0]], 3)
    ensures LineTimes(ExampleFocus(), 0, [[1.0, 2.0, 3.0]], 3) == [0.0, 1.0, 2.0]
  {
    var ftl, rf := ExampleFocus(), [[1.0, 2.0, 3.0]];
    assert DelayTimes(ftl.delay) == [0, 3];
    forall os | 0 <= os < 3
      ensures DelayZone(ftl, 0, os) == ftl.delay[0]
    {
      CursorMonotone(DelayTimes(ftl.delay), 0, os, 2);
    }
    var line := LineTimes(ftl, 0, rf, 3);
    assert line[0] == PlainTerm(rf[0], 1, 0.0, 0, 3) == 0.0;
    assert line[1] == PlainTerm(rf[0], 1, 0.0, 1, 3) == 1.0;
    assert line[2] == PlainTerm(rf[0], 1, 0.0, 2, 3) == 2.0;
  }

  /** The apodized routine on the same input: index 0 is outside its window
      and the last sample is cleared, so the line is [0, 0, 0]. */
  lemma ApoLastSampleExample()
    ensures ApoLineInputs(ExampleFocus(), ExampleApo(), 0, [[1.0, 2.0, 3.0]], 3)
    ensures ApoLineTimes(ExampleFocus(), ExampleApo(), 0, [[1.0, 2.0, 3.0]], 3) == [0.0, 0.0, 0.0]
  {
    var ftl, atl, rf := ExampleFocus(), ExampleApo(), [[1.0, 2.0, 3.0]];
    assert DelayTimes(ftl.delay) == [0, 3] && ApoTimes(atl.a) == [0, 3];
    forall os | 0 <= os < 2
      ensures DelayZone(ftl, 0, os) == ftl.delay[0] && ApoZone(atl, 0, os) == atl.a[0]
    {
      CursorMonotone(DelayTimes(ftl.delay), 0, os, 2);
      CursorMonotone(ApoTimes(atl.a), 0, os, 2);
    }
    var line := ApoLineTimes(ftl, atl, 0, rf, 3);
    assert line[0] == ApoTerm(rf[0], 1, 0.0, 1.0, 0, 3) == 0.0;
    assert line[1] == ApoTerm(rf[0], 1, 0.0, 1.0, 1, 3) == 0.0;
  }

  /** Two elements with zero delays and fractions, four samples, the rows
      [1, 2, 3, 4] and [5, 6, 7, 8], unit weights. */
  function PairFocus(): FocusTimeLine
  {
    FocusTimeLine(1, [DelaySegment(0, [0, 0], [0.0, 0.0]), DelaySegment(4, [0, 0], [0.0, 0.0])], false, false, 2)
  }

  function PairApo(): ApoTimeLine
  {
    ApoTimeLine(1, [ApoSegment(0, [1.0, 1.0]), ApoSegment(4, [1.0, 1.0])])
  }

  function PairRf(): seq<seq<real>>
  {
    [[1.0, 2.0, 3.0, 4.0], [5.0, 6.0, 7.0, 8.0]]
  }

  /** The plain routine sums the rows sample by sample, and index n-1 is
      outside its window: [6, 8, 10, 0]. */
  lemma PairPlainExample()
    ensures LineInputs(PairFocus(), 0, PairRf(), 4)
    ensures LineTimes(PairFocus(), 0, PairRf(), 4) == [6.0, 8.0, 10.0, 0.0]
  {
    var ftl, rf := PairFocus(), PairRf();
    assert DelayTimes(ftl.delay) == [0, 4];
    var line := LineTimes(ftl, 0, rf, 4);
    forall os | 0 <= os < 4
      ensures line[os] == PlainTerm(rf[0], 0, 0.0, os, 4) + PlainTerm(rf[1], 0, 0.0, os, 4)
    {
      assert DelayZone(ftl, 0, os) == ftl.delay[0];
      assert line[os] == PlainSum(ftl.delay[0], rf, os, 4, 2);
      assert PlainSum(ftl.delay[0], rf, os, 4, 1) == PlainTerm(rf[0], 0, 0.0, os, 4);
    }
    assert Interp(rf[0], 1, 0.0) == 2.0 && Interp(rf[1], 1, 0.0) == 6.0;
    assert Interp(rf[0], 2, 0.0) == 3.0 && Interp(rf[1], 2, 0.0) == 7.0;
  }

  /** The apodized routine has no raw-sample case at index 0 and clears the
      last sample: [0, 8, 10, 0]. */
  lemma PairApoExample()
    ensures ApoLineInputs(PairFocus(), PairApo(), 0, PairRf(), 4)
    ensures ApoLineTimes(PairFocus(), PairApo(), 0, PairRf(), 4) == [0.0, 8.0, 10.0, 0.0]
  {
    var ftl, atl, rf := PairFocus(), PairApo(), PairRf();
    assert DelayTimes(ftl.delay) == [0, 4] && ApoTimes(atl.a) == [0, 4];
    var line := ApoLineTimes(ftl, atl, 0, rf, 4);
    forall os | 0 <= os < 3
      ensures line[os] == ApoTerm(rf[0], 0, 0.0, 1.0, os, 4) + ApoTerm(rf[1], 0, 0.0, 1.0, os, 4)
    {
      assert DelayZone(ftl, 0, os) == ftl.delay[0] && ApoZone(atl, 0, os) == atl.a[0];
    }
    assert Interp(rf[0], 1, 0.0) == 2.0 && Interp(rf[1], 1, 0.0) == 6.0;
    assert Interp(rf[0], 2, 0.0) == 3.0 && Interp(rf[1], 2, 0.0) == 7.0;
  }
}
