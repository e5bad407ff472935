/** Focus and apodization time lines as the fixed-focus routines of
    beamform.c read them: zones of per-element delays, interpolation
    fractions and weights, each valid from an absolute sample index on,
    stored in time order and closed by a sentinel zone. */
module Schedules {

  datatype Option<T> = None | Some(value: T)

  /** One delay zone: from absolute sample `time` on, element `ic` is delayed
      by `d[ic]` samples and interpolated with fraction `a[ic]`. */
  datatype DelaySegment = DelaySegment(time: int, d: seq<int>, a: seq<real>)

  /** One apodization zone: from absolute sample `time` on, element `ic` is
      weighted by `a[ic]`. */
  datatype ApoSegment = ApoSegment(time: int, a: seq<real>)

  /** A focus time line: `noTimes` zones in `delay` (the table also holds the
      sentinel after them), the focusing-mode flags and the number of elements
      of the associated transducer. */
  datatype FocusTimeLine = FocusTimeLine(
    noTimes: nat,
    delay: seq<DelaySegment>,
    dynamic: bool,
    pixel: bool,
    noElements: nat)

  /** An apodization time line: `noTimes == 0` means "no apodization". */
  datatype ApoTimeLine = ApoTimeLine(noTimes: nat, a: seq<ApoSegment>)

  function DelayTimes(segs: seq<DelaySegment>): seq<int>
  {
    seq(|segs|, i requires 0 <= i < |segs| => segs[i].time)
  }

  function ApoTimes(segs: seq<ApoSegment>): seq<int>
  {
    seq(|segs|, i requires 0 <= i < |segs| => segs[i].time)
  }

  /** The table ends in a sentinel zone that starts at or after absolute
      sample `last`, and the cursor's first look-ahead entry exists. */
  predicate HasSentinel(times: seq<int>, last: int)
  {
    |times| >= 2 && times[|times| - 1] >= last
  }

  /** Zones start at strictly increasing absolute samples. */
  predicate StrictlyIncreasing(times: seq<int>)
  {
    forall i, j :: 0 <= i < j < |times| ==> times[i] < times[j]
  }

  /** The delay table covers output samples o0 .. o0+n-1 and every zone holds
      a delay and a fraction for each element. */
  predicate FocusCovers(ftl: FocusTimeLine, o0: int, n: nat)
  {
    && HasSentinel(DelayTimes(ftl.delay), o0 + n)
    && forall s :: 0 <= s < |ftl.delay| ==>
         ftl.noElements <= |ftl.delay[s].d| && ftl.noElements <= |ftl.delay[s].a|
  }

  /** The apodization table covers output samples o0 .. o0+n-1 and every zone
      holds a weight for each of `noElements` elements. */
  predicate ApoCovers(atl: ApoTimeLine, noElements: nat, o0: int, n: nat)
  {
    && HasSentinel(ApoTimes(atl.a), o0 + n)
    && forall s :: 0 <= s < |atl.a| ==> noElements <= |atl.a[s].a|
  }

  /** Receive data laid out rf[element][sample]: a row of at least `n`
      samples for each of `noElements` elements. */
  predicate RfCovers(rf: seq<seq<real>>, noElements: nat, n: nat)
  {
    noElements <= |rf| && forall ic :: 0 <= ic < noElements ==> n <= |rf[ic]|
  }

  /** The collections' check made by beamform_image and sum_images: as many
      apodization time lines as focus time lines, and at least one line. */
  predicate CountsAgree(flc: seq<FocusTimeLine>, alc: seq<ApoTimeLine>)
  {
    |flc| == |alc| && |flc| > 0
  }
}
