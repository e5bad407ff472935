/** beamform_image: the collections' check, the choice of line routine for
    every line, and the lines computed one after the other. With several
    lines the routine runs one thread per line, each writing only its own
    slot of the image, so a loop over the lines computes the same image. */
module ImageAssembly {
  import opened Schedules
  import opened FixedFocus

  /** Element numbers from this value on select no transmitting element. */
  const ElementLimit: nat := 64000

  /** The element number the per-thread routines hand to the pixel
      routines: -1 passed as an unsigned 32-bit value. */
  const NoElement: nat := 0xFFFF_FFFF

  /** The line routine a line is sent to. `apo` picks the apodized variant;
      `sta` says whether a transmitting element is passed to the dynamic
      routines; `elementNo` is what the pixel routines receive. */
  datatype Route =
    | Fixed(apo: bool)
    | Dynamic(apo: bool, sta: bool)
    | Pixels(apo: bool, elementNo: nat)

  /** What one slot of the image holds, as a value: the samples of a
      fixed-focus line, nothing (the routine returned NULL), or the line of a
      dynamic or pixel routine, which is not part of this model. */
  datatype Outcome =
    | Samples(line: seq<real>)
    | Refused
    | Geometric(route: Route)

  /** The slot as the image holds it: a freshly filled buffer, NULL, or a
      line left to a routine outside this model. */
  datatype Slot =
    | Computed(buffer: array<real>)
    | Null
    | NotComputed(route: Route)

  /** A transmitting element is passed when one is given, or else when
      `elementNo` is below the limit and names an element of the first
      line's transducer. */
  predicate HasElement(xmtGiven: bool, elementNo: nat)
  {
    xmtGiven || elementNo < ElementLimit
  }

  /** The dispatch of a line on its focusing mode: dynamic first, then
      pixel, then fixed. */
  function RouteFor(ftl: FocusTimeLine, apo: bool, sta: bool, elementNo: nat): (r: Route)
    ensures r.Dynamic? <==> ftl.dynamic
    ensures r.Pixels? <==> !ftl.dynamic && ftl.pixel
    ensures r.Fixed? <==> !ftl.dynamic && !ftl.pixel
    ensures r.apo == apo
  {
    if ftl.dynamic then Dynamic(apo, sta)
    else if ftl.pixel then Pixels(apo, elementNo)
    else Fixed(apo)
  }

  /** `max_no_apo_times > 0`: some line has a non-empty apodization table. */
  predicate AnyApodized(alc: seq<ApoTimeLine>)
  {
    exists i :: 0 <= i < |alc| && alc[i].noTimes > 0
  }

  /** The routes beamform_image chooses: none when the counts differ or are
      zero; for a single line, its own table decides the apodized variant
      and the pixel routine gets `elementNo`; for several lines, every line
      takes the apodized variant as soon as any table is non-empty and the
      pixel routines get NoElement. */
  function SelectRoutes(flc: seq<FocusTimeLine>, alc: seq<ApoTimeLine>, elementNo: nat, xmtGiven: bool): (r: Option<seq<Route>>)
    ensures r.None? <==> !CountsAgree(flc, alc)
    ensures r.Some? ==> |r.value| == |flc|
  {
    if !CountsAgree(flc, alc) then None
    else if |flc| == 1 then Some([RouteFor(flc[0], alc[0].noTimes > 0, HasElement(xmtGiven, elementNo), elementNo)])
    else Some(seq(|flc|, i requires 0 <= i < |flc| =>
      RouteFor(flc[i], AnyApodized(alc), HasElement(xmtGiven, elementNo), NoElement)))
  }

  /** The loop of beamform_image that computes max_no_apo_times. */
  method MaxApoTimes(alc: seq<ApoTimeLine>) returns (m: nat)
    ensures forall i :: 0 <= i < |alc| ==> alc[i].noTimes <= m
    ensures m == 0 || exists i :: 0 <= i < |alc| && alc[i].noTimes == m
    ensures m > 0 <==> AnyApodized(alc)
  {
    m := 0;
    var i := 0;
    while i < |alc|
      invariant i <= |alc|
      invariant forall k :: 0 <= k < i ==> alc[k].noTimes <= m
      invariant m == 0 || exists k :: 0 <= k < i && alc[k].noTimes == m
    {
      if alc[i].noTimes > m {
        m := alc[i].noTimes;
      }
      i := i + 1;
    }
  }

  /** When the counts agree, the data a fixed-focus line routine reads is
      there for every fixed line (for the plain routine as well:
      ApoLineInputs includes LineInputs). Collections whose counts differ
      are refused before any line is read, so they need nothing. */
  predicate ImageInputs(flc: seq<FocusTimeLine>, alc: seq<ApoTimeLine>, o0: int, rf: seq<seq<real>>, n: nat)
  {
    CountsAgree(flc, alc) ==>
      forall i :: 0 <= i < |flc| ==> !flc[i].dynamic && !flc[i].pixel ==> ApoLineInputs(flc[i], alc[i], o0, rf, n)
  }

  /** What a route's line routine needs, where it is part of this model. */
  predicate RouteReady(route: Route, ftl: FocusTimeLine, atl: ApoTimeLine, o0: int, rf: seq<seq<real>>, n: nat)
  {
    route.Fixed? ==> ApoLineInputs(ftl, atl, o0, rf, n)
  }

  /** What the routine a route names puts in the line's slot: the fixed
      routines' lines; NULL from the apodized dynamic routines on an empty
      table; otherwise a line outside this model. */
  function LineOutcome(route: Route, ftl: FocusTimeLine, atl: ApoTimeLine, o0: int, rf: seq<seq<real>>, n: nat): Outcome
    requires RouteReady(route, ftl, atl, o0, rf, n)
  {
    match route
    case Fixed(apo) => Samples(if apo then ApoLineTimes(ftl, atl, o0, rf, n) else LineTimes(ftl, o0, rf, n))
    case Dynamic(apo, _) => if apo && atl.noTimes == 0 then Refused else Geometric(route)
    case Pixels(_, _) => Geometric(route)
  }

  /** The image beamform_image returns. */
  function BeamformedImage(flc: seq<FocusTimeLine>, alc: seq<ApoTimeLine>, o0: int, rf: seq<seq<real>>, n: nat,
                           elementNo: nat, xmtGiven: bool): (r: Option<seq<Outcome>>)
    requires ImageInputs(flc, alc, o0, rf, n)
    ensures r.None? <==> !CountsAgree(flc, alc)
    ensures r.Some? ==> |r.value| == |flc|
  {
    match SelectRoutes(flc, alc, elementNo, xmtGiven)
    case None => None
    case Some(routes) =>
      Some(seq(|flc|, i requires 0 <= i < |flc| => LineOutcome(routes[i], flc[i], alc[i], o0, rf, n)))
  }

  /** The route of every line follows its focusing mode; a single line's
      own table picks the apodized variant, while with several lines the
      variant is the same for all and is apodized exactly when some table
      is non-empty. */
  lemma RouteFollowsMode(flc: seq<FocusTimeLine>, alc: seq<ApoTimeLine>, elementNo: nat, xmtGiven: bool, i: nat)
    requires CountsAgree(flc, alc) && i < |flc|
    ensures var route := SelectRoutes(flc, alc, elementNo, xmtGiven).value[i];
      && (route.Dynamic? <==> flc[i].dynamic)
      && (route.Pixels? <==> !flc[i].dynamic && flc[i].pixel)
      && (route.Fixed? <==> !flc[i].dynamic && !flc[i].pixel)
      && (route.Dynamic? ==> route.sta == HasElement(xmtGiven, elementNo))
      && (route.Pixels? ==> route.elementNo == if |flc| == 1 then elementNo else NoElement)
      && (route.apo <==> if |flc| == 1 then alc[0].noTimes > 0 else AnyApodized(alc))
  {
  }

  /** Every line with a non-empty apodization table is sent to an apodized
      routine, whatever the number of lines. */
  lemma ApodizedTableTakesApoRoute(flc: seq<FocusTimeLine>, alc: seq<ApoTimeLine>, elementNo: nat, xmtGiven: bool, i: nat)
    requires CountsAgree(flc, alc) && i < |flc| && alc[i].noTimes > 0
    ensures SelectRoutes(flc, alc, elementNo, xmtGiven).value[i].apo
  {
    if |flc| > 1 {
      assert AnyApodized(alc);
    }
  }

  /** A fixed line with an empty apodization table gets the plain line even
      when another line's table sends it to the apodized routine, because
      that routine delegates on an empty table. */
  lemma EmptyTableFixedLineIsPlain(flc: seq<FocusTimeLine>, alc: seq<ApoTimeLine>, o0: int, rf: seq<seq<real>>, n: nat,
                                   elementNo: nat, xmtGiven: bool, i: nat)
    requires ImageInputs(flc, alc, o0, rf, n) && CountsAgree(flc, alc) && i < |flc|
    requires !flc[i].dynamic && !flc[i].pixel && alc[i].noTimes == 0
    ensures LineInputs(flc[i], o0, rf, n)
    ensures BeamformedImage(flc, alc, o0, rf, n, elementNo, xmtGiven).value[i] == Samples(LineTimes(flc[i], o0, rf, n))
  {
    RouteFollowsMode(flc, alc, elementNo, xmtGiven, i);
  }

  /** A fixed line with a non-empty apodization table gets the apodized line. */
  lemma ApodizedFixedLine(flc: seq<FocusTimeLine>, alc: seq<ApoTimeLine>, o0: int, rf: seq<seq<real>>, n: nat,
                          elementNo: nat, xmtGiven: bool, i: nat)
    requires ImageInputs(flc, alc, o0, rf, n) && CountsAgree(flc, alc) && i < |flc|
    requires !flc[i].dynamic && !flc[i].pixel && alc[i].noTimes > 0
    ensures ApoLineInputs(flc[i], alc[i], o0, rf, n)
    ensures BeamformedImage(flc, alc, o0, rf, n, elementNo, xmtGiven).value[i] == Samples(ApoLineTimes(flc[i], alc[i], o0, rf, n))
  {
    RouteFollowsMode(flc, alc, elementNo, xmtGiven, i);
    ApodizedTableTakesApoRoute(flc, alc, elementNo, xmtGiven, i);
  }

  /** A slot is left NULL exactly for a dynamic line without apodization in
      an image of several lines of which some other has apodization: only
      then is an apodized dynamic routine handed an empty table. */
  lemma RefusedExactly(flc: seq<FocusTimeLine>, alc: seq<ApoTimeLine>, o0: int, rf: seq<seq<real>>, n: nat,
                       elementNo: nat, xmtGiven: bool, i: nat)
    requires ImageInputs(flc, alc, o0, rf, n) && CountsAgree(flc, alc) && i < |flc|
    ensures BeamformedImage(flc, alc, o0, rf, n, elementNo, xmtGiven).value[i].Refused?
        <==> |flc| > 1 && flc[i].dynamic && alc[i].noTimes == 0 && AnyApodized(alc)
  {
    RouteFollowsMode(flc, alc, elementNo, xmtGiven, i);
  }

  /** The slot holds the outcome. */
  predicate Holds(slot: Slot, outcome: Outcome)
    reads if slot.Computed? then {slot.buffer} else {}
  {
    match slot
    case Computed(buffer) => outcome.Samples? && buffer[..] == outcome.line
    case Null => outcome.Refused?
    case NotComputed(route) => outcome == Geometric(route)
  }

  /** One line through the routine its route names (the body of the
      per-thread routines, and the single-line dispatch). */
  method BeamformRoutedLine(route: Route, ftl: FocusTimeLine, atl: ApoTimeLine, o0: nat, rf: seq<seq<real>>, n: nat)
    returns (slot: Slot)
    requires RouteReady(route, ftl, atl, o0, rf, n)
    ensures slot.Computed? ==> fresh(slot.buffer)
    ensures Holds(slot, LineOutcome(route, ftl, atl, o0, rf, n))
  {
    match route
    case Fixed(apo) =>
      var buffer;
      if apo {
        buffer := BeamformApoLineTimes(ftl, atl, o0, rf, n);
      } else {
        buffer := BeamformLineTimes(ftl, o0, rf, n);
      }
      slot := Computed(buffer);
    case Dynamic(apo, _) =>
      slot := if apo && atl.noTimes == 0 then Null else NotComputed(route);
    case Pixels(_, _) =>
      slot := NotComputed(route);
  }

  /** beamform_image: NULL when the counts differ or are zero; otherwise
      one slot per line, slot i holding what line i's routine returns. */
  method BeamformImage(flc: seq<FocusTimeLine>, alc: seq<ApoTimeLine>, o0: nat, rf: seq<seq<real>>, n: nat,
                       elementNo: nat, xmtGiven: bool)
    returns (r: Option<seq<Slot>>)
    requires ImageInputs(flc, alc, o0, rf, n)
    ensures r.None? <==> !CountsAgree(flc, alc)
    ensures r.Some? ==> |r.value| == |flc|
    ensures r.Some? ==> forall i :: 0 <= i < |flc| ==>
      && (r.value[i].Computed? ==> fresh(r.value[i].buffer))
      && Holds(r.value[i], BeamformedImage(flc, alc, o0, rf, n, elementNo, xmtGiven).value[i])
    ensures r.Some? ==> forall i, j :: 0 <= i < j < |flc| && r.value[i].Computed? && r.value[j].Computed? ==>
      r.value[i].buffer != r.value[j].buffer
  {
    if |flc| != |alc| {
      return None;
    }
    if |flc| == 0 {
      return None;
    }
    ghost var routes := SelectRoutes(flc, alc, elementNo, xmtGiven).value;
    var sta := HasElement(xmtGiven, elementNo);
    var slots: seq<Slot>;
    if |flc| == 1 {
      var slot := BeamformRoutedLine(RouteFor(flc[0], alc[0].noTimes > 0, sta, elementNo), flc[0], alc[0], o0, rf, n);
      slots := [slot];
    } else {
      var maxNoApoTimes := MaxApoTimes(alc);
      slots := [];
      var i := 0;
      while i < |flc|
        invariant i <= |flc| && |slots| == i
        invariant forall k :: 0 <= k < i ==>
          && (slots[k].Computed? ==> fresh(slots[k].buffer))
          && Holds(slots[k], LineOutcome(routes[k], flc[k], alc[k], o0, rf, n))
        invariant forall k, j :: 0 <= k < j < i && slots[k].Computed? && slots[j].Computed? ==>
          slots[k].buffer != slots[j].buffer
      {
        var slot := BeamformRoutedLine(RouteFor(flc[i], maxNoApoTimes > 0, sta, NoElement), flc[i], alc[i], o0, rf, n);
        slots := slots + [slot];
        i := i + 1;
      }
    }
    r := Some(slots);
  }
}
