/** The ffmpeg invocations an edit turns into, and what each of them plays. */
module EditPlan {
  import opened Basics
  import opened Timeline
  import opened CutSweep
  import opened FadeFilter
  import opened SpeedChain

  datatype EditParams = EditParams(
    trimStart: real, trimEnd: Option<real>, volume: real, fades: seq<Fade>, speed: real, normalize: bool,
    cuts: seq<Cut>)

  // The limits the edit request's schema puts on its numbers.
  predicate FromApi(p: EditParams) {
    && 0.0 <= p.trimStart
    && (p.trimEnd.Some? ==> 0.0 <= p.trimEnd.value)
    && 0.0 <= p.volume <= 2.0
    && 0.25 <= p.speed <= 4.0
    && (forall f :: f in p.fades ==> 0.0 <= f.start && 0.0 <= f.end)
    && (forall c :: c in p.cuts ==> 0.0 <= c.start && 0.0 <= c.end && 0.0 <= c.fadeIn && 0.0 <= c.fadeOut)
  }

  // An input seek and an output length, each given only when asked for.
  datatype Window = Window(seek: Option<real>, length: Option<real>)

  datatype Filter = Gain(expr: VolumeExpr) | Tempo(factor: real) | Level

  datatype Plan =
    | Copy(window: Window)
    | CopyConcat(parts: seq<Window>)
    | Encode(window: Window, filters: seq<Filter>)
    | EncodeGraph(pieces: seq<Piece>, filters: seq<Filter>)

  datatype Compiled = Ready(plan: Plan) | CutsRemoveEverything

  const SENTINEL_END := 1000000000.0

  // ------------------------------------------------ choosing the plan

  function DropEmptyFades(fades: seq<Fade>): seq<Fade> {
    if fades == [] then []
    else (if fades[0].end > fades[0].start then [fades[0]] else []) + DropEmptyFades(fades[1..])
  }

  function DropEmptyCuts(cuts: seq<Cut>): seq<Cut> {
    if cuts == [] then []
    else (if cuts[0].end > cuts[0].start then [cuts[0]] else []) + DropEmptyCuts(cuts[1..])
  }

  // Defaults applied before anything is planned; a volume of zero counts as not given.
  function Cleaned(p: EditParams): EditParams {
    p.(fades := DropEmptyFades(p.fades),
       cuts := DropEmptyCuts(p.cuts),
       volume := if p.volume == 0.0 then 1.0 else p.volume,
       speed := if p.speed == 0.0 then 1.0 else p.speed)
  }

  predicate LosslessEligible(p: EditParams) {
    && UnityVolume(p.volume)
    && UnitySpeed(p.speed)
    && !p.normalize
    && p.fades == []
    && forall c :: c in p.cuts ==> c.fadeIn <= 0.0 && c.fadeOut <= 0.0
  }

  function WindowOf(start: real, end: Option<real>): Window {
    Window(if start > 0.0 then Some(start) else None,
           if end.Some? then Some(end.value - start) else None)
  }

  function WindowsOf(segs: seq<Segment>): (ws: seq<Window>)
    ensures |ws| == |segs|
    ensures forall i :: 0 <= i < |ws| ==> ws[i] == WindowOf(segs[i].start, Some(segs[i].end))
  {
    seq(|segs|, i requires 0 <= i < |segs| => WindowOf(segs[i].start, Some(segs[i].end)))
  }

  function Tempos(factors: seq<real>): (fs: seq<Filter>)
    ensures |fs| == |factors| && forall i :: 0 <= i < |fs| ==> fs[i] == Tempo(factors[i])
  {
    seq(|factors|, i requires 0 <= i < |factors| => Tempo(factors[i]))
  }

  function FilterChain(p: EditParams, fades: seq<Fade>, segs: seq<Segment>): seq<Filter>
    requires p.speed > 0.0
  {
    var vf := VolumeFilter(p.volume, fades, segs);
    (if vf.Some? then [Gain(vf.value)] else []) + Tempos(TempoChain(p.speed)) + (if p.normalize then [Level] else [])
  }

  function ApplySimple(p: EditParams, start: real, end: Option<real>, fades: seq<Fade>): Plan
    requires p.speed > 0.0
  {
    Encode(WindowOf(start, end), FilterChain(p, fades, [Segment(start, end.GetOr(SENTINEL_END))]))
  }

  function SourceEnd(p: EditParams, probed: real): real {
    p.trimEnd.GetOr(probed)
  }

  function Pieces(p: EditParams, probed: real): seq<Piece> {
    KeptPieces(ByStart(p.cuts), p.trimStart, SourceEnd(p, probed))
  }

  function FadeInOf(q: Piece): seq<Fade> {
    if q.fadeIn > 0.0 then [Fade(q.seg.start, q.seg.start + q.fadeIn, FadeKind.FadeIn)] else []
  }

  function FadeOutOf(q: Piece): seq<Fade> {
    if q.fadeOut > 0.0 then [Fade(q.seg.end - q.fadeOut, q.seg.end, FadeKind.FadeOut)] else []
  }

  // A lone piece's own fades, turned into fades over original time.
  function MergedFades(q: Piece, fades: seq<Fade>): seq<Fade> {
    FadeInOf(q) + fades + FadeOutOf(q)
  }

  function CopyPlan(p: EditParams, probed: real): Compiled {
    if p.cuts == [] then Ready(Copy(WindowOf(p.trimStart, p.trimEnd)))
    else
      var segs := Segs(Pieces(p, probed));
      if segs == [] then CutsRemoveEverything
      else if |segs| == 1 then Ready(Copy(WindowOf(segs[0].start, Some(segs[0].end))))
      else Ready(CopyConcat(WindowsOf(segs)))
  }

  function EncodePlan(p: EditParams, probed: real): Compiled
    requires p.speed > 0.0
  {
    if p.cuts == [] then Ready(ApplySimple(p, p.trimStart, p.trimEnd, p.fades))
    else
      var pieces := Pieces(p, probed);
      if pieces == [] then CutsRemoveEverything
      else if |pieces| == 1 then
        Ready(ApplySimple(p, pieces[0].seg.start, Some(pieces[0].seg.end), MergedFades(pieces[0], p.fades)))
      else Ready(EncodeGraph(pieces, FilterChain(p, p.fades, Segs(pieces))))
  }

  function Compile(p: EditParams, probed: real): Compiled
    requires p.speed > 0.0
  {
    if LosslessEligible(p) then CopyPlan(p, probed) else EncodePlan(p, probed)
  }

  // ------------------------------------------------ the steps as the editor takes them

  method BuildFilterChain(p: EditParams, fades: seq<Fade>, segs: seq<Segment>) returns (filters: seq<Filter>)
    requires p.speed > 0.0
    ensures filters == FilterChain(p, fades, segs)
  {
    filters := [];
    var vf := BuildVolumeAndFadesFilter(p.volume, fades, segs);
    if vf.Some? {
      filters := filters + [Gain(vf.value)];
    }
    var tempos := BuildSpeedFilters(p.speed);
    filters := filters + Tempos(tempos);
    if p.normalize {
      filters := filters + [Level];
    }
  }

  method StreamCopyWithCuts(p: EditParams, probed: real) returns (c: Compiled)
    requires p.cuts != []
    ensures c == CopyPlan(p, probed)
  {
    var segments := SweepForCopy(p.cuts, p.trimStart, SourceEnd(p, probed));
    if segments == [] {
      return CutsRemoveEverything;
    }
    if |segments| == 1 {
      return Ready(Copy(WindowOf(segments[0].start, Some(segments[0].end))));
    }
    var parts: seq<Window> := [];
    for i := 0 to |segments|
      invariant parts == WindowsOf(segments)[..i]
    {
      parts := parts + [WindowOf(segments[i].start, Some(segments[i].end))];
    }
    assert WindowsOf(segments)[..|segments|] == WindowsOf(segments);
    return Ready(CopyConcat(parts));
  }

  method ApplyWithCuts(p: EditParams, probed: real) returns (c: Compiled)
    requires p.cuts != [] && p.speed > 0.0
    ensures c == EncodePlan(p, probed)
  {
    var segments, segFades := SweepForEncode(p.cuts, p.trimStart, SourceEnd(p, probed));
    var pieces := Zip(segments, segFades);
    assert Segs(pieces) == segments;
    if segments == [] {
      return CutsRemoveEverything;
    }
    if |segments| == 1 {
      var s, e := segments[0].start, segments[0].end;
      var (fi, fo) := segFades[0];
      var merged := p.fades;
      if fi > 0.0 {
        merged := [Fade(s, s + fi, FadeKind.FadeIn)] + merged;
      }
      if fo > 0.0 {
        merged := merged + [Fade(e - fo, e, FadeKind.FadeOut)];
      }
      var lone := BuildFilterChain(p, merged, [Segment(s, e)]);
      assert merged == MergedFades(pieces[0], p.fades);
      return Ready(Encode(WindowOf(s, Some(e)), lone));
    }
    var filters := BuildFilterChain(p, p.fades, segments);
    return Ready(EncodeGraph(pieces, filters));
  }

  method ApplyEdits(params: EditParams, probed: real) returns (c: Compiled)
    requires params.speed >= 0.0
    ensures c == Compile(Cleaned(params), probed)
  {
    var p := Cleaned(params);
    if LosslessEligible(p) {
      if p.cuts != [] {
        c := StreamCopyWithCuts(p, probed);
      } else {
        c := Ready(Copy(WindowOf(p.trimStart, p.trimEnd)));
      }
      return;
    }
    if p.cuts != [] {
      c := ApplyWithCuts(p, probed);
    } else {
      var filters := BuildFilterChain(p, p.fades, [Segment(p.trimStart, p.trimEnd.GetOr(SENTINEL_END))]);
      c := Ready(Encode(WindowOf(p.trimStart, p.trimEnd), filters));
    }
  }

  // ------------------------------------------------ what a plan plays

  // One output instant: the source time heard, its gain, and whether levelling was the last thing
  // done to it.
  datatype Sample = Sample(source: real, gain: real, leveled: bool)

  datatype Clip = Clip(index: nat, time: real)

  function WindowAt(w: Window, dur: real, u: real): Option<real> {
    var t := w.seek.GetOr(0.0) + u;
    if 0.0 <= u && (w.length.None? || u < w.length.value) && t < dur then Some(t) else None
  }

  function WindowSegment(w: Window): Segment {
    var s := w.seek.GetOr(0.0);
    Segment(s, s + w.length.GetOr(SENTINEL_END))
  }

  function WindowSegments(ws: seq<Window>): (segs: seq<Segment>)
    ensures |segs| == |ws| && forall i :: 0 <= i < |ws| ==> segs[i] == WindowSegment(ws[i])
  {
    seq(|ws|, i requires 0 <= i < |ws| => WindowSegment(ws[i]))
  }

  // Segments of a file of the given length, played one after the other.
  function PlayAt(segs: seq<Segment>, dur: real, u: real): Option<Clip> {
    if segs == [] || u < 0.0 then None
    else
      var length := Max(0.0, Min(segs[0].end, dur) - segs[0].start);
      if u < length then Some(Clip(0, segs[0].start + u))
      else
        var c := PlayAt(segs[1..], dur, u - length);
        if c.None? then None else Some(Clip(c.value.index + 1, c.value.time))
  }

  // The linear fades of a piece, placed on source time.
  function RampUp(start: real, length: real, t: real): real
    requires length > 0.0
  {
    if t < start then 0.0 else if length <= t - start then 1.0 else Ratio(t - start, length)
  }

  function RampDown(start: real, length: real, t: real): real
    requires length > 0.0
  {
    if t < start then 1.0 else if length <= t - start then 0.0 else 1.0 - Ratio(t - start, length)
  }

  function UpOf(q: Piece, t: real): real {
    if q.fadeIn > 0.0 then RampUp(q.seg.start, q.fadeIn, t) else 1.0
  }

  function DownOf(q: Piece, t: real): real {
    if q.fadeOut > 0.0 then RampDown(q.seg.start + Max(0.0, q.seg.Length() - q.fadeOut), q.fadeOut, t) else 1.0
  }

  function PieceGain(q: Piece, t: real): real {
    Times(UpOf(q, t), DownOf(q, t))
  }

  // The decoded audio before the plan's filters.
  function BaseAt(plan: Plan, dur: real, u: real): (s: Option<Sample>)
    ensures s.Some? ==> !s.value.leveled
  {
    match plan
    case Copy(w) =>
      var t := WindowAt(w, dur, u);
      if t.None? then None else Some(Sample(t.value, 1.0, false))
    case Encode(w, _) =>
      var t := WindowAt(w, dur, u);
      if t.None? then None else Some(Sample(t.value, 1.0, false))
    case CopyConcat(parts) =>
      var c := PlayAt(WindowSegments(parts), dur, u);
      if c.None? then None else Some(Sample(c.value.time, 1.0, false))
    case EncodeGraph(pieces, _) =>
      var c := PlayAt(Segs(pieces), dur, u);
      if c.None? || c.value.index >= |pieces| then None
      else Some(Sample(c.value.time, PieceGain(pieces[c.value.index], c.value.time), false))
  }

  // What is heard at each instant of a stream of audio.
  type Signal = real -> Option<Sample>

  // Filters act in the order they are listed, each on the output of the ones before. What is
  // scaled or stretched after levelling is not level any more.
  function ChainAt(base: Signal, filters: seq<Filter>, v: real): Option<Sample> {
    if filters == [] then base(v)
    else
      var earlier := filters[..|filters| - 1];
      match filters[|filters| - 1]
      case Tempo(factor) => Unleveled(ChainAt(base, earlier, Times(v, factor)))
      case Gain(expr) => Scaled(ChainAt(base, earlier, v), ExprGain(Some(expr), v), false)
      case Level => Scaled(ChainAt(base, earlier, v), 1.0, true)
  }

  function Scaled(s: Option<Sample>, gain: real, leveled: bool): Option<Sample> {
    if s.None? then None else Some(Sample(s.value.source, Times(s.value.gain, gain), leveled))
  }

  function Unleveled(s: Option<Sample>): Option<Sample> {
    if s.None? then None else Some(s.value.(leveled := false))
  }

  function PlanAt(plan: Plan, dur: real, v: real): Option<Sample> {
    ChainAt(u => BaseAt(plan, dur, u), if plan.Encode? || plan.EncodeGraph? then plan.filters else [], v)
  }
}
