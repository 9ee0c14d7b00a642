/** Every plan plays what the edit means: a reference that knows no sweep and no filter chain. */
module EditCorrect {
  import opened Basics
  import opened Timeline
  import opened CutSweep
  import opened FadeFilter
  import opened SpeedChain
  import opened EditPlan

  // ------------------------------------------------ the reference

  // Kept is what lies in the trimmed window, or up to the file's end, and in no cut.
  ghost predicate Kept(p: EditParams, dur: real, t: real) {
    Survives(p.cuts, p.trimStart, SourceEnd(p, dur), t)
  }

  // k measures kept time and the layout is the kept time's; both are unique.
  ghost predicate Reference(p: EditParams, dur: real, k: real -> real, layout: seq<Piece>) {
    && KeptMeasure(k, t => Kept(p, dur, t))
    && IsLayout(ByStart(p.cuts), p.trimStart, SourceEnd(p, dur), layout)
  }

  // The cut fades heard at t: those of the run t lies in.
  function CutGain(layout: seq<Piece>, t: real): real {
    if layout == [] then 1.0
    else if layout[0].seg.Has(t) then PieceGain(layout[0], t)
    else CutGain(layout[1..], t)
  }

  ghost function ReferenceGain(p: EditParams, k: real -> real, layout: seq<Piece>, t: real): real {
    Times(CutGain(layout, t), Times(EffectiveVolume(p.volume), FadesGain(k, p.fades, t)))
  }

  // At buffer time u one hears the kept instant with exactly u kept time before it.
  ghost predicate Heard(p: EditParams, dur: real, k: real -> real, layout: seq<Piece>, u: real, s: Sample) {
    && Kept(p, dur, s.source) && s.source < dur
    && k(s.source) == u
    && s.gain == ReferenceGain(p, k, layout, s.source)
    && s.leveled == p.normalize
  }

  // The tempo at which the plan runs through the buffer.
  function TempoOf(p: EditParams): real
    requires p.speed > 0.0
  {
    Product(TempoChain(p.speed))
  }

  // A lone piece takes a shortcut; it is only right when its cut fades fit inside it.
  predicate ShortcutFits(layout: seq<Piece>) {
    |layout| == 1 ==> layout[0].fadeIn <= layout[0].seg.Length() && layout[0].fadeOut <= layout[0].seg.Length()
  }

  predicate Playable(p: EditParams, dur: real) {
    && FromApi(p) && p.volume != 0.0
    && 0.0 <= dur <= SENTINEL_END
  }

  // ------------------------------------------------ concatenation plays the kept time

  lemma {:induction false} PlayBeyondEnd(segs: seq<Segment>, dur: real, u: real)
    requires forall i :: 0 <= i < |segs| ==> dur <= segs[i].start
    ensures PlayAt(segs, dur, u).None?
  {
    if segs != [] && 0.0 <= u {
      PlayBeyondEnd(segs[1..], dur, u);
    }
  }

  lemma {:induction false} LocateBeyondEnd(segs: seq<Segment>, dur: real, u: real)
    requires Separated(segs) && forall i :: 0 <= i < |segs| ==> dur <= segs[i].start
    ensures Locate(segs, u).Some? ==> dur <= Locate(segs, u).value
  {
    if segs != [] && 0.0 <= u {
      LocateBeyondEnd(segs[1..], dur, u - segs[0].Length());
    }
  }

  // Pieces that run past the end of the file stop there, and later ones are silent.
  lemma {:induction false} PlaySeparated(segs: seq<Segment>, dur: real, u: real)
    requires Separated(segs)
    ensures var c := PlayAt(segs, dur, u);
            && (c.Some? <==> Locate(segs, u).Some? && Locate(segs, u).value < dur)
            && (c.Some? ==>
                  && c.value.index < |segs| && c.value.time == Locate(segs, u).value
                  && segs[c.value.index].Has(c.value.time))
  {
    if segs != [] && 0.0 <= u {
      SeparatedTail(segs);
      var s, e := segs[0].start, segs[0].end;
      if e <= dur {
        PlaySeparated(segs[1..], dur, u - (e - s));
      } else {
        PlayBeyondEnd(segs[1..], dur, u - Max(0.0, dur - s));
        LocateBeyondEnd(segs[1..], dur, u - (e - s));
      }
    }
  }

  lemma {:induction false} CutGainOf(layout: seq<Piece>, i: nat, t: real)
    requires Separated(Segs(layout)) && i < |layout| && layout[i].seg.Has(t)
    ensures CutGain(layout, t) == PieceGain(layout[i], t)
  {
    assert Segs(layout)[1..] == Segs(layout[1..]);
    if i > 0 {
      assert Segs(layout)[0].end < Segs(layout)[i].start;
      SeparatedTail(Segs(layout));
      assert layout[1..][i - 1] == layout[i];
      CutGainOf(layout[1..], i - 1, t);
    }
  }

  // ------------------------------------------------ what the filter chain does

  ghost predicate IsRaw(s: Option<Sample>) {
    s.Some? ==> !s.value.leveled
  }

  lemma ChainTempo(base: Signal, earlier: seq<Filter>, factor: real, v: real)
    ensures ChainAt(base, earlier + [Tempo(factor)], v) == Unleveled(ChainAt(base, earlier, Times(v, factor)))
    ensures IsRaw(ChainAt(base, earlier, Times(v, factor))) ==>
              ChainAt(base, earlier + [Tempo(factor)], v) == ChainAt(base, earlier, Times(v, factor))
  {
    hide Times;
    var filters := earlier + [Tempo(factor)];
    assert filters[..|filters| - 1] == earlier;
  }

  lemma {:induction false} TemposScaleTime(base: Signal, before: seq<Filter>, factors: seq<real>, v: real)
    requires forall u :: IsRaw(ChainAt(base, before, u))
    ensures ChainAt(base, before + Tempos(factors), v) == ChainAt(base, before, Times(v, Product(factors)))
    decreases |factors|
  {
    hide Times;
    if factors == [] {
      assert before + Tempos(factors) == before;
      TimesOne(v);
    } else {
      hide ChainAt, Product, IsRaw, Unleveled;
      var n := |factors| - 1;
      var init, last := factors[..n], factors[n];
      assert factors == init + [last];
      assert before + Tempos(factors) == (before + Tempos(init)) + [Tempo(last)];
      TemposScaleTime(base, before, init, Times(v, last));
      ChainTempo(base, before + Tempos(init), last, v);
      ProductSnoc(init, last);
      TimesCommutes(Product(init), last);
      TimesAssociates(v, last, Product(init));
    }
  }

  lemma ScaledOnce(s: Option<Sample>)
    requires IsRaw(s)
    ensures Scaled(s, 1.0, false) == s
  {
    hide Times;
    if s.Some? {
      TimesOne(s.value.gain);
    }
  }

  lemma ScaledTwice(s: Option<Sample>, gain: real, leveled: bool)
    ensures Scaled(Scaled(s, gain, false), 1.0, leveled) == Scaled(s, gain, leveled)
  {
    hide Times;
    if s.Some? {
      TimesOne(Times(s.value.gain, gain));
    }
  }

  lemma GainMeans(base: Signal, vf: Option<VolumeExpr>, u: real)
    requires IsRaw(base(u))
    ensures ChainAt(base, if vf.Some? then [Gain(vf.value)] else [], u) == Scaled(base(u), ExprGain(vf, u), false)
  {
    hide Times, FactorValues;
    if vf.Some? {
      assert [Gain(vf.value)][..0] == [];
    } else {
      ScaledOnce(base(u));
    }
  }

  // Volume and fades at the buffer instant, then the tempo, then levelling.
  lemma FilterChainMeans(p: EditParams, base: Signal, fades: seq<Fade>, segs: seq<Segment>, v: real)
    requires p.speed > 0.0 && forall u :: IsRaw(base(u))
    ensures ChainAt(base, FilterChain(p, fades, segs), v)
         == Scaled(base(Times(v, TempoOf(p))),
                   ExprGain(VolumeFilter(p.volume, fades, segs), Times(v, TempoOf(p))), p.normalize)
  {
    hide Times, ExprGain, VolumeFilter, TempoChain, Product;
    var vf := VolumeFilter(p.volume, fades, segs);
    var first := if vf.Some? then [Gain(vf.value)] else [];
    var tempos := Tempos(TempoChain(p.speed));
    var u := Times(v, TempoOf(p));
    forall x ensures IsRaw(ChainAt(base, first, x)) {
      GainMeans(base, vf, x);
    }
    TemposScaleTime(base, first, TempoChain(p.speed), v);
    GainMeans(base, vf, u);
    var filters := FilterChain(p, fades, segs);
    var gain := ExprGain(vf, u);
    ScaledTwice(base(u), gain, p.normalize);
    if p.normalize {
      assert filters[..|filters| - 1] == first + tempos && filters[|filters| - 1] == Level;
    } else {
      assert filters == first + tempos;
    }
  }

  // ------------------------------------------------ the layout the plans work from

  lemma LayoutIsPieces(p: EditParams, dur: real, layout: seq<Piece>)
    requires p.cuts != [] && IsLayout(ByStart(p.cuts), p.trimStart, SourceEnd(p, dur), layout)
    ensures layout == Pieces(p, dur)
  {
    SortedByStart(p.cuts);
    KeptPiecesAreLayout(ByStart(p.cuts), p.trimStart, SourceEnd(p, dur));
    LayoutUnique(ByStart(p.cuts), p.trimStart, SourceEnd(p, dur), layout, Pieces(p, dur));
  }

  lemma LayoutWithoutCuts(p: EditParams, dur: real, layout: seq<Piece>)
    requires p.cuts == [] && IsLayout(ByStart(p.cuts), p.trimStart, SourceEnd(p, dur), layout)
    ensures var end := SourceEnd(p, dur);
            layout == if p.trimStart < end then [Piece(Segment(p.trimStart, end), 0.0, 0.0)] else []
  {
    SortedByStart(p.cuts);
    KeptPiecesAreLayout([], p.trimStart, SourceEnd(p, dur));
    LayoutUnique([], p.trimStart, SourceEnd(p, dur), layout, KeptPieces([], p.trimStart, SourceEnd(p, dur)));
  }

  // The kept time is the layout's, and k is the offset into it.
  lemma ReferenceIsOffset(p: EditParams, dur: real, k: real -> real, layout: seq<Piece>)
    requires Reference(p, dur, k, layout)
    ensures Measures(k, Segs(layout))
    ensures forall t :: Kept(p, dur, t) <==> InSegments(Segs(layout), t)
  {
    var kept := (t: real) => Kept(p, dur, t);
    forall t ensures Kept(p, dur, t) <==> InSegments(Segs(layout), t) {
      SurvivesSorted(p.cuts, p.trimStart, SourceEnd(p, dur), t);
    }
    forall t ensures k(t) == Offset(Segs(layout), t) {
      KeptMeasureUnique(Segs(layout), k, kept, t);
    }
  }

  // ------------------------------------------------ each plan

  // A piece of the layout heard at u is the kept instant located there.
  lemma HeardAtLocation(p: EditParams, dur: real, k: real -> real, layout: seq<Piece>, u: real, t: real)
    requires Reference(p, dur, k, layout)
    ensures Locate(Segs(layout), u) == Some(t) <==> Kept(p, dur, t) && k(t) == u
  {
    hide Kept;
    ReferenceIsOffset(p, dur, k, layout);
    OffsetInvertsLocate(Segs(layout), u);
    if Kept(p, dur, t) {
      LocateInvertsOffset(Segs(layout), t);
    }
  }

  // What the plan's window plays is the lone segment's time.
  lemma WindowPlaysSegment(start: real, end: real, dur: real, u: real)
    requires 0.0 <= start < end
    ensures WindowAt(WindowOf(start, Some(end)), dur, u)
         == (var t := Locate([Segment(start, end)], u); if t.Some? && t.value < dur then t else None)
    ensures dur <= end ==>
              WindowAt(WindowOf(start, None), dur, u) == WindowAt(WindowOf(start, Some(end)), dur, u)
  {
    assert [Segment(start, end)][1..] == [];
  }

  // A stream whose samples sit at the located instants with the right gain is the reference.
  lemma Matches(p: EditParams, dur: real, k: real -> real, layout: seq<Piece>, u: real, b: Option<Sample>, gain: real)
    requires Reference(p, dur, k, layout)
    requires var t := Locate(Segs(layout), u); b.Some? <==> t.Some? && t.value < dur
    requires b.Some? ==>
               && b.value.source == Locate(Segs(layout), u).value && !b.value.leveled
               && Times(b.value.gain, gain) == ReferenceGain(p, k, layout, b.value.source)
    ensures forall s :: Scaled(b, gain, p.normalize) == Some(s) <==> Heard(p, dur, k, layout, u, s)
  {
    hide Times, ReferenceGain, Locate, Kept, Reference;
    forall s ensures Scaled(b, gain, p.normalize) == Some(s) <==> Heard(p, dur, k, layout, u, s) {
      HeardAtLocation(p, dur, k, layout, u, s.source);
    }
  }

  lemma LocatedIn(p: EditParams, dur: real, k: real -> real, layout: seq<Piece>, u: real, t: real)
    requires Reference(p, dur, k, layout) && Locate(Segs(layout), u) == Some(t)
    ensures InSegments(Segs(layout), t) && Offset(Segs(layout), t) == u && Measures(k, Segs(layout))
  {
    ReferenceIsOffset(p, dur, k, layout);
    OffsetInvertsLocate(Segs(layout), u);
  }

  // The filter expression at the located instant is the volume times the global fades.
  lemma ExprAtLocation(p: EditParams, dur: real, k: real -> real, layout: seq<Piece>, fades: seq<Fade>, u: real,
                       t: real)
    requires Reference(p, dur, k, layout) && Locate(Segs(layout), u) == Some(t)
    ensures ExprGain(VolumeFilter(p.volume, fades, Segs(layout)), u) ==
              Times(EffectiveVolume(p.volume), FadesGain(k, fades, t))
  {
    hide Times, FadeGain, FadesGain, ExprGain, VolumeFilter;
    LocatedIn(p, dur, k, layout, u, t);
    VolumeFilterMeans(k, p.volume, fades, Segs(layout), t);
  }

  lemma PlainPieceGain(q: Piece, t: real)
    requires q.fadeIn <= 0.0 && q.fadeOut <= 0.0
    ensures PieceGain(q, t) == 1.0
  {
    hide Ratio;
  }

  lemma {:induction false} PlainCutGain(layout: seq<Piece>, t: real)
    requires forall q :: q in layout ==> q.fadeIn <= 0.0 && q.fadeOut <= 0.0
    ensures CutGain(layout, t) == 1.0
  {
    if layout != [] {
      PlainPieceGain(layout[0], t);
      PlainCutGain(layout[1..], t);
    }
  }

  // Cuts without fades leave pieces without fades.
  lemma PlainLayout(cuts: seq<Cut>, from: real, end: real, layout: seq<Piece>)
    requires IsLayout(ByStart(cuts), from, end, layout)
    requires forall c :: c in cuts ==> c.fadeIn <= 0.0 && c.fadeOut <= 0.0
    ensures forall q :: q in layout ==> q.fadeIn <= 0.0 && q.fadeOut <= 0.0
  {
    SortedByStart(cuts);
    var sorted := ByStart(cuts);
    forall i | 0 <= i < |sorted| ensures sorted[i].fadeIn <= 0.0 && sorted[i].fadeOut <= 0.0 {
      assert sorted[i] in multiset(sorted);
    }
    forall q | q in layout ensures q.fadeIn <= 0.0 && q.fadeOut <= 0.0 {
      var i :| 0 <= i < |layout| && layout[i] == q;
      assert FadeInFor(sorted, from, end, q.seg.start, q.fadeIn) && FadeOutFor(sorted, from, end, q.seg.end, q.fadeOut);
    }
  }

  lemma LosslessReferenceGain(p: EditParams, dur: real, k: real -> real, layout: seq<Piece>, t: real)
    requires Reference(p, dur, k, layout) && LosslessEligible(p)
    ensures ReferenceGain(p, k, layout, t) == 1.0
  {
    hide Times;
    PlainLayout(p.cuts, p.trimStart, SourceEnd(p, dur), layout);
    PlainCutGain(layout, t);
    assert FadeGains(k, [], t) == [];
    TimesOne(1.0);
  }

  // ------------------------------------------------ the lone piece's shortcut

  lemma {:induction false} FadeGainsAppend(k: real -> real, a: seq<Fade>, b: seq<Fade>, t: real)
    ensures FadeGains(k, a + b, t) == FadeGains(k, a, t) + FadeGains(k, b, t)
  {
    if a == [] {
      assert a + b == b;
    } else {
      assert (a + b)[1..] == a[1..] + b;
      FadeGainsAppend(k, a[1..], b, t);
    }
  }

  lemma FadesGainAppend(k: real -> real, a: seq<Fade>, b: seq<Fade>, t: real)
    ensures FadesGain(k, a + b, t) == Times(FadesGain(k, a, t), FadesGain(k, b, t))
  {
    hide FadeGain, Times;
    FadeGainsAppend(k, a, b, t);
    ProductAppend(FadeGains(k, a, t), FadeGains(k, b, t));
  }

  lemma LoneFadeGain(k: real -> real, f: Fade, t: real)
    ensures FadesGain(k, [f], t) == FadeGain(k, f, t)
  {
    hide Times, FadeGain;
    assert [f][1..] == [];
    assert FadeGains(k, [f], t) == [FadeGain(k, f, t)] + [];
    ProductOne(FadeGain(k, f, t));
  }

  lemma LoneOffset(k: real -> real, seg: Segment, x: real)
    requires Measures(k, [seg]) && seg.start < seg.end
    ensures k(x) == if x <= seg.start then 0.0 else if x <= seg.end then x - seg.start else seg.Length()
  {
    assert [seg][1..] == [];
    assert k(x) == Offset([seg], x);
  }

  lemma FadeInFits(k: real -> real, q: Piece, t: real)
    requires Measures(k, [q.seg]) && q.seg.Has(t) && q.fadeIn <= q.seg.Length()
    ensures FadesGain(k, FadeInOf(q), t) == UpOf(q, t)
  {
    hide Times;
    if q.fadeIn > 0.0 {
      LoneFadeGain(k, FadeInOf(q)[0], t);
      LoneOffset(k, q.seg, t);
      LoneOffset(k, q.seg, q.seg.start);
      LoneOffset(k, q.seg, q.seg.start + q.fadeIn);
    }
  }

  lemma FadeOutFits(k: real -> real, q: Piece, t: real)
    requires Measures(k, [q.seg]) && q.seg.Has(t) && q.fadeOut <= q.seg.Length()
    ensures FadesGain(k, FadeOutOf(q), t) == DownOf(q, t)
  {
    hide Times, Ratio;
    if q.fadeOut > 0.0 {
      var a, e, d := q.seg.end - q.fadeOut, q.seg.end, q.fadeOut;
      LoneFadeGain(k, FadeOutOf(q)[0], t);
      LoneOffset(k, q.seg, t);
      LoneOffset(k, q.seg, a);
      LoneOffset(k, q.seg, e);
      assert k(e) - k(a) == d;
      if a <= t {
        RatioComplement(e - t, t - a, d);
      }
    }
  }

  // A lone piece's merged fades give the gain of its own ramps, when both fit inside it.
  lemma MergedFadesFit(k: real -> real, q: Piece, fades: seq<Fade>, t: real)
    requires Measures(k, [q.seg]) && q.seg.Has(t)
    requires q.fadeIn <= q.seg.Length() && q.fadeOut <= q.seg.Length()
    ensures FadesGain(k, MergedFades(q, fades), t) == Times(PieceGain(q, t), FadesGain(k, fades, t))
  {
    hide Times, FadeGain, UpOf, DownOf, FadesGain, FadeInOf, FadeOutOf;
    FadeInFits(k, q, t);
    FadeOutFits(k, q, t);
    FadesGainAppend(k, FadeInOf(q) + fades, FadeOutOf(q), t);
    FadesGainAppend(k, FadeInOf(q), fades, t);
    TimesSwap(UpOf(q, t), FadesGain(k, fades, t), DownOf(q, t));
  }

  // ------------------------------------------------ each plan is the reference

  lemma SimpleBase(start: real, end: Option<real>, to: real, filters: seq<Filter>, dur: real, u: real)
    requires 0.0 <= start < to && (end == Some(to) || (end.None? && dur <= to))
    ensures var b := BaseAt(Encode(WindowOf(start, end), filters), dur, u);
            var t := Locate([Segment(start, to)], u);
            && (b.Some? <==> t.Some? && t.value < dur)
            && (b.Some? ==> b.value == Sample(t.value, 1.0, false))
    ensures BaseAt(Copy(WindowOf(start, end)), dur, u) == BaseAt(Encode(WindowOf(start, end), filters), dur, u)
  {
    WindowPlaysSegment(start, to, dur, u);
  }

  // Re-encoding one window: the volume and the fades handed to it, at every located instant.
  lemma SimplePlan(p: EditParams, dur: real, k: real -> real, layout: seq<Piece>,
                   start: real, end: real, fades: seq<Fade>, v: real)
    requires p.speed > 0.0 && Reference(p, dur, k, layout)
    requires 0.0 <= start < end && Segs(layout) == [Segment(start, end)]
    requires forall t :: Segs(layout)[0].Has(t) ==>
               FadesGain(k, fades, t) == Times(CutGain(layout, t), FadesGain(k, p.fades, t))
    ensures forall s :: PlanAt(ApplySimple(p, start, Some(end), fades), dur, v) == Some(s)
                   <==> Heard(p, dur, k, layout, Times(v, TempoOf(p)), s)
  {
    hide Times, FadesGain, CutGain, ExprGain, VolumeFilter, TempoOf, FilterChain, Locate, BaseAt, Reference, Heard;
    var plan := ApplySimple(p, start, Some(end), fades);
    var u := Times(v, TempoOf(p));
    var base := (x: real) => BaseAt(plan, dur, x);
    FilterChainMeans(p, base, fades, Segs(layout), v);
    SimpleBase(start, Some(end), end, plan.filters, dur, u);
    var b, gain := base(u), ExprGain(VolumeFilter(p.volume, fades, Segs(layout)), u);
    if b.Some? {
      var t := b.value.source;
      LocatedIn(p, dur, k, layout, u, t);
      ExprAtLocation(p, dur, k, layout, fades, u, t);
      TimesOne(gain);
      GainOrder(EffectiveVolume(p.volume), CutGain(layout, t), FadesGain(k, p.fades, t));
    }
    Matches(p, dur, k, layout, u, b, gain);
  }

  lemma GainOrder(vol: real, cut: real, fades: real)
    ensures Times(vol, Times(cut, fades)) == Times(cut, Times(vol, fades))
  {
    hide Times;
    TimesAssociates(vol, cut, fades);
    TimesAssociates(cut, vol, fades);
    TimesCommutes(vol, cut);
  }

  // The filter graph: every piece with its own ramps, then the global filters.
  lemma GraphPlan(p: EditParams, dur: real, k: real -> real, layout: seq<Piece>, v: real)
    requires p.speed > 0.0 && Reference(p, dur, k, layout)
    ensures forall s :: PlanAt(EncodeGraph(layout, FilterChain(p, p.fades, Segs(layout))), dur, v) == Some(s)
                   <==> Heard(p, dur, k, layout, Times(v, TempoOf(p)), s)
  {
    hide Times, FadesGain, CutGain, ExprGain, VolumeFilter, TempoOf, FilterChain, Locate, PlayAt, Heard, PieceGain;
    var plan := EncodeGraph(layout, FilterChain(p, p.fades, Segs(layout)));
    var u := Times(v, TempoOf(p));
    var base := (x: real) => BaseAt(plan, dur, x);
    FilterChainMeans(p, base, p.fades, Segs(layout), v);
    PlaySeparated(Segs(layout), dur, u);
    var b, gain := base(u), ExprGain(VolumeFilter(p.volume, p.fades, Segs(layout)), u);
    if b.Some? {
      var c := PlayAt(Segs(layout), dur, u).value;
      CutGainOf(layout, c.index, c.time);
      ExprAtLocation(p, dur, k, layout, p.fades, u, c.time);
    }
    Matches(p, dur, k, layout, u, b, gain);
  }

  // Stream copies add nothing, which is what a lossless-eligible edit asks for.
  lemma CopiedStream(p: EditParams, dur: real, k: real -> real, layout: seq<Piece>, u: real, b: Option<Sample>)
    requires Reference(p, dur, k, layout) && LosslessEligible(p)
    requires var t := Locate(Segs(layout), u);
             && (b.Some? <==> t.Some? && t.value < dur)
             && (b.Some? ==> b.value == Sample(t.value, 1.0, false))
    ensures forall s :: b == Some(s) <==> Heard(p, dur, k, layout, u, s)
  {
    hide Times, ReferenceGain, Locate, Reference, Heard;
    if b.Some? {
      LosslessReferenceGain(p, dur, k, layout, b.value.source);
    }
    TimesOne(1.0);
    ScaledOnce(b);
    Matches(p, dur, k, layout, u, b, 1.0);
  }
}
