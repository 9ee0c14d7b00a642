/** Exactly when the shortcut for a lone piece is right: its cut fades have to fit inside it. */
module EditShortcut {
  import opened Basics
  import opened Timeline
  import opened CutSweep
  import opened FadeFilter
  import opened SpeedChain
  import opened EditPlan
  import opened EditCorrect
  import opened EditTheorems

  // An instant inside (lo, hi) that is none of the listed ones.
  lemma {:induction false} Avoid(lo: real, hi: real, bad: seq<real>) returns (x: real)
    requires lo < hi
    ensures lo < x < hi && x !in bad
    decreases |bad|
  {
    if bad == [] {
      x := (lo + hi) / 2.0;
    } else {
      var b := bad[0];
      x := Avoid(lo, if lo < b < hi then b else hi, bad[1..]);
    }
  }

  function Starts(fades: seq<Fade>): seq<real> {
    if fades == [] then [] else [fades[0].start] + Starts(fades[1..])
  }

  // Away from its own start a fade never silences a lone piece.
  lemma FadeGainPositive(k: real -> real, f: Fade, seg: Segment, t: real)
    requires Measures(k, [seg]) && seg.start < t < seg.end && t != f.start
    ensures FadeGain(k, f, t) > 0.0
  {
    hide Ratio;
    if f.Active(t) {
      LoneOffset(k, seg, t);
      LoneOffset(k, seg, f.start);
      LoneOffset(k, seg, f.end);
      RatioPositive(k(t) - k(f.start), k(f.end) - k(f.start));
      RatioPositive(k(f.end) - k(t), k(f.end) - k(f.start));
    }
  }

  lemma RatioPositive(a: real, b: real)
    requires a > 0.0 && b > 0.0
    ensures Ratio(a, b) > 0.0
  {
  }

  lemma {:induction false} FadesGainPositive(k: real -> real, fades: seq<Fade>, seg: Segment, t: real)
    requires Measures(k, [seg]) && seg.start < t < seg.end && t !in Starts(fades)
    ensures FadesGain(k, fades, t) > 0.0
  {
    hide Times, FadeGain;
    if fades != [] {
      FadeGainPositive(k, fades[0], seg, t);
      FadesGainPositive(k, fades[1..], seg, t);
      ProductCons(FadeGain(k, fades[0], t), FadeGains(k, fades[1..], t));
      TimesPositive(FadeGain(k, fades[0], t), FadesGain(k, fades[1..], t));
    }
  }

  // The ramp that the shortcut uses instead of the piece's own: squeezed into the piece.
  lemma SqueezedUp(k: real -> real, q: Piece, t: real)
    requires Measures(k, [q.seg]) && q.seg.start < t < q.seg.end && q.fadeIn > q.seg.Length()
    ensures FadesGain(k, FadeInOf(q), t) == Ratio(t - q.seg.start, q.seg.Length())
    ensures UpOf(q, t) == Ratio(t - q.seg.start, q.fadeIn)
  {
    hide Ratio;
    LoneFadeGain(k, FadeInOf(q)[0], t);
    LoneOffset(k, q.seg, t);
    LoneOffset(k, q.seg, q.seg.start);
    LoneOffset(k, q.seg, q.seg.start + q.fadeIn);
  }

  lemma SqueezedDown(k: real -> real, q: Piece, t: real)
    requires Measures(k, [q.seg]) && q.seg.start < t < q.seg.end && q.fadeOut > q.seg.Length()
    ensures FadesGain(k, FadeOutOf(q), t) == 1.0 - Ratio(t - q.seg.start, q.seg.Length())
    ensures DownOf(q, t) == 1.0 - Ratio(t - q.seg.start, q.fadeOut)
  {
    hide Ratio;
    LoneFadeGain(k, FadeOutOf(q)[0], t);
    LoneOffset(k, q.seg, t);
    LoneOffset(k, q.seg, q.seg.end - q.fadeOut);
    LoneOffset(k, q.seg, q.seg.end);
    RatioComplement(q.seg.end - t, t - q.seg.start, q.seg.Length());
  }

  // Dividing by more gives less.
  lemma RatioShrinks(x: real, small: real, large: real)
    requires 0.0 < x && 0.0 < small < large
    ensures Ratio(x, large) < Ratio(x, small)
  {
    hide Ratio, Times;
    var a, b := Ratio(x, large), Ratio(x, small);
    RatioTimes(x, large);
    RatioTimes(x, small);
    RatioPositive(x, large);
    if b <= a {
      TimesMonotone(b, a, small);
      TimesCommutes(a, small);
      TimesCommutes(a, large);
      TimesPositive(large - small, a);
      TimesDistributes(large, small, a);
    }
  }

  lemma ScaledDiffers(a: real, b: real, c: real)
    requires a != b && c != 0.0
    ensures Times(a, c) != Times(b, c)
  {
    hide Times;
    if Times(a, c) == Times(b, c) {
      TimesCancels(a, b, c);
    }
  }

  // How far into the piece the two ramps are sure to differ.
  function TellTale(q: Piece): real
    requires q.seg.Length() > 0.0
  {
    if q.fadeIn > q.seg.Length() then q.seg.Length() - Times(q.seg.Length(), Ratio(q.seg.Length(), q.fadeIn))
    else q.seg.Length()
  }

  lemma TellTalePositive(q: Piece)
    requires q.seg.Length() > 0.0
    ensures 0.0 < TellTale(q) <= q.seg.Length()
  {
    hide Times, Ratio;
    var L := q.seg.Length();
    if q.fadeIn > L {
      RatioPositive(L, q.fadeIn);
      RatioShrinks(L, L, q.fadeIn);
      RatioSelf(L);
      var r := Ratio(L, q.fadeIn);
      TimesPositive(L, r);
      TimesPositive(1.0 - r, L);
      TimesDistributes(1.0, r, L);
      TimesOne(L);
      TimesCommutes(r, L);
    }
  }

  lemma RatioSelf(x: real)
    requires x != 0.0
    ensures Ratio(x, x) == 1.0
  {
  }

  // With an over-long fade-in the piece's own ramps stay below the squeezed ones early on.
  lemma SlowerStart(x: real, L: real, fi: real, down: real, squeezedDown: real)
    requires 0.0 < x < L < fi && 0.0 <= down <= 1.0
    requires squeezedDown >= 1.0 - Ratio(x, L) && x < L - Times(L, Ratio(L, fi))
    ensures Times(Ratio(x, fi), down) < Times(Ratio(x, L), squeezedDown)
  {
    hide Times, Ratio;
    var a, b, r := Ratio(x, fi), Ratio(x, L), Ratio(L, fi);
    RatioPositive(x, fi);
    RatioPositive(x, L);
    TimesMonotone(down, 1.0, a);
    TimesCommutes(down, a);
    TimesOne(a);
    // a = b * r
    RatioTimes(x, L);
    RatioTimes(L, fi);
    RatioTimes(x, fi);
    TimesAssociates(b, r, fi);
    TimesCancels(a, Times(b, r), fi);
    // r < 1 - b
    TimesCommutes(L, r);
    TimesDistributes(1.0, b, L);
    TimesOne(L);
    assert Times(r, L) < Times(1.0 - b, L);
    if r >= 1.0 - b {
      TimesMonotone(1.0 - b, r, L);
    }
    TimesPositive(squeezedDown - r, b);
    TimesDistributes(squeezedDown, r, b);
    TimesCommutes(squeezedDown, b);
    TimesCommutes(r, b);
  }

  lemma DownBounds(q: Piece, t: real)
    requires q.seg.Has(t)
    ensures 0.0 <= DownOf(q, t) <= 1.0
  {
    hide Ratio;
    if q.fadeOut > 0.0 {
      var st := q.seg.start + Max(0.0, q.seg.Length() - q.fadeOut);
      if st <= t && t - st < q.fadeOut {
        RatioUnit(t - st, q.fadeOut);
      }
    }
  }

  // Where the fades do not fit, the squeezed ramps and the piece's own differ.
  lemma RampsDiffer(k: real -> real, q: Piece, t: real)
    requires Measures(k, [q.seg]) && q.seg.Length() > 0.0
    requires q.fadeIn > q.seg.Length() || q.fadeOut > q.seg.Length()
    requires q.seg.start < t < q.seg.start + TellTale(q) && t < q.seg.end
    requires t !in Starts(FadeInOf(q)) && t !in Starts(FadeOutOf(q))
    ensures Times(FadesGain(k, FadeInOf(q), t), FadesGain(k, FadeOutOf(q), t)) != PieceGain(q, t)
  {
    hide Times, Ratio, FadesGain, UpOf, DownOf;
    var x, L := t - q.seg.start, q.seg.Length();
    if q.fadeIn > L {
      SqueezedUp(k, q, t);
      DownBounds(q, t);
      DownSqueezed(k, q, t);
      SlowerStart(x, L, q.fadeIn, DownOf(q, t), FadesGain(k, FadeOutOf(q), t));
    } else {
      FadeInFits(k, q, t);
      SqueezedDown(k, q, t);
      RatioShrinks(x, L, q.fadeOut);
      FadesGainPositive(k, FadeInOf(q), q.seg, t);
      var a, b, c := FadesGain(k, FadeOutOf(q), t), DownOf(q, t), UpOf(q, t);
      ScaledDiffers(a, b, c);
      TimesCommutes(c, a);
      TimesCommutes(c, b);
    }
  }

  // Squeezed or not, the fade-out is never below the straight line to the piece's end.
  lemma DownSqueezed(k: real -> real, q: Piece, t: real)
    requires Measures(k, [q.seg]) && q.seg.start < t < q.seg.end
    ensures FadesGain(k, FadeOutOf(q), t) >= 1.0 - Ratio(t - q.seg.start, q.seg.Length())
  {
    hide Ratio, Times;
    var x, L := t - q.seg.start, q.seg.Length();
    RatioPositive(x, L);
    if q.fadeOut > L {
      SqueezedDown(k, q, t);
    } else {
      FadeOutFits(k, q, t);
      if q.fadeOut > 0.0 {
        var st := L - q.fadeOut;
        if x >= st {
          RatioComplement(L - x, x, L);
          RatioComplement(q.fadeOut - (x - st), x - st, q.fadeOut);
          if q.fadeOut < L {
            RatioShrinks(L - x, q.fadeOut, L);
          }
        }
      }
    }
  }

  // What the one-window plan gives at the buffer instant of t.
  lemma SimpleSample(p: EditParams, dur: real, k: real -> real, layout: seq<Piece>,
                     start: real, end: real, fades: seq<Fade>, v: real, t: real)
    requires p.speed > 0.0 && Reference(p, dur, k, layout) && dur <= SENTINEL_END
    requires 0.0 <= start < end && Segs(layout) == [Segment(start, end)]
    requires Locate(Segs(layout), Times(v, TempoOf(p))) == Some(t) && t < dur
    ensures PlanAt(ApplySimple(p, start, Some(end), fades), dur, v)
         == Some(Sample(t, Times(EffectiveVolume(p.volume), FadesGain(k, fades, t)), p.normalize))
  {
    hide Times, FadesGain, ExprGain, VolumeFilter, TempoOf, FilterChain, Locate, BaseAt, Reference;
    var plan := ApplySimple(p, start, Some(end), fades);
    var u := Times(v, TempoOf(p));
    FilterChainMeans(p, x => BaseAt(plan, dur, x), fades, Segs(layout), v);
    SimpleBase(start, Some(end), end, plan.filters, dur, u);
    ExprAtLocation(p, dur, k, layout, fades, u, t);
    TimesOne(Times(EffectiveVolume(p.volume), FadesGain(k, fades, t)));
  }

  lemma MergedGain(k: real -> real, q: Piece, fades: seq<Fade>, t: real)
    ensures FadesGain(k, MergedFades(q, fades), t)
         == Times(Times(FadesGain(k, FadeInOf(q), t), FadesGain(k, FadeOutOf(q), t)), FadesGain(k, fades, t))
  {
    hide Times, FadesGain, FadeInOf, FadeOutOf;
    FadesGainAppend(k, FadeInOf(q) + fades, FadeOutOf(q), t);
    FadesGainAppend(k, FadeInOf(q), fades, t);
    TimesSwap(FadesGain(k, FadeInOf(q), t), FadesGain(k, fades, t), FadesGain(k, FadeOutOf(q), t));
  }

  // Ramps that differ make gains that differ, whatever audible volume and fades they meet.
  lemma GainsDiffer(vol: real, squeezed: real, own: real, fades: real)
    requires vol != 0.0 && fades != 0.0 && squeezed != own
    ensures Times(vol, Times(squeezed, fades)) != Times(own, Times(vol, fades))
  {
    hide Times;
    GainOrder(vol, own, fades);
    ScaledDiffers(squeezed, own, fades);
    ScaledDiffers(Times(squeezed, fades), Times(own, fades), vol);
    TimesCommutes(vol, Times(squeezed, fades));
    TimesCommutes(vol, Times(own, fades));
  }

  // An instant of an ill-fitting piece where the plan is heard louder or softer than meant.
  lemma IllFittingPiece(p: EditParams, dur: real, k: real -> real, layout: seq<Piece>)
    requires Playable(p, dur) && Reference(p, dur, k, layout) && p.cuts != []
    requires |layout| == 1 && layout[0].seg.start < dur && !ShortcutFits(layout)
    ensures EncodePlan(p, dur).Ready? && !Plays(EncodePlan(p, dur).plan, p, dur, k, layout)
  {
    hide Times, FadesGain, PieceGain, TempoOf, PlanAt, ApplySimple, Kept, MergedFades;
    PiecesInWindow(p, dur, layout);
    ReferenceIsOffset(p, dur, k, layout);
    var q := layout[0];
    var plan := ApplySimple(p, q.seg.start, Some(q.seg.end), MergedFades(q, p.fades));
    assert q in layout && Segs(layout) == [q.seg] && plan == EncodePlan(p, dur).plan;
    SeparatedOne(Segs(layout));
    TellTalePositive(q);
    var t := Avoid(q.seg.start, Min(dur, Min(q.seg.end, q.seg.start + TellTale(q))),
                   Starts(p.fades) + Starts(FadeInOf(q)) + Starts(FadeOutOf(q)));
    assert Segs(layout)[0].Has(t) && InSegments(Segs(layout), t);
    LocateInvertsOffset(Segs(layout), t);
    TempoChainCorrect(p.speed);
    var v := TempoInstant(p, k(t));
    SimpleSample(p, dur, k, layout, q.seg.start, q.seg.end, MergedFades(q, p.fades), v, t);
    MergedGain(k, q, p.fades, t);
    RampsDiffer(k, q, t);
    FadesGainPositive(k, p.fades, q.seg, t);
    GainsDiffer(EffectiveVolume(p.volume), Times(FadesGain(k, FadeInOf(q), t), FadesGain(k, FadeOutOf(q), t)),
                PieceGain(q, t), FadesGain(k, p.fades, t));
    var meant := Sample(t, ReferenceGain(p, k, layout, t), p.normalize);
    assert Heard(p, dur, k, layout, Times(v, TempoOf(p)), meant);
    assert PlanAt(plan, dur, v) != Some(meant);
  }

  lemma TempoInstant(p: EditParams, u: real) returns (v: real)
    requires p.speed > 0.0
    ensures Times(v, TempoOf(p)) == u
  {
    hide Times, Ratio, TempoChain;
    TempoChainCorrect(p.speed);
    v := Ratio(u, TempoOf(p));
    RatioTimes(u, TempoOf(p));
  }

  // The shortcut taken for a lone kept piece plays the edit's meaning if and only if both of
  // its cut fades fit inside the piece.
  lemma ShortcutIffFits(params: EditParams, dur: real, k: real -> real, layout: seq<Piece>)
    requires FromApi(params) && 0.0 <= dur <= SENTINEL_END
    requires Reference(Cleaned(params), dur, k, layout) && Cleaned(params).cuts != []
    requires |layout| == 1 && layout[0].seg.start < dur
    ensures var p := Cleaned(params);
            EncodePlan(p, dur).Ready? && (Plays(EncodePlan(p, dur).plan, p, dur, k, layout) <==> ShortcutFits(layout))
  {
    hide Plays, Reference;
    CleanedFacts(params);
    var p := Cleaned(params);
    if ShortcutFits(layout) {
      EncodeWithCuts(p, dur, k, layout);
      NothingKeptIsEmpty(p, dur, k, layout);
    } else {
      IllFittingPiece(p, dur, k, layout);
    }
  }

  // ------------------------------------------------ which edits have a misfit, and when it is silent

  // Only a lone piece next to a cut with fades can fail to fit, so the edit is re-encoded.
  lemma MisfitIsEncoded(p: EditParams, dur: real, layout: seq<Piece>)
    requires p.speed > 0.0 && IsLayout(ByStart(p.cuts), p.trimStart, SourceEnd(p, dur), layout) &&
             !ShortcutFits(layout)
    ensures p.cuts != [] && !LosslessEligible(p)
  {
    var q := layout[0];
    assert Segs(layout)[0] == q.seg && q.seg.Length() > 0.0;
    assert q in layout;
    if p.cuts == [] {
      LayoutWithoutCuts(p, dur, layout);
    }
    if LosslessEligible(p) {
      PlainLayout(p.cuts, p.trimStart, SourceEnd(p, dur), layout);
    }
  }

  // A lone piece past the end of the file is silent, and so is the edit.
  lemma SilentPiece(p: EditParams, dur: real, k: real -> real, layout: seq<Piece>)
    requires Playable(p, dur) && Reference(p, dur, k, layout) && p.cuts != []
    requires |layout| == 1 && dur <= layout[0].seg.start
    ensures Refines(EncodePlan(p, dur), p, dur, k, layout)
  {
    hide Times, TempoOf, FilterChain, VolumeFilter, ExprGain, ApplySimple, Locate, MergedFades, KeptMeasure, IsLayout,
        PieceGain;
    PiecesInWindow(p, dur, layout);
    NothingKeptIsEmpty(p, dur, k, layout);
    ReferenceIsOffset(p, dur, k, layout);
    var q := layout[0];
    var plan := ApplySimple(p, q.seg.start, Some(q.seg.end), MergedFades(q, p.fades));
    assert q in layout && Segs(layout) == [q.seg] && EncodePlan(p, dur) == Ready(plan);
    SeparatedOne(Segs(layout));
    forall v, s ensures PlanAt(plan, dur, v) != Some(s) && !Heard(p, dur, k, layout, Times(v, TempoOf(p)), s) {
      SilentInstant(p, dur, q.seg, MergedFades(q, p.fades), v);
      if Kept(p, dur, s.source) {
        assert q.seg.Has(s.source);
      }
    }
  }

  lemma SilentInstant(p: EditParams, dur: real, seg: Segment, fades: seq<Fade>, v: real)
    requires p.speed > 0.0 && 0.0 <= seg.start < seg.end && dur <= seg.start && dur <= SENTINEL_END
    ensures PlanAt(ApplySimple(p, seg.start, Some(seg.end), fades), dur, v).None?
  {
    hide Times, TempoOf, FilterChain, VolumeFilter, ExprGain, Locate, BaseAt;
    var plan := ApplySimple(p, seg.start, Some(seg.end), fades);
    var u := Times(v, TempoOf(p));
    FilterChainMeans(p, x => BaseAt(plan, dur, x), fades, [seg], v);
    SimpleBase(seg.start, Some(seg.end), seg.end, plan.filters, dur, u);
    LocateBeyondEnd([seg], dur, u);
  }
}
