/** Edits without cuts and without a trim end: fades are placed against a far sentinel, not the file's end. */
module EditUntrimmed {
  import opened Basics
  import opened Timeline
  import opened CutSweep
  import opened FadeFilter
  import opened SpeedChain
  import opened EditPlan
  import opened EditCorrect
  import opened EditTheorems
  import opened EditShortcut

  // The fade is running when the file ends.
  predicate RunsPast(p: EditParams, dur: real, f: Fade) {
    Max(f.start, p.trimStart) < dur < Min(f.end, SENTINEL_END)
  }

  predicate SomePast(p: EditParams, dur: real, fades: seq<Fade>) {
    exists f :: f in fades && RunsPast(p, dur, f)
  }

  predicate SomeOutPast(p: EditParams, dur: real, fades: seq<Fade>) {
    exists f :: f in fades && OutPast(p, dur, f)
  }

  // A fade that runs past the end of the file, in an edit that is told nothing of where that is.
  predicate EndMisfit(p: EditParams, dur: real) {
    Untrimmed(p) && SomePast(p, dur, p.fades)
  }

  predicate Untrimmed(p: EditParams) { p.cuts == [] && p.trimEnd.None? }

  // The edit as the plan has it: trimmed at the sentinel.
  function ToSentinel(p: EditParams): EditParams {
    p.(trimEnd := Some(SENTINEL_END))
  }

  // ------------------------------------------------ the plan is that of the edit trimmed at the sentinel

  lemma SameWindow(start: real, dur: real, u: real)
    requires dur <= SENTINEL_END
    ensures WindowAt(WindowOf(start, None), dur, u) == WindowAt(WindowOf(start, Some(SENTINEL_END)), dur, u)
  {
  }

  lemma SentinelPlan(p: EditParams, dur: real, v: real)
    requires p.speed > 0.0 && Untrimmed(p) && dur <= SENTINEL_END
    ensures PlanAt(EncodePlan(p, dur).plan, dur, v) == PlanAt(EncodePlan(ToSentinel(p), dur).plan, dur, v)
  {
    SameTempo(p);
    hide Times, TempoOf, FilterChain, ExprGain, VolumeFilter, WindowOf, WindowAt;
    var a, b := EncodePlan(p, dur).plan, EncodePlan(ToSentinel(p), dur).plan;
    var segs := [Segment(p.trimStart, SENTINEL_END)];
    var u := Times(v, TempoOf(p));
    FilterChainMeans(p, x => BaseAt(a, dur, x), p.fades, segs, v);
    FilterChainMeans(ToSentinel(p), x => BaseAt(b, dur, x), p.fades, segs, v);
    SameWindow(p.trimStart, dur, u);
  }

  // ------------------------------------------------ the two references differ in the fades alone

  // What is kept of an uncut edit, and how much of it comes before x.
  lemma UncutReference(p: EditParams, dur: real, k: real -> real, layout: seq<Piece>)
    requires Reference(p, dur, k, layout) && p.cuts == [] && p.trimStart < SourceEnd(p, dur)
    ensures Measures(k, [Segment(p.trimStart, SourceEnd(p, dur))])
    ensures forall t :: Kept(p, dur, t) <==> p.trimStart <= t < SourceEnd(p, dur)
    ensures forall t :: ReferenceGain(p, k, layout, t) == Times(EffectiveVolume(p.volume), FadesGain(k, p.fades, t))
  {
    hide Times, FadesGain;
    LayoutWithoutCuts(p, dur, layout);
    PlainLayoutSegments(p, dur, layout);
    ReferenceIsOffset(p, dur, k, layout);
    forall t ensures ReferenceGain(p, k, layout, t) == Times(EffectiveVolume(p.volume), FadesGain(k, p.fades, t)) {
      TimesOne(Times(EffectiveVolume(p.volume), FadesGain(k, p.fades, t)));
    }
  }

  lemma SameOffset(k: real -> real, k': real -> real, start: real, end: real, far: real, t: real)
    requires Measures(k, [Segment(start, end)]) && Measures(k', [Segment(start, far)])
    requires start <= t < end <= far
    ensures k(t) == k'(t) == t - start
  {
    LoneOffset(k, Segment(start, end), t);
    LoneOffset(k', Segment(start, far), t);
  }

  // The fades have the same gain at every instant that is heard.
  ghost predicate GainsAgree(p: EditParams, dur: real, k: real -> real, k': real -> real) {
    forall t :: p.trimStart <= t < dur ==> FadesGain(k, p.fades, t) == FadesGain(k', p.fades, t)
  }

  lemma HeardAlike(p: EditParams, dur: real, k: real -> real, layout: seq<Piece>, k': real -> real, layout': seq<Piece>,
                   u: real, s: Sample)
    requires Untrimmed(p) && p.trimStart < dur <= SENTINEL_END
    requires Reference(p, dur, k, layout) && Reference(ToSentinel(p), dur, k', layout')
    ensures FadesGain(k, p.fades, s.source) == FadesGain(k', p.fades, s.source) ==>
              (Heard(p, dur, k, layout, u, s) <==> Heard(ToSentinel(p), dur, k', layout', u, s))
  {
    hide Times, FadesGain, ReferenceGain;
    UncutReference(p, dur, k, layout);
    UncutReference(ToSentinel(p), dur, k', layout');
    hide Reference, Kept;
    if p.trimStart <= s.source < dur {
      SameOffset(k, k', p.trimStart, dur, SENTINEL_END, s.source);
    }
  }

  lemma AgreeingGainsPlay(p: EditParams, dur: real, k: real -> real, layout: seq<Piece>,
                          k': real -> real, layout': seq<Piece>)
    requires Playable(p, dur) && Untrimmed(p) && p.trimStart < dur
    requires Reference(p, dur, k, layout) && Reference(ToSentinel(p), dur, k', layout') && GainsAgree(p, dur, k, k')
    requires Plays(EncodePlan(ToSentinel(p), dur).plan, ToSentinel(p), dur, k', layout')
    ensures Plays(EncodePlan(p, dur).plan, p, dur, k, layout)
  {
    UncutReference(p, dur, k, layout);
    UncutReference(ToSentinel(p), dur, k', layout');
    SameTempo(p);
    hide Times, FadesGain, ReferenceGain, PlanAt, EncodePlan, TempoOf, Reference;
    var plan := EncodePlan(p, dur).plan;
    forall v, s ensures PlanAt(plan, dur, v) == Some(s) <==> Heard(p, dur, k, layout, Times(v, TempoOf(p)), s) {
      SentinelPlan(p, dur, v);
      HeardAlike(p, dur, k, layout, k', layout', Times(v, TempoOf(p)), s);
    }
  }

  lemma SameTempo(p: EditParams)
    requires p.speed > 0.0
    ensures TempoOf(ToSentinel(p)) == TempoOf(p)
  {
  }

  // One instant at which the fades differ is one at which the plan does not play the reference.
  lemma DifferingGainMisplays(p: EditParams, dur: real, k: real -> real, layout: seq<Piece>,
                              k': real -> real, layout': seq<Piece>, t: real)
    requires Playable(p, dur) && Untrimmed(p) && p.trimStart <= t < dur
    requires Reference(p, dur, k, layout) && Reference(ToSentinel(p), dur, k', layout')
    requires Plays(EncodePlan(ToSentinel(p), dur).plan, ToSentinel(p), dur, k', layout')
    requires FadesGain(k, p.fades, t) != FadesGain(k', p.fades, t)
    ensures !Plays(EncodePlan(p, dur).plan, p, dur, k, layout)
  {
    UncutReference(p, dur, k, layout);
    UncutReference(ToSentinel(p), dur, k', layout');
    SameOffset(k, k', p.trimStart, dur, SENTINEL_END, t);
    SameTempo(p);
    hide Times, FadesGain, PlanAt, EncodePlan, TempoOf, Reference, ReferenceGain, Kept;
    var v := TempoInstant(p, k(t));
    SentinelPlan(p, dur, v);
    var vol := EffectiveVolume(p.volume);
    var s := Sample(t, Times(vol, FadesGain(k', p.fades, t)), p.normalize);
    assert Heard(ToSentinel(p), dur, k', layout', Times(v, TempoOf(p)), s);
    assert PlanAt(EncodePlan(p, dur).plan, dur, v) == Some(s);
    VolumeAudible(p.volume);
    ScaledDiffers(FadesGain(k, p.fades, t), FadesGain(k', p.fades, t), vol);
    TimesCommutes(vol, FadesGain(k, p.fades, t));
    TimesCommutes(vol, FadesGain(k', p.fades, t));
    assert !Heard(p, dur, k, layout, Times(v, TempoOf(p)), s);
  }

  lemma VolumeAudible(volume: real)
    requires volume != 0.0
    ensures EffectiveVolume(volume) != 0.0
  {
  }

  // ------------------------------------------------ one fade against both ends

  // Where a fade's ramp begins and ends in a single window.
  lemma FadeInWindow(k: real -> real, f: Fade, start: real, end: real, t: real)
    requires Measures(k, [Segment(start, end)]) && start <= t < end && f.Active(t)
    ensures var m, e := Max(f.start, start), Min(f.end, end);
            && m <= t < e
            && FadeGain(k, f, t) == if f.kind == FadeKind.FadeIn then Ratio(t - m, e - m) else Ratio(e - t, e - m)
  {
    hide Ratio;
    var seg := Segment(start, end);
    LoneOffset(k, seg, t);
    LoneOffset(k, seg, f.start);
    LoneOffset(k, seg, f.end);
  }

  lemma FadeAgrees(p: EditParams, dur: real, k: real -> real, k': real -> real, f: Fade, t: real)
    requires Measures(k, [Segment(p.trimStart, dur)]) && Measures(k', [Segment(p.trimStart, SENTINEL_END)])
    requires p.trimStart <= t < dur <= SENTINEL_END && !RunsPast(p, dur, f)
    ensures FadeGain(k, f, t) == FadeGain(k', f, t)
  {
    hide Ratio;
    if f.Active(t) {
      FadeInWindow(k, f, p.trimStart, dur, t);
      FadeInWindow(k', f, p.trimStart, SENTINEL_END, t);
    }
  }

  lemma {:induction false} FadesAgree(p: EditParams, dur: real, k: real -> real, k': real -> real, fades: seq<Fade>,
                                      t: real)
    requires Measures(k, [Segment(p.trimStart, dur)]) && Measures(k', [Segment(p.trimStart, SENTINEL_END)])
    requires p.trimStart <= t < dur <= SENTINEL_END && forall f :: f in fades ==> !RunsPast(p, dur, f)
    ensures FadesGain(k, fades, t) == FadesGain(k', fades, t)
  {
    hide Times, FadeGain, RunsPast;
    if fades != [] {
      FadeAgrees(p, dur, k, k', fades[0], t);
      FadesAgree(p, dur, k, k', fades[1..], t);
      ProductCons(FadeGain(k, fades[0], t), FadeGains(k, fades[1..], t));
      ProductCons(FadeGain(k', fades[0], t), FadeGains(k', fades[1..], t));
    }
  }

  // ------------------------------------------------ fades past the end, at two instants

  lemma RatioChain(x: real, y: real, z: real)
    requires y != 0.0 && z != 0.0
    ensures Ratio(x, z) == Times(Ratio(x, y), Ratio(y, z))
  {
    hide Times, Ratio;
    RatioTimes(x, y);
    RatioTimes(y, z);
    RatioTimes(x, z);
    TimesAssociates(Ratio(x, y), Ratio(y, z), z);
    TimesCancels(Ratio(x, z), Times(Ratio(x, y), Ratio(y, z)), z);
  }

  lemma RatioAdds(x: real, y: real, z: real)
    requires z != 0.0
    ensures Ratio(x, z) + Ratio(y, z) == Ratio(x + y, z)
  {
  }

  // How many times louder a fade-out to e is than one to d, both from m.
  function OutFactor(m: real, d: real, e: real, t: real): real
    requires m < e && t < d
  {
    Times(Ratio(d - m, e - m), 1.0 + Ratio(e - d, d - t))
  }

  lemma OutFactorRight(m: real, d: real, e: real, t: real)
    requires m < t < d < e
    ensures Ratio(e - t, e - m) == Times(Ratio(d - t, d - m), OutFactor(m, d, e, t)) && OutFactor(m, d, e, t) > 0.0
  {
    hide Times, Ratio;
    var r, c, q := Ratio(d - t, d - m), Ratio(d - m, e - m), Ratio(e - d, d - t);
    RatioPositive(d - m, e - m);
    RatioPositive(e - d, d - t);
    TimesPositive(c, 1.0 + q);
    TimesAssociates(r, c, 1.0 + q);
    RatioChain(d - t, d - m, e - m);
    var w := Ratio(d - t, e - m);
    assert Times(r, OutFactor(m, d, e, t)) == Times(w, 1.0 + q);
    TimesCommutes(w, 1.0 + q);
    TimesDistributes(1.0 + q, q, w);
    TimesOne(w);
    RatioChain(e - d, d - t, e - m);
    assert Times(q, w) == Ratio(e - d, e - m);
    RatioAdds(d - t, e - d, e - m);
    assert Times(1.0 + q, w) == w + Times(q, w);
  }

  lemma OutFactorGrows(m: real, d: real, e: real, t1: real, t2: real)
    requires m < t1 < t2 < d < e
    ensures OutFactor(m, d, e, t1) < OutFactor(m, d, e, t2)
  {
    hide Times, Ratio;
    var c, q1, q2 := Ratio(d - m, e - m), Ratio(e - d, d - t1), Ratio(e - d, d - t2);
    RatioPositive(d - m, e - m);
    RatioShrinks(e - d, d - t2, d - t1);
    TimesPositive(q2 - q1, c);
    TimesDistributes(1.0 + q2, 1.0 + q1, c);
    TimesCommutes(c, 1.0 + q1);
    TimesCommutes(c, 1.0 + q2);
  }

  // The factors by which the plan's fades are louder than meant, at two instants.
  datatype Louder = Louder(early: real, late: real)

  ghost predicate Scales(l: Louder, meant1: real, meant2: real, played1: real, played2: real) {
    && l.early > 0.0 && l.late > 0.0
    && played1 == Times(meant1, l.early) && played2 == Times(meant2, l.late)
  }

  // Fade-outs past the end grow ever louder than meant, fade-ins stay softer by a constant.
  ghost predicate Drifts(l: Louder, outs: bool, any: bool) {
    && l.early <= l.late
    && (outs ==> l.early < l.late)
    && (!outs ==> l.early == l.late <= 1.0)
    && (!outs && any ==> l.late < 1.0)
  }

  predicate OutPast(p: EditParams, dur: real, f: Fade) {
    RunsPast(p, dur, f) && f.kind == FadeKind.FadeOut
  }

  lemma OneFadeDrifts(p: EditParams, dur: real, k: real -> real, k': real -> real, f: Fade, t1: real, t2: real)
    returns (l: Louder)
    requires Measures(k, [Segment(p.trimStart, dur)]) && Measures(k', [Segment(p.trimStart, SENTINEL_END)])
    requires p.trimStart < t1 < t2 < dur <= SENTINEL_END && (RunsPast(p, dur, f) ==> f.start < t1)
    ensures Scales(l, FadeGain(k, f, t1), FadeGain(k, f, t2), FadeGain(k', f, t1), FadeGain(k', f, t2))
    ensures Drifts(l, OutPast(p, dur, f), RunsPast(p, dur, f))
  {
    hide Times, Ratio, FadeGain;
    if !RunsPast(p, dur, f) {
      l := Louder(1.0, 1.0);
      FadeAgrees(p, dur, k, k', f, t1);
      FadeAgrees(p, dur, k, k', f, t2);
      TimesOne(FadeGain(k, f, t1));
      TimesOne(FadeGain(k, f, t2));
    } else {
      var m, e := Max(f.start, p.trimStart), Min(f.end, SENTINEL_END);
      FadeInWindow(k, f, p.trimStart, dur, t1);
      FadeInWindow(k, f, p.trimStart, dur, t2);
      FadeInWindow(k', f, p.trimStart, SENTINEL_END, t1);
      FadeInWindow(k', f, p.trimStart, SENTINEL_END, t2);
      if f.kind == FadeKind.FadeIn {
        var c := Ratio(dur - m, e - m);
        l := Louder(c, c);
        RatioChain(t1 - m, dur - m, e - m);
        RatioChain(t2 - m, dur - m, e - m);
        RatioPositive(dur - m, e - m);
        RatioShrinks(dur - m, dur - m, e - m);
        RatioSelf(dur - m);
      } else {
        l := Louder(OutFactor(m, dur, e, t1), OutFactor(m, dur, e, t2));
        OutFactorRight(m, dur, e, t1);
        OutFactorRight(m, dur, e, t2);
        OutFactorGrows(m, dur, e, t1, t2);
      }
    }
  }

  lemma ScalesTogether(a: Louder, b: Louder, x1: real, x2: real, y1: real, y2: real,
                       u1: real, u2: real, w1: real, w2: real)
    requires Scales(a, x1, x2, u1, u2) && Scales(b, y1, y2, w1, w2)
    ensures Scales(Louder(Times(a.early, b.early), Times(a.late, b.late)),
                   Times(x1, y1), Times(x2, y2), Times(u1, w1), Times(u2, w2))
  {
    hide Times;
    TimesPositive(a.early, b.early);
    TimesPositive(a.late, b.late);
    FourFactors(x1, a.early, y1, b.early);
    FourFactors(x2, a.late, y2, b.late);
  }

  lemma FourFactors(x: real, a: real, y: real, b: real)
    ensures Times(Times(x, a), Times(y, b)) == Times(Times(x, y), Times(a, b))
  {
    hide Times;
    TimesAssociates(Times(x, a), y, b);
    TimesSwap(x, a, y);
    TimesAssociates(Times(x, y), a, b);
  }

  lemma DriftsTogether(a: Louder, b: Louder, outsA: bool, anyA: bool, outsB: bool, anyB: bool)
    requires a.early > 0.0 && b.early > 0.0 && Drifts(a, outsA, anyA) && Drifts(b, outsB, anyB)
    ensures Drifts(Louder(Times(a.early, b.early), Times(a.late, b.late)), outsA || outsB, anyA || anyB)
  {
    hide Times;
    TimesMonotone(a.early, a.late, b.early);
    TimesMonotone(b.early, b.late, a.late);
    TimesCommutes(a.late, b.early);
    TimesCommutes(a.late, b.late);
    if outsA {
      TimesPositive(a.late - a.early, b.early);
      TimesDistributes(a.late, a.early, b.early);
    }
    if outsB {
      TimesPositive(b.late - b.early, a.late);
      TimesDistributes(b.late, b.early, a.late);
    }
    if !outsA && !outsB {
      TimesMonotone(a.late, 1.0, b.late);
      TimesOne(b.late);
      if anyA {
        TimesPositive(1.0 - a.late, b.late);
        TimesDistributes(1.0, a.late, b.late);
      }
    }
  }

  lemma {:induction false} FadesDrift(p: EditParams, dur: real, k: real -> real, k': real -> real, fades: seq<Fade>,
                                      t1: real, t2: real) returns (l: Louder)
    requires Measures(k, [Segment(p.trimStart, dur)]) && Measures(k', [Segment(p.trimStart, SENTINEL_END)])
    requires p.trimStart < t1 < t2 < dur <= SENTINEL_END
    requires forall f :: f in fades && RunsPast(p, dur, f) ==> f.start < t1
    ensures Scales(l, FadesGain(k, fades, t1), FadesGain(k, fades, t2),
                   FadesGain(k', fades, t1), FadesGain(k', fades, t2))
    ensures Drifts(l, SomeOutPast(p, dur, fades), SomePast(p, dur, fades))
  {
    hide Times, FadeGain, RunsPast, Drifts, Scales, Measures;
    if fades == [] {
      l := Louder(1.0, 1.0);
      NoDrift();
    } else {
      var f, rest := fades[0], fades[1..];
      var a := OneFadeDrifts(p, dur, k, k', f, t1, t2);
      var b := FadesDrift(p, dur, k, k', rest, t1, t2);
      l := Louder(Times(a.early, b.early), Times(a.late, b.late));
      GainsCons(k, fades, t1);
      GainsCons(k, fades, t2);
      GainsCons(k', fades, t1);
      GainsCons(k', fades, t2);
      ScalesTogether(a, b, FadeGain(k, f, t1), FadeGain(k, f, t2), FadesGain(k, rest, t1), FadesGain(k, rest, t2),
                     FadeGain(k', f, t1), FadeGain(k', f, t2), FadesGain(k', rest, t1), FadesGain(k', rest, t2));
      assert a.early > 0.0 && b.early > 0.0 by {
        ScalesPositive(a, FadeGain(k, f, t1), FadeGain(k, f, t2), FadeGain(k', f, t1), FadeGain(k', f, t2));
        ScalesPositive(b, FadesGain(k, rest, t1), FadesGain(k, rest, t2),
                       FadesGain(k', rest, t1), FadesGain(k', rest, t2));
      }
      DriftsTogether(a, b, OutPast(p, dur, f), RunsPast(p, dur, f),
                     SomeOutPast(p, dur, rest), SomePast(p, dur, rest));
      assert forall g :: g in fades <==> g == f || g in rest;
    }
  }

  lemma ScalesPositive(l: Louder, x1: real, x2: real, y1: real, y2: real)
    requires Scales(l, x1, x2, y1, y2)
    ensures l.early > 0.0 && l.late > 0.0
  {
  }

  lemma NoDrift()
    ensures Scales(Louder(1.0, 1.0), 1.0, 1.0, 1.0, 1.0) && Drifts(Louder(1.0, 1.0), false, false)
  {
  }

  lemma GainsCons(k: real -> real, fades: seq<Fade>, t: real)
    requires fades != []
    ensures FadesGain(k, fades, t) == Times(FadeGain(k, fades[0], t), FadesGain(k, fades[1..], t))
  {
    hide Times, FadeGain;
    ProductCons(FadeGain(k, fades[0], t), FadeGains(k, fades[1..], t));
  }

  // The last moment before the end at which a fade past the end begins.
  lemma {:induction false} LastBegin(p: EditParams, dur: real, fades: seq<Fade>) returns (lo: real)
    requires p.trimStart < dur
    ensures p.trimStart <= lo < dur && forall f :: f in fades && RunsPast(p, dur, f) ==> f.start <= lo
  {
    if fades == [] {
      lo := p.trimStart;
    } else {
      lo := LastBegin(p, dur, fades[1..]);
      if RunsPast(p, dur, fades[0]) {
        lo := Max(lo, fades[0].start);
      }
    }
  }

  // With a fade past the end there is an instant at which it is played other than meant.
  lemma SomeGainDiffers(p: EditParams, dur: real, k: real -> real, k': real -> real) returns (t: real)
    requires Measures(k, [Segment(p.trimStart, dur)]) && Measures(k', [Segment(p.trimStart, SENTINEL_END)])
    requires dur <= SENTINEL_END && SomePast(p, dur, p.fades)
    ensures p.trimStart <= t < dur && FadesGain(k, p.fades, t) != FadesGain(k', p.fades, t)
  {
    hide FadesGain, Measures;
    var lo := LastBegin(p, dur, p.fades);
    var t1 := Avoid(lo, dur, Starts(p.fades));
    var t2 := Avoid(t1, dur, Starts(p.fades));
    hide RunsPast;
    assert Measures(k, [Segment(p.trimStart, dur)]);
    FadesGainPositive(k, p.fades, Segment(p.trimStart, dur), t1);
    FadesGainPositive(k, p.fades, Segment(p.trimStart, dur), t2);
    var l := FadesDrift(p, dur, k, k', p.fades, t1, t2);
    if FadesGain(k, p.fades, t1) != FadesGain(k', p.fades, t1) {
      t := t1;
    } else {
      t := t2;
      UnitFactor(FadesGain(k, p.fades, t1), l.early);
      if FadesGain(k, p.fades, t2) == FadesGain(k', p.fades, t2) {
        UnitFactor(FadesGain(k, p.fades, t2), l.late);
      }
    }
  }

  lemma UnitFactor(x: real, r: real)
    requires x > 0.0
    ensures Times(x, r) == x ==> r == 1.0
  {
    hide Times;
    if Times(x, r) == x {
      TimesCommutes(x, r);
      TimesOne(x);
      TimesCancels(r, 1.0, x);
    }
  }

  // ------------------------------------------------ the exact condition

  // A window that starts past the end of the file is silent.
  lemma NothingBeforeEnd(p: EditParams, dur: real, k: real -> real, layout: seq<Piece>)
    requires Playable(p, dur) && Untrimmed(p) && Reference(p, dur, k, layout) && dur <= p.trimStart
    ensures Plays(EncodePlan(p, dur).plan, p, dur, k, layout) && !EndMisfit(p, dur)
  {
    LayoutWithoutCuts(p, dur, layout);
    EmptyWindowPlan(p, dur, k, layout);
  }

  // Re-encoding without cuts and trim end plays what is meant if and only if no fade runs past
  // the end of the file.
  lemma UntrimmedIff(p: EditParams, dur: real, k: real -> real, layout: seq<Piece>)
    requires Playable(p, dur) && Untrimmed(p) && Reference(p, dur, k, layout)
    ensures EncodePlan(p, dur).Ready? && (Plays(EncodePlan(p, dur).plan, p, dur, k, layout) <==> !EndMisfit(p, dur))
  {
    if dur <= p.trimStart {
      NothingBeforeEnd(p, dur, k, layout);
    } else {
      var k', layout' := ReferenceExists(ToSentinel(p), dur);
      EncodeTrimmed(ToSentinel(p), dur, k', layout');
      UncutReference(p, dur, k, layout);
      UncutReference(ToSentinel(p), dur, k', layout');
      hide Reference, Plays, Heard, ReferenceGain, Kept, FadesGain, Measures, RunsPast;
      if EndMisfit(p, dur) {
        var t := SomeGainDiffers(p, dur, k, k');
        DifferingGainMisplays(p, dur, k, layout, k', layout', t);
      } else {
        forall t | p.trimStart <= t < dur ensures FadesGain(k, p.fades, t) == FadesGain(k', p.fades, t) {
          FadesAgree(p, dur, k, k', p.fades, t);
        }
        AgreeingGainsPlay(p, dur, k, layout, k', layout');
      }
    }
  }
}
