/** The combined volume-and-fades expression, and what it does to each source instant. */
module FadeFilter {
  import opened Basics
  import opened Timeline

  datatype FadeKind = FadeIn | FadeOut

  // A fade over original time, as the editor asks for it.
  datatype Fade = Fade(start: real, end: real, kind: FadeKind) {
    predicate Active(t: real) { start <= t < end }
  }

  // One multiplier of the expression: a ramp over buffer time, one everywhere else.
  datatype Factor = Factor(start: real, end: real, kind: FadeKind)

  datatype VolumeExpr = VolumeExpr(volume: Option<real>, factors: seq<Factor>)

  const VOLUME_TOLERANCE := 0.000001

  predicate UnityVolume(volume: real) {
    Abs(volume - 1.0) < VOLUME_TOLERANCE
  }

  function Ramp(kind: FadeKind, a: real, b: real, x: real): real {
    if x < a || b <= x then 1.0
    else if kind == FadeIn then Ratio(x - a, b - a)
    else Ratio(b - x, b - a)
  }

  function FactorValues(factors: seq<Factor>, t: real): seq<real> {
    if factors == [] then []
    else [Ramp(factors[0].kind, factors[0].start, factors[0].end, t)] + FactorValues(factors[1..], t)
  }

  function ExprGain(expr: Option<VolumeExpr>, t: real): real {
    if expr.None? then 1.0 else Times(expr.value.volume.GetOr(1.0), Product(FactorValues(expr.value.factors, t)))
  }

  function FadeFactors(fades: seq<Fade>, segs: seq<Segment>): seq<Factor> {
    if fades == [] then []
    else
      var bs, be := Offset(segs, fades[0].start), Offset(segs, fades[0].end);
      (if be - bs <= 0.0 then [] else [Factor(bs, be, fades[0].kind)]) + FadeFactors(fades[1..], segs)
  }

  function VolumeFilter(volume: real, fades: seq<Fade>, segs: seq<Segment>): Option<VolumeExpr> {
    WithVolume(volume, FadeFactors(fades, segs))
  }

  function WithVolume(volume: real, factors: seq<Factor>): Option<VolumeExpr> {
    if factors == [] && UnityVolume(volume) then None
    else Some(VolumeExpr(if UnityVolume(volume) then None else Some(volume), factors))
  }

  lemma {:induction false} FadeFactorsAppend(fades: seq<Fade>, f: Fade, segs: seq<Segment>)
    ensures FadeFactors(fades + [f], segs) == FadeFactors(fades, segs) + FadeFactors([f], segs)
  {
    if fades == [] {
      assert fades + [f] == [f];
    } else {
      assert (fades + [f])[1..] == fades[1..] + [f];
      FadeFactorsAppend(fades[1..], f, segs);
    }
  }

  method BuildVolumeAndFadesFilter(volume: real, fades: seq<Fade>, segs: seq<Segment>)
    returns (expr: Option<VolumeExpr>)
    ensures expr == VolumeFilter(volume, fades, segs)
  {
    var factors: seq<Factor> := [];
    for i := 0 to |fades|
      invariant factors == FadeFactors(fades[..i], segs)
    {
      var fade := fades[i];
      assert fades[..i + 1] == fades[..i] + [fade];
      FadeFactorsAppend(fades[..i], fade, segs);
      var bs := OrigToBufOffset(fade.start, segs);
      var be := OrigToBufOffset(fade.end, segs);
      var dur := be - bs;
      if dur <= 0.0 {
        continue;
      }
      factors := factors + [Factor(bs, be, fade.kind)];
    }
    assert fades[..|fades|] == fades;
    if factors == [] && UnityVolume(volume) {
      return None;
    }
    var scale: Option<real> := None;
    if !UnityVolume(volume) {
      scale := Some(volume);
    }
    return Some(VolumeExpr(scale, factors));
  }

  // ------------------------------------------------ what the fades mean over source time

  // A fade ramps in kept time over whatever was kept of it, and is one outside.
  ghost function FadeGain(k: real -> real, f: Fade, t: real): real {
    if !f.Active(t) then 1.0
    else
      var span := k(f.end) - k(f.start);
      if span <= 0.0 then 1.0
      else if f.kind == FadeIn then Ratio(k(t) - k(f.start), span)
      else Ratio(k(f.end) - k(t), span)
  }

  ghost function FadeGains(k: real -> real, fades: seq<Fade>, t: real): seq<real> {
    if fades == [] then [] else [FadeGain(k, fades[0], t)] + FadeGains(k, fades[1..], t)
  }

  ghost function FadesGain(k: real -> real, fades: seq<Fade>, t: real): real {
    Product(FadeGains(k, fades, t))
  }

  function EffectiveVolume(volume: real): real {
    if UnityVolume(volume) then 1.0 else volume
  }

  ghost predicate Measures(k: real -> real, segs: seq<Segment>) {
    forall t :: k(t) == Offset(segs, t)
  }

  // At a kept instant the factor built for a fade, or its absence, is that fade's gain.
  lemma FactorMeansFade(k: real -> real, f: Fade, segs: seq<Segment>, t: real)
    requires Separated(segs) && InSegments(segs, t) && Measures(k, segs)
    ensures var bs, be := Offset(segs, f.start), Offset(segs, f.end);
            if be - bs <= 0.0 then FadeGain(k, f, t) == 1.0
            else FadeGain(k, f, t) == Ramp(f.kind, bs, be, Offset(segs, t))
  {
    hide Ratio;
    if t < f.start {
      OffsetBefore(segs, t, f.start);
    } else {
      OffsetMonotone(segs, f.start, t);
    }
    if t < f.end {
      OffsetBefore(segs, t, f.end);
    } else {
      OffsetMonotone(segs, f.end, t);
    }
  }

  lemma FactorValuesStep(fades: seq<Fade>, segs: seq<Segment>, u: real)
    requires fades != []
    ensures var f, rest := fades[0], FactorValues(FadeFactors(fades[1..], segs), u);
            var bs, be := Offset(segs, f.start), Offset(segs, f.end);
            FactorValues(FadeFactors(fades, segs), u) ==
            if be - bs <= 0.0 then rest else [Ramp(f.kind, bs, be, u)] + rest
  {
    hide Ramp;
    var f, rest := fades[0], FadeFactors(fades[1..], segs);
    var head := Factor(Offset(segs, f.start), Offset(segs, f.end), f.kind);
    assert ([head] + rest)[1..] == rest && [] + rest == rest;
  }

  lemma SameProduct(dropped: bool, x: real, values: seq<real>, gains: seq<real>)
    requires Product(values) == Product(gains) && (dropped ==> x == 1.0)
    ensures Product(if dropped then values else [x] + values) == Product([x] + gains)
  {
    hide Times;
    ProductCons(x, values);
    ProductCons(x, gains);
    TimesOne(Product(gains));
  }

  lemma {:induction false} FactorsMeanFades(k: real -> real, fades: seq<Fade>, segs: seq<Segment>, t: real)
    requires Separated(segs) && InSegments(segs, t) && Measures(k, segs)
    ensures Product(FactorValues(FadeFactors(fades, segs), Offset(segs, t))) == FadesGain(k, fades, t)
  {
    hide Times, Ratio, FadeGain, Ramp;
    if fades != [] {
      var u := Offset(segs, t);
      FactorsMeanFades(k, fades[1..], segs, t);
      FactorMeansFade(k, fades[0], segs, t);
      FactorValuesStep(fades, segs, u);
      SameProduct(Offset(segs, fades[0].end) - Offset(segs, fades[0].start) <= 0.0, FadeGain(k, fades[0], t),
                  FactorValues(FadeFactors(fades[1..], segs), u), FadeGains(k, fades[1..], t));
    }
  }

  lemma WithVolumeGain(volume: real, factors: seq<Factor>, u: real)
    ensures ExprGain(WithVolume(volume, factors), u) ==
              Times(EffectiveVolume(volume), Product(FactorValues(factors, u)))
  {
    hide Times;
    TimesOne(Product(FactorValues(factors, u)));
    assert factors == [] ==> FactorValues(factors, u) == [];
    TimesOne(1.0);
  }

  // The whole expression at the buffer instant of t: the volume times every fade's gain.
  lemma VolumeFilterMeans(k: real -> real, volume: real, fades: seq<Fade>, segs: seq<Segment>, t: real)
    requires Separated(segs) && InSegments(segs, t) && Measures(k, segs)
    ensures ExprGain(VolumeFilter(volume, fades, segs), Offset(segs, t)) ==
              Times(EffectiveVolume(volume), FadesGain(k, fades, t))
  {
    hide Times, Ratio, FadeGain, ExprGain;
    FactorsMeanFades(k, fades, segs, t);
    WithVolumeGain(volume, FadeFactors(fades, segs), Offset(segs, t));
  }

  // ------------------------------------------------ fades that do not overlap

  ghost predicate Disjoint(fades: seq<Fade>) {
    forall i, j :: 0 <= i < j < |fades| ==> fades[i].end <= fades[j].start || fades[j].end <= fades[i].start
  }

  lemma {:induction false} NoActiveFade(k: real -> real, fades: seq<Fade>, t: real)
    requires forall i :: 0 <= i < |fades| ==> !fades[i].Active(t)
    ensures FadesGain(k, fades, t) == 1.0
  {
    hide Times, Ratio;
    if fades != [] {
      NoActiveFade(k, fades[1..], t);
      ProductCons(1.0, FadeGains(k, fades[1..], t));
      TimesOne(1.0);
    }
  }

  lemma {:induction false} OnlyActiveFade(k: real -> real, fades: seq<Fade>, i: nat, t: real)
    requires i < |fades| && Disjoint(fades) && fades[i].Active(t)
    ensures FadesGain(k, fades, t) == FadeGain(k, fades[i], t)
  {
    hide Times, Ratio;
    TimesOne(FadeGain(k, fades[0], t));
    TimesOne(FadesGain(k, fades[1..], t));
    ProductCons(FadeGain(k, fades[0], t), FadeGains(k, fades[1..], t));
    if i == 0 {
      NoActiveFade(k, fades[1..], t);
    } else {
      assert fades[i] == fades[1..][i - 1];
      assert FadeGain(k, fades[0], t) == 1.0;
      OnlyActiveFade(k, fades[1..], i - 1, t);
    }
  }

  function BufferRamp(f: Fade, segs: seq<Segment>, t: real): real {
    Ramp(f.kind, Offset(segs, f.start), Offset(segs, f.end), Offset(segs, t))
  }

  lemma RampIsFadeGain(k: real -> real, f: Fade, segs: seq<Segment>, t: real)
    requires Separated(segs) && InSegments(segs, t) && Measures(k, segs) && f.Active(t)
    ensures BufferRamp(f, segs, t) == FadeGain(k, f, t)
  {
    hide Ratio;
    OffsetMonotone(segs, f.start, t);
    OffsetBefore(segs, t, f.end);
  }

  lemma QuietOutside(f: Fade, g: Fade, segs: seq<Segment>, t: real)
    requires Separated(segs) && f.Active(t)
    requires f.end <= g.start || g.end <= f.start
    ensures BufferRamp(g, segs, t) == 1.0 || Offset(segs, f.end) == Offset(segs, t)
  {
    hide Ratio;
    OffsetMonotone(segs, f.start, t);
    OffsetMonotone(segs, t, f.end);
    if f.end <= g.start {
      OffsetMonotone(segs, f.end, g.start);
    } else {
      OffsetMonotone(segs, g.end, f.start);
    }
  }

  lemma SingleGain(k: real -> real, volume: real, fades: seq<Fade>, segs: seq<Segment>, i: nat, t: real)
    requires Separated(segs) && InSegments(segs, t) && Measures(k, segs)
    requires i < |fades| && Disjoint(fades) && fades[i].Active(t)
    ensures ExprGain(VolumeFilter(volume, fades, segs), Offset(segs, t)) ==
              Times(EffectiveVolume(volume), BufferRamp(fades[i], segs, t))
  {
    hide Times, FadeGain, FadesGain, BufferRamp, ExprGain, VolumeFilter;
    OnlyActiveFade(k, fades, i, t);
    RampIsFadeGain(k, fades[i], segs, t);
    VolumeFilterMeans(k, volume, fades, segs, t);
  }

  // Fades apart in original time stay apart in the buffer, so at each instant the
  // expression is the volume times the one ramp that is running.
  lemma SingleRamp(volume: real, fades: seq<Fade>, segs: seq<Segment>, i: nat, t: real)
    requires Separated(segs) && InSegments(segs, t)
    requires i < |fades| && Disjoint(fades) && fades[i].Active(t)
    ensures ExprGain(VolumeFilter(volume, fades, segs), Offset(segs, t)) ==
              Times(EffectiveVolume(volume), BufferRamp(fades[i], segs, t))
    ensures forall j :: 0 <= j < |fades| && j != i ==> BufferRamp(fades[j], segs, t) == 1.0
  {
    hide Ratio, Times, ExprGain, VolumeFilter;
    SingleGain(x => Offset(segs, x), volume, fades, segs, i, t);
    forall j | 0 <= j < |fades| && j != i
      ensures BufferRamp(fades[j], segs, t) == 1.0
    {
      assert fades[i].end <= fades[j].start || fades[j].end <= fades[i].start;
      OffsetBefore(segs, t, fades[i].end);
      QuietOutside(fades[i], fades[j], segs, t);
    }
  }

  lemma {:induction false} FactorsUnit(factors: seq<Factor>, t: real)
    ensures 0.0 <= Product(FactorValues(factors, t)) <= 1.0
  {
    hide Times, Ratio, Ramp;
    if factors != [] {
      FactorsUnit(factors[1..], t);
      var x, rest := Ramp(factors[0].kind, factors[0].start, factors[0].end, t), FactorValues(factors[1..], t);
      RampUnit(factors[0].kind, factors[0].start, factors[0].end, t);
      TimesUnit(x, Product(rest));
      ProductCons(x, rest);
    }
  }

  lemma RampUnit(kind: FadeKind, a: real, b: real, x: real)
    ensures 0.0 <= Ramp(kind, a, b, x) <= 1.0
  {
    hide Ratio;
    if a <= x < b {
      RatioUnit(x - a, b - a);
      RatioUnit(b - x, b - a);
    }
  }

  // A fade leaves no factor behind exactly when no kept time lies inside it.
  lemma FadeDropped(f: Fade, segs: seq<Segment>)
    requires Separated(segs) && f.start < f.end
    ensures FadeFactors([f], segs) == [] <==> forall t :: f.Active(t) ==> !InSegments(segs, t)
  {
    OffsetStandsStill(segs, f.start, f.end);
    OffsetMonotone(segs, f.start, f.end);
    assert FadeFactors([f][1..], segs) == [];
    assert forall t :: f.start <= t < f.end <==> f.Active(t);
  }
}
