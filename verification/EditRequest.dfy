/** The main results once more, on the request as it comes in, before any default is filled in. */
module EditRequest {
  import opened Basics
  import opened Timeline
  import opened StableSort
  import opened CutSweep
  import opened FadeFilter
  import opened SpeedChain
  import opened EditPlan
  import opened EditCorrect
  import opened EditTheorems
  import opened EditShortcut
  import opened EditUntrimmed
  import opened EditMeaning

  // ------------------------------------------------ what a request means

  // An instant is meant to be heard when it is in the trimmed window and in none of the cuts.
  ghost predicate MeantKept(params: EditParams, dur: real, t: real) {
    && params.trimStart <= t < params.trimEnd.GetOr(dur)
    && forall c :: c in params.cuts ==> !(c.start <= t < c.end)
  }

  ghost predicate Meant(params: EditParams, dur: real, k: real -> real, layout: seq<Piece>) {
    && KeptMeasure(k, t => MeantKept(params, dur, t))
    && IsLayout(ByStart(params.cuts), params.trimStart, params.trimEnd.GetOr(dur), layout)
  }

  function MeantVolume(params: EditParams): real {
    if params.volume == 0.0 then 1.0 else params.volume
  }

  // Heard at buffer time u, at the given volume: the fades asked for, and those of the cuts.
  ghost predicate MeantHeard(params: EditParams, dur: real, k: real -> real, layout: seq<Piece>, volume: real, u: real,
                             s: Sample)
  {
    && MeantKept(params, dur, s.source) && s.source < dur && k(s.source) == u
    && s.gain == Times(CutGain(layout, s.source), Times(volume, FadesGain(k, params.fades, s.source)))
    && s.leveled == params.normalize
  }

  ghost predicate SomeCut(params: EditParams) {
    exists c :: c in params.cuts && c.start < c.end
  }

  // An error exactly when cuts were asked for and nothing is kept, else a plan that plays the
  // request at the given volume and tempo.
  ghost predicate Does(c: Compiled, params: EditParams, dur: real, k: real -> real, layout: seq<Piece>,
                       volume: real, tempo: real)
  {
    match c
    case CutsRemoveEverything => SomeCut(params) && forall t :: !MeantKept(params, dur, t)
    case Ready(plan) =>
      && (!SomeCut(params) || exists t :: MeantKept(params, dur, t))
      && forall v, s ::
           PlanAt(plan, dur, v) == Some(s) <==> MeantHeard(params, dur, k, layout, volume, Times(v, tempo), s)
  }

  // The volume and the tempo are those asked for, up to a millionth and a thousandth.
  ghost predicate AsAsked(params: EditParams, volume: real, tempo: real) {
    && Abs(volume - MeantVolume(params)) < 0.000001
    && (Abs(MeantVolume(params) - 1.0) >= 0.000001 ==> volume == MeantVolume(params))
    && tempo > 0.0 && Abs(Ratio(params.speed, tempo) - 1.0) <= 0.001
    && (Abs(params.speed - 1.0) < 0.001 ==> tempo == 1.0)
  }

  // Without cuts and without a trim end, a fade is running when the file ends.
  ghost predicate FadePastEnd(params: EditParams, dur: real) {
    && !SomeCut(params) && params.trimEnd.None?
    && exists f :: f in params.fades && Max(f.start, params.trimStart) < dur < Min(f.end, 1000000000.0)
  }

  // ------------------------------------------------ empty cuts and fades ask for nothing

  lemma DropEmptySingle(c: Cut, rest: seq<Cut>)
    ensures DropEmptyCuts([c] + rest) == (if c.end > c.start then [c] else []) + DropEmptyCuts(rest)
  {
    assert ([c] + rest)[1..] == rest;
  }

  lemma {:induction false} DropLast(cuts: seq<Cut>, c: Cut)
    ensures DropEmptyCuts(cuts + [c]) == if c.end > c.start then DropEmptyCuts(cuts) + [c] else DropEmptyCuts(cuts)
  {
    if cuts == [] {
      assert cuts + [c] == [c] + [];
      DropEmptySingle(c, []);
    } else {
      var first, rest := cuts[0], cuts[1..];
      assert cuts + [c] == [first] + (rest + [c]);
      DropLast(rest, c);
      DropEmptySingle(first, rest + [c]);
      if first.end > first.start {
        var left := DropEmptyCuts(rest);
        assert ([first] + left) + [c] == [first] + (left + [c]);
      }
    }
  }

  // Empty cuts leave the sweep where it is.
  lemma {:induction false} SweepSkipsEmpty(cuts: seq<Cut>, n: nat, from: real, end: real)
    requires n <= |cuts|
    ensures SweepTo(cuts, n, from, end) == SweepTo(DropEmptyCuts(cuts[..n]), |DropEmptyCuts(cuts[..n])|, from, end)
  {
    if n > 0 {
      SweepSkipsEmpty(cuts, n - 1, from, end);
      assert cuts[..n] == cuts[..n - 1] + [cuts[n - 1]];
      DropLast(cuts[..n - 1], cuts[n - 1]);
      hide DropEmptyCuts, SweepCut;
      var before, now := DropEmptyCuts(cuts[..n - 1]), DropEmptyCuts(cuts[..n]);
      if cuts[n - 1].end > cuts[n - 1].start {
        SweepPrefix(before, now, |before|, from, end);
      } else {
        NothingToSweep(SweepTo(cuts, n - 1, from, end), cuts[n - 1], end);
      }
    }
  }

  lemma NothingToSweep(s: Sweep, c: Cut, end: real)
    requires c.end <= c.start
    ensures SweepCut(s, c, end) == s
  {
  }

  lemma {:induction false} SweepPrefix(a: seq<Cut>, b: seq<Cut>, n: nat, from: real, end: real)
    requires n <= |a| <= |b| && a == b[..|a|]
    ensures SweepTo(a, n, from, end) == SweepTo(b, n, from, end)
  {
    if n > 0 {
      SweepPrefix(a, b, n - 1, from, end);
    }
  }

  lemma {:induction false} DropThenKey(key: Cut -> real, x: real, cuts: seq<Cut>)
    ensures WithKey(key, x, DropEmptyCuts(cuts)) == DropEmptyCuts(WithKey(key, x, cuts))
  {
    if cuts != [] {
      var c, rest := cuts[0], cuts[1..];
      DropThenKey(key, x, rest);
      assert cuts == [c] + rest;
      DropEmptySingle(c, rest);
      WithKeyCons(key, x, c, rest);
      DropEmptySingle(c, WithKey(key, x, rest));
      WithKeyCons(key, x, c, DropEmptyCuts(rest));
      hide WithKey, DropEmptyCuts;
      assert [] + WithKey(key, x, rest) == WithKey(key, x, rest);
      assert [] + DropEmptyCuts(rest) == DropEmptyCuts(rest);
    }
  }

  lemma {:induction false} DropKeepsSorted(key: Cut -> real, cuts: seq<Cut>)
    requires SortedBy(key, cuts)
    ensures SortedBy(key, DropEmptyCuts(cuts))
  {
    if cuts != [] {
      DropKeepsSorted(key, cuts[1..]);
      DroppedCuts(cuts[1..]);
      var rest := DropEmptyCuts(cuts[1..]);
      forall i | 0 <= i < |rest| ensures key(cuts[0]) <= key(rest[i]) {
        assert rest[i] in cuts[1..];
      }
    }
  }

  // Dropping the empty cuts and sorting can be done in either order.
  lemma DropThenSort(cuts: seq<Cut>)
    ensures ByStart(DropEmptyCuts(cuts)) == DropEmptyCuts(ByStart(cuts))
  {
    var key := (c: Cut) => c.start;
    SortIsStable(key, cuts);
    SortIsStable(key, DropEmptyCuts(cuts));
    DropKeepsSorted(key, Sort(key, cuts));
    forall x
      ensures WithKey(key, x, Sort(key, DropEmptyCuts(cuts))) == WithKey(key, x, DropEmptyCuts(Sort(key, cuts)))
    {
      DropThenKey(key, x, cuts);
      DropThenKey(key, x, Sort(key, cuts));
      assert WithKey(key, x, Sort(key, cuts)) == WithKey(key, x, cuts);
      assert WithKey(key, x, Sort(key, DropEmptyCuts(cuts))) == WithKey(key, x, DropEmptyCuts(cuts));
    }
    StableSortUnique(key, Sort(key, DropEmptyCuts(cuts)), DropEmptyCuts(Sort(key, cuts)));
  }

  lemma SameKeptPieces(cuts: seq<Cut>, from: real, end: real)
    ensures KeptPieces(ByStart(DropEmptyCuts(cuts)), from, end) == KeptPieces(ByStart(cuts), from, end)
  {
    DropThenSort(cuts);
    var sorted := ByStart(cuts);
    SweepSkipsEmpty(sorted, |sorted|, from, end);
    assert sorted[..|sorted|] == sorted;
  }

  lemma SameLayout(cuts: seq<Cut>, from: real, end: real, layout: seq<Piece>)
    ensures IsLayout(ByStart(cuts), from, end, layout) <==> IsLayout(ByStart(DropEmptyCuts(cuts)), from, end, layout)
  {
    hide IsLayout, StartSorted;
    var a, b := ByStart(cuts), ByStart(DropEmptyCuts(cuts));
    SortedByStart(cuts);
    SortedByStart(DropEmptyCuts(cuts));
    KeptPiecesAreLayout(a, from, end);
    KeptPiecesAreLayout(b, from, end);
    SameKeptPieces(cuts, from, end);
    if IsLayout(a, from, end, layout) {
      LayoutUnique(a, from, end, layout, KeptPieces(a, from, end));
    }
    if IsLayout(b, from, end, layout) {
      LayoutUnique(b, from, end, layout, KeptPieces(b, from, end));
    }
  }

  lemma {:induction false} SameFades(k: real -> real, fades: seq<Fade>, t: real)
    ensures FadesGain(k, DropEmptyFades(fades), t) == FadesGain(k, fades, t)
  {
    hide Times;
    if fades != [] {
      var f, rest := fades[0], fades[1..];
      SameFades(k, rest, t);
      GainsCons(k, fades, t);
      if f.end > f.start {
        var dropped := [f] + DropEmptyFades(rest);
        assert dropped[1..] == DropEmptyFades(rest);
        GainsCons(k, dropped, t);
      } else {
        assert [] + DropEmptyFades(rest) == DropEmptyFades(rest);
        TimesOne(FadesGain(k, rest, t));
      }
    }
  }

  // ------------------------------------------------ the request and what it is cleaned to

  lemma SameKept(params: EditParams, dur: real, t: real)
    ensures MeantKept(params, dur, t) <==> Kept(Cleaned(params), dur, t)
  {
    DroppedCuts(params.cuts);
    var cuts := DropEmptyCuts(params.cuts);
    assert forall i :: 0 <= i < |cuts| ==> cuts[i] in cuts;
  }

  lemma SameReference(params: EditParams, dur: real, k: real -> real, layout: seq<Piece>)
    ensures Meant(params, dur, k, layout) <==> Reference(Cleaned(params), dur, k, layout)
  {
    hide IsLayout;
    SameLayout(params.cuts, params.trimStart, params.trimEnd.GetOr(dur), layout);
    var a, b := (t: real) => MeantKept(params, dur, t), (t: real) => Kept(Cleaned(params), dur, t);
    forall t ensures a(t) == b(t) {
      SameKept(params, dur, t);
    }
    SameMeasure(k, a, b);
    assert KeptMeasure(k, a) <==> KeptMeasure(k, b);
  }

  lemma SameMeasure(k: real -> real, a: real -> bool, b: real -> bool)
    requires forall t :: a(t) == b(t)
    ensures KeptMeasure(k, a) <==> KeptMeasure(k, b)
  {
    assert forall x, y :: AllKept(a, x, y) <==> AllKept(b, x, y);
    assert forall x, y :: NoneKept(a, x, y) <==> NoneKept(b, x, y);
  }

  lemma SameHeard(params: EditParams, dur: real, k: real -> real, layout: seq<Piece>, u: real, s: Sample)
    ensures MeantHeard(params, dur, k, layout, EffectiveVolume(MeantVolume(params)), u, s)
       <==> Heard(Cleaned(params), dur, k, layout, u, s)
  {
    hide Times, FadesGain, CutGain, MeantKept, Kept;
    SameKept(params, dur, s.source);
    SameFades(k, params.fades, s.source);
  }

  lemma SomeCutIff(params: EditParams)
    ensures SomeCut(params) <==> Cleaned(params).cuts != []
  {
    DroppedCuts(params.cuts);
    var cuts := DropEmptyCuts(params.cuts);
    if cuts != [] {
      assert cuts[0] in cuts;
    }
  }

  lemma SameDoing(c: Compiled, params: EditParams, dur: real, k: real -> real, layout: seq<Piece>)
    requires FromApi(params)
    ensures Cleaned(params).speed > 0.0 &&
            (Does(c, params, dur, k, layout, EffectiveVolume(MeantVolume(params)), TempoOf(Cleaned(params)))
             <==> Refines(c, Cleaned(params), dur, k, layout))
  {
    hide Times, TempoOf, MeantHeard, Heard, MeantKept, Kept, PlanAt, SomeCut;
    SomeCutIff(params);
    forall t ensures MeantKept(params, dur, t) <==> Kept(Cleaned(params), dur, t) {
      SameKept(params, dur, t);
    }
    forall u, s
      ensures MeantHeard(params, dur, k, layout, EffectiveVolume(MeantVolume(params)), u, s)
         <==> Heard(Cleaned(params), dur, k, layout, u, s)
    {
      SameHeard(params, dur, k, layout, u, s);
    }
  }

  lemma PlayedAsAsked(params: EditParams)
    requires FromApi(params)
    ensures Cleaned(params).speed == params.speed > 0.0
    ensures AsAsked(params, EffectiveVolume(MeantVolume(params)), TempoOf(Cleaned(params)))
  {
    hide Ratio;
    TempoChainCorrect(params.speed);
  }

  lemma FadePastEndIff(params: EditParams, dur: real)
    ensures FadePastEnd(params, dur) <==> EndMisfit(Cleaned(params), dur)
  {
    SomeCutIff(params);
    DroppedFades(params.fades);
    var p := Cleaned(params);
    forall f | f in params.fades && Max(f.start, params.trimStart) < dur < Min(f.end, 1000000000.0)
      ensures f in p.fades && RunsPast(p, dur, f)
    {
    }
  }

  // ------------------------------------------------ main results

  // Every request has one meaning.
  lemma MeaningExists(params: EditParams, dur: real) returns (k: real -> real, layout: seq<Piece>)
    ensures Meant(params, dur, k, layout)
  {
    k, layout := ReferenceExists(Cleaned(params), dur);
    SameReference(params, dur, k, layout);
  }

  // Every request the API accepts is played as it is meant, at the volume and tempo asked for, if
  // and only if it neither leaves a lone audible piece with a cut fade longer than the piece, nor
  // lets a fade run past the end of the file without cuts or a trim end.
  lemma EditPlaysIff(params: EditParams, dur: real, k: real -> real, layout: seq<Piece>)
    returns (volume: real, tempo: real)
    requires FromApi(params) && 0.0 <= dur <= 1000000000.0 && Meant(params, dur, k, layout)
    ensures AsAsked(params, volume, tempo)
    ensures Does(Compile(Cleaned(params), dur), params, dur, k, layout, volume, tempo)
       <==> (ShortcutFits(layout) || dur <= layout[0].seg.start) && !FadePastEnd(params, dur)
  {
    hide Meant, Reference, Refines, Does, FadePastEnd, EndMisfit, AsAsked, TempoOf, EffectiveVolume, Compile;
    volume, tempo := EffectiveVolume(MeantVolume(params)), TempoOf(Cleaned(params));
    PlayedAsAsked(params);
    SameReference(params, dur, k, layout);
    FadePastEndIff(params, dur);
    SameDoing(Compile(Cleaned(params), dur), params, dur, k, layout);
    CleanedPlaysIff(params, dur, k, layout);
  }

  // Nothing is asked for but which parts of the file to keep.
  ghost predicate AsksForPartsOnly(params: EditParams) {
    && Abs(MeantVolume(params) - 1.0) < 0.000001 && Abs(params.speed - 1.0) < 0.001 && !params.normalize
    && (forall f :: f in params.fades ==> f.end <= f.start)
    && (forall c :: c in params.cuts && c.start < c.end ==> c.fadeIn <= 0.0 && c.fadeOut <= 0.0)
  }

  // The stream is copied, not encoded anew, if and only if nothing else is asked for.
  lemma CopiesIff(params: EditParams, dur: real)
    requires FromApi(params)
    ensures Cleaned(params).speed > 0.0
    ensures var c := Compile(Cleaned(params), dur);
            c.Ready? ==> (c.plan.Copy? || c.plan.CopyConcat? <==> AsksForPartsOnly(params))
  {
    hide FilterChain, Pieces;
    DroppedFades(params.fades);
    DroppedCuts(params.cuts);
    var p := Cleaned(params);
    assert p.fades == [] <==> forall f :: f in params.fades ==> f.end <= f.start by {
      assert p.fades != [] ==> p.fades[0] in p.fades;
    }
  }
}
