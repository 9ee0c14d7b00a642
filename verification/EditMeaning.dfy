/** The edit compiler's main results, over every edit the API accepts. */
module EditMeaning {
  import opened Basics
  import opened Timeline
  import opened CutSweep
  import opened FadeFilter
  import opened SpeedChain
  import opened EditPlan
  import opened EditCorrect
  import opened EditTheorems
  import opened EditShortcut
  import opened EditUntrimmed
  import StableSort

  lemma MisfitHasFades(p: EditParams, dur: real)
    requires EndMisfit(p, dur)
    ensures !LosslessEligible(p)
  {
  }

  // Re-encoding one window.
  lemma EncodeUncut(p: EditParams, dur: real, k: real -> real, layout: seq<Piece>)
    requires Playable(p, dur) && Reference(p, dur, k, layout) && p.cuts == [] && !EndMisfit(p, dur)
    ensures Refines(EncodePlan(p, dur), p, dur, k, layout)
  {
    if p.trimEnd.Some? {
      EncodeTrimmed(p, dur, k, layout);
    } else {
      UntrimmedIff(p, dur, k, layout);
    }
  }

  // Whatever the edit, the command that is run plays the edit's meaning: the kept instants in
  // order, each with volume, fades and cut fades applied, and the error exactly when there is
  // nothing left. The cut fades of a lone piece have to fit inside it, and without cuts and trim
  // end no fade may run past the end of the file.
  lemma EditPlaysItsMeaning(params: EditParams, dur: real, k: real -> real, layout: seq<Piece>)
    requires FromApi(params) && 0.0 <= dur <= SENTINEL_END
    requires Reference(Cleaned(params), dur, k, layout) && ShortcutFits(layout) && !EndMisfit(Cleaned(params), dur)
    ensures Refines(Compile(Cleaned(params), dur), Cleaned(params), dur, k, layout)
  {
    hide Refines, Reference;
    var p := Cleaned(params);
    CleanedFacts(params);
    if LosslessEligible(p) {
      if p.cuts == [] {
        CopyWithoutCuts(p, dur, k, layout);
      } else {
        CopyWithCuts(p, dur, k, layout);
      }
    } else if p.cuts == [] {
      EncodeUncut(p, dur, k, layout);
    } else {
      EncodeWithCuts(p, dur, k, layout);
    }
  }

  // When an edit is lossless-eligible, copying the stream and re-encoding it play the same.
  lemma LosslessIsSound(params: EditParams, dur: real)
    requires FromApi(params) && 0.0 <= dur <= SENTINEL_END && LosslessEligible(Cleaned(params))
    ensures var c, e := CopyPlan(Cleaned(params), dur), EncodePlan(Cleaned(params), dur);
            && (c.CutsRemoveEverything? <==> e.CutsRemoveEverything?)
            && (c.Ready? && e.Ready? ==> forall v :: PlanAt(c.plan, dur, v) == PlanAt(e.plan, dur, v))
  {
    hide Heard, KeptMeasure, PlanAt, TempoOf, Times;
    var p := Cleaned(params);
    CleanedFacts(params);
    var k, layout := ReferenceExists(p, dur);
    PlainLayout(p.cuts, p.trimStart, SourceEnd(p, dur), layout);
    if |layout| == 1 {
      assert layout[0] in layout && Segs(layout)[0] == layout[0].seg;
    }
    if p.cuts == [] {
      CopyWithoutCuts(p, dur, k, layout);
      EncodeUncut(p, dur, k, layout);
    } else {
      CopyWithCuts(p, dur, k, layout);
      EncodeWithCuts(p, dur, k, layout);
    }
    var c, e := CopyPlan(p, dur), EncodePlan(p, dur);
    if c.Ready? && e.Ready? {
      forall v ensures PlanAt(c.plan, dur, v) == PlanAt(e.plan, dur, v) {
        SameSamples(PlanAt(c.plan, dur, v), PlanAt(e.plan, dur, v));
      }
    }
  }

  lemma SameSamples(a: Option<Sample>, b: Option<Sample>)
    requires forall s :: a == Some(s) <==> b == Some(s)
    ensures a == b
  {
    if a.Some? {
      assert a == Some(a.value);
    } else if b.Some? {
      assert b == Some(b.value);
    }
  }

  // Every edit plays its meaning if and only if it neither leaves a lone audible piece with a cut
  // fade longer than the piece, nor lets a fade run past the end of the file without cuts or a
  // trim end.
  lemma CleanedPlaysIff(params: EditParams, dur: real, k: real -> real, layout: seq<Piece>)
    requires FromApi(params) && 0.0 <= dur <= SENTINEL_END && Reference(Cleaned(params), dur, k, layout)
    ensures Refines(Compile(Cleaned(params), dur), Cleaned(params), dur, k, layout)
       <==> (ShortcutFits(layout) || dur <= layout[0].seg.start) && !EndMisfit(Cleaned(params), dur)
  {
    hide Reference, Plays, EncodePlan, LosslessEligible, RunsPast;
    CleanedFacts(params);
    var p := Cleaned(params);
    if EndMisfit(p, dur) {
      MisfitHasFades(p, dur);
      UntrimmedIff(p, dur, k, layout);
    } else if ShortcutFits(layout) {
      EditPlaysItsMeaning(params, dur, k, layout);
    } else {
      MisfitIsEncoded(p, dur, layout) by {
        ReferenceHasLayout(p, dur, k, layout);
      }
      if dur <= layout[0].seg.start {
        SilentPiece(p, dur, k, layout);
      } else {
        ShortcutIffFits(params, dur, k, layout);
      }
    }
  }

  lemma ReferenceHasLayout(p: EditParams, dur: real, k: real -> real, layout: seq<Piece>)
    requires Reference(p, dur, k, layout)
    ensures IsLayout(ByStart(p.cuts), p.trimStart, SourceEnd(p, dur), layout)
  {
  }

  lemma SortOne(cut: Cut)
    ensures ByStart([cut]) == [cut]
  {
    var key := (c: Cut) => c.start;
    assert [cut][1..] == [];
    assert StableSort.Sort(key, []) == [];
    assert StableSort.Insert(key, cut, []) == [cut] + [];
  }

  // A request that fails the condition: one cut that leaves three seconds under a fade of ten.
  lemma OverlongFadeMisplays()
    ensures var params := EditParams(0.0, None, 1.0, [], 1.0, false, [Cut(0.0, 5.0, 10.0, 0.0)]);
            && FromApi(params)
            && exists k, layout ::
                 && Reference(Cleaned(params), 8.0, k, layout)
                 && layout == [Piece(Segment(5.0, 8.0), 10.0, 0.0)]
                 && !Refines(Compile(Cleaned(params), 8.0), Cleaned(params), 8.0, k, layout)
  {
    var cut := Cut(0.0, 5.0, 10.0, 0.0);
    var params := EditParams(0.0, None, 1.0, [], 1.0, false, [cut]);
    var p := Cleaned(params);
    assert [cut][1..] == [];
    assert DropEmptyCuts([cut]) == [cut] + DropEmptyCuts([]);
    assert p == params;
    var k, layout := ReferenceExists(p, 8.0);
    assert Piece(Segment(5.0, 8.0), 10.0, 0.0) == layout[0] && |layout| == 1 by {
      LayoutIsPieces(p, 8.0, layout);
      SortOne(cut);
      assert SweepTo([cut], 1, 0.0, 8.0) == SweepCut(SweepTo([cut], 0, 0.0, 8.0), cut, 8.0);
    }
    CleanedPlaysIff(params, 8.0, k, layout);
  }

  // Sixteen seconds of fade-in on a file of eight.
  const LONG_FADE := Fade(0.0, 16.0, FadeKind.FadeIn)

  // The request for it, with the given cuts.
  function LongFade(cuts: seq<Cut>): EditParams {
    EditParams(0.0, None, 1.0, [LONG_FADE], 1.0, false, cuts)
  }

  // Its gain four seconds in, when the window ends at the given time.
  lemma LongFadeGain(k: real -> real, end: real)
    requires Measures(k, [Segment(0.0, end)]) && end >= 8.0
    ensures FadesGain(k, [LONG_FADE], 4.0) == Ratio(4.0, Min(16.0, end))
  {
    hide Ratio, FadesGain, FadeGain;
    LoneFadeGain(k, LONG_FADE, 4.0);
    FadeInWindow(k, LONG_FADE, 0.0, end, 4.0);
  }

  lemma LongFadeCleaned(cuts: seq<Cut>)
    requires DropEmptyCuts(cuts) == cuts
    ensures Cleaned(LongFade(cuts)) == LongFade(cuts)
  {
    assert [LONG_FADE][1..] == [];
    assert DropEmptyFades([LONG_FADE]) == [LONG_FADE] + DropEmptyFades([]);
  }

  // A request that fails for its fade: four seconds in it is meant at half the volume, and the
  // plan, which takes the file to end at the sentinel, has it at a quarter.
  lemma FadePastEndMisplays() returns (k: real -> real, layout: seq<Piece>, far: real -> real)
    ensures FromApi(LongFade([])) && EndMisfit(Cleaned(LongFade([])), 8.0)
    ensures Reference(Cleaned(LongFade([])), 8.0, k, layout) && FadesGain(k, [LONG_FADE], 4.0) == 0.5
    ensures Measures(far, [Segment(0.0, SENTINEL_END)]) && FadesGain(far, [LONG_FADE], 4.0) == 0.25
    ensures !Refines(Compile(Cleaned(LongFade([])), 8.0), Cleaned(LongFade([])), 8.0, k, layout)
  {
    var p := LongFade([]);
    LongFadeCleaned([]);
    assert LONG_FADE in p.fades && RunsPast(p, 8.0, LONG_FADE);
    k, layout := ReferenceExists(p, 8.0);
    hide Refines, Reference, FadesGain, Compile, KeptMeasure;
    CleanedPlaysIff(p, 8.0, k, layout);
    UncutReference(p, 8.0, k, layout);
    LongFadeGain(k, 8.0);
    var segs := [Segment(0.0, SENTINEL_END)];
    far := (x: real) => Offset(segs, x);
    LongFadeGain(far, SENTINEL_END);
  }

  // The same fade next to a cut that removes nothing is played as meant.
  lemma IdleCutCures(k: real -> real, layout: seq<Piece>)
    requires Reference(LongFade([Cut(20.0, 30.0, 0.0, 0.0)]), 8.0, k, layout)
    ensures var p := LongFade([Cut(20.0, 30.0, 0.0, 0.0)]);
            && Cleaned(p) == p && layout == [Piece(Segment(0.0, 8.0), 0.0, 0.0)]
            && Refines(Compile(p, 8.0), p, 8.0, k, layout)
  {
    var cut := Cut(20.0, 30.0, 0.0, 0.0);
    var p := LongFade([cut]);
    assert [cut][1..] == [];
    assert DropEmptyCuts([cut]) == [cut] + DropEmptyCuts([]);
    LongFadeCleaned([cut]);
    ReferenceHasLayout(p, 8.0, k, layout);
    assert layout == [Piece(Segment(0.0, 8.0), 0.0, 0.0)] by {
      hide Reference;
      LayoutIsPieces(p, 8.0, layout);
      SortOne(cut);
      assert SweepTo([cut], 1, 0.0, 8.0) == SweepCut(SweepTo([cut], 0, 0.0, 8.0), cut, 8.0);
    }
    hide Refines, Reference, Compile;
    CleanedPlaysIff(p, 8.0, k, layout);
  }
}
