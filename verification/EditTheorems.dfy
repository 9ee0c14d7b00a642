/** What each plan plays, against the reference. */
module EditTheorems {
  import opened Basics
  import opened Timeline
  import opened CutSweep
  import opened FadeFilter
  import opened SpeedChain
  import opened EditPlan
  import opened EditCorrect

  // The plan plays the reference: same instants, same gains, at the plan's tempo.
  ghost predicate Plays(plan: Plan, p: EditParams, dur: real, k: real -> real, layout: seq<Piece>)
    requires p.speed > 0.0
  {
    forall v, s :: PlanAt(plan, dur, v) == Some(s) <==> Heard(p, dur, k, layout, Times(v, TempoOf(p)), s)
  }

  // An error exactly when cuts were given and nothing is kept, else a plan that plays the edit.
  ghost predicate Refines(c: Compiled, p: EditParams, dur: real, k: real -> real, layout: seq<Piece>)
    requires p.speed > 0.0
  {
    match c
    case CutsRemoveEverything => p.cuts != [] && forall t :: !Kept(p, dur, t)
    case Ready(plan) => (p.cuts == [] || exists t :: Kept(p, dur, t)) && Plays(plan, p, dur, k, layout)
  }

  // The meaning exists: the kept pieces are a layout and the offset into them measures it.
  lemma ReferenceExists(p: EditParams, dur: real) returns (k: real -> real, layout: seq<Piece>)
    ensures Reference(p, dur, k, layout)
    ensures forall x :: k(x) == Offset(Segs(layout), x)
  {
    var end := SourceEnd(p, dur);
    layout := KeptPieces(ByStart(p.cuts), p.trimStart, end);
    SortedByStart(p.cuts);
    KeptPiecesAreLayout(ByStart(p.cuts), p.trimStart, end);
    var segs := Segs(layout);
    k := x => Offset(segs, x);
    forall t ensures Kept(p, dur, t) <==> InSegments(segs, t) {
      SurvivesSorted(p.cuts, p.trimStart, end, t);
    }
    OffsetIsKeptMeasure(segs, t => Kept(p, dur, t));
    MeasureExtensional(t => Offset(segs, t), k, t => Kept(p, dur, t));
  }

  lemma MeasureExtensional(k: real -> real, k': real -> real, kept: real -> bool)
    requires KeptMeasure(k, kept) && forall x :: k(x) == k'(x)
    ensures KeptMeasure(k', kept)
  {
    assert forall a, b :: a <= b && AllKept(kept, a, b) ==> k(b) - k(a) == b - a;
    assert forall a, b :: a <= b && NoneKept(kept, a, b) ==> k(b) == k(a);
  }

  lemma CleanedFacts(params: EditParams)
    requires FromApi(params)
    ensures var p := Cleaned(params);
            FromApi(p) && p.volume != 0.0 && forall c :: c in p.cuts ==> c.start < c.end
  {
    DroppedFades(params.fades);
    DroppedCuts(params.cuts);
  }

  lemma {:induction false} DroppedFades(fades: seq<Fade>)
    ensures forall f :: f in DropEmptyFades(fades) <==> f in fades && f.start < f.end
  {
    if fades != [] {
      DroppedFades(fades[1..]);
    }
  }

  lemma {:induction false} DroppedCuts(cuts: seq<Cut>)
    ensures forall c :: c in DropEmptyCuts(cuts) <==> c in cuts && c.start < c.end
  {
    if cuts != [] {
      DroppedCuts(cuts[1..]);
    }
  }

  lemma NothingKeptIsEmpty(p: EditParams, dur: real, k: real -> real, layout: seq<Piece>)
    requires Reference(p, dur, k, layout)
    ensures layout == [] <==> forall t :: !Kept(p, dur, t)
  {
    ReferenceIsOffset(p, dur, k, layout);
    FirstStartKept(Segs(layout));
  }

  // A trim window with nothing in it plays nothing.
  lemma EmptyWindowPlan(p: EditParams, dur: real, k: real -> real, layout: seq<Piece>)
    requires Playable(p, dur) && Reference(p, dur, k, layout) && p.cuts == [] && layout == []
    ensures Plays(ApplySimple(p, p.trimStart, p.trimEnd, p.fades), p, dur, k, layout)
    ensures forall v :: PlanAt(Copy(WindowOf(p.trimStart, p.trimEnd)), dur, v).None?
  {
    hide Times, ExprGain, TempoOf, FilterChain;
    LayoutWithoutCuts(p, dur, layout);
    NothingKeptIsEmpty(p, dur, k, layout);
    var plan := ApplySimple(p, p.trimStart, p.trimEnd, p.fades);
    var segs := [Segment(p.trimStart, p.trimEnd.GetOr(SENTINEL_END))];
    forall v, s ensures PlanAt(plan, dur, v) != Some(s) {
      FilterChainMeans(p, x => BaseAt(plan, dur, x), p.fades, segs, v);
    }
  }

  lemma PlainLayoutSegments(p: EditParams, dur: real, layout: seq<Piece>)
    requires p.cuts == [] && IsLayout(ByStart(p.cuts), p.trimStart, SourceEnd(p, dur), layout) && layout != []
    ensures layout == [Piece(Segment(p.trimStart, SourceEnd(p, dur)), 0.0, 0.0)]
    ensures Segs(layout) == [Segment(p.trimStart, SourceEnd(p, dur))] && p.trimStart < SourceEnd(p, dur)
    ensures forall t :: CutGain(layout, t) == 1.0
  {
    LayoutWithoutCuts(p, dur, layout);
    forall t ensures CutGain(layout, t) == 1.0 {
      PlainCutGain(layout, t);
    }
  }

  lemma PiecesInWindow(p: EditParams, dur: real, layout: seq<Piece>)
    requires Playable(p, dur) && p.cuts != [] && IsLayout(ByStart(p.cuts), p.trimStart, SourceEnd(p, dur), layout)
    ensures layout == Pieces(p, dur) && Separated(Segs(layout))
    ensures forall q :: q in layout ==> 0.0 <= q.seg.start
  {
    LayoutIsPieces(p, dur, layout);
    SortedByStart(p.cuts);
    KeptPiecesAreLayout(ByStart(p.cuts), p.trimStart, SourceEnd(p, dur));
  }

  // ------------------------------------------------ the re-encoding plans

  lemma EncodeTrimmed(p: EditParams, dur: real, k: real -> real, layout: seq<Piece>)
    requires Playable(p, dur) && Reference(p, dur, k, layout) && p.cuts == [] && p.trimEnd.Some?
    ensures Refines(EncodePlan(p, dur), p, dur, k, layout)
  {
    hide Times, TempoOf, PlanAt, Heard, FadesGain, CutGain, KeptMeasure;
    if layout == [] {
      EmptyWindowPlan(p, dur, k, layout);
    } else {
      PlainLayoutSegments(p, dur, layout);
      forall t { TimesOne(FadesGain(k, p.fades, t)); }
      forall v { SimplePlan(p, dur, k, layout, p.trimStart, p.trimEnd.value, p.fades, v); }
    }
  }

  lemma LonePieceGain(p: EditParams, dur: real, k: real -> real, layout: seq<Piece>, t: real)
    requires Reference(p, dur, k, layout) && |layout| == 1 && ShortcutFits(layout) && layout[0].seg.Has(t)
    ensures FadesGain(k, MergedFades(layout[0], p.fades), t) == Times(CutGain(layout, t), FadesGain(k, p.fades, t))
  {
    hide Times, FadesGain, PieceGain;
    ReferenceIsOffset(p, dur, k, layout);
    assert Segs(layout) == [layout[0].seg];
    MergedFadesFit(k, layout[0], p.fades, t);
  }

  lemma EncodeWithCuts(p: EditParams, dur: real, k: real -> real, layout: seq<Piece>)
    requires Playable(p, dur) && Reference(p, dur, k, layout) && p.cuts != [] && ShortcutFits(layout)
    ensures Refines(EncodePlan(p, dur), p, dur, k, layout)
  {
    hide Times, TempoOf, PlanAt, Heard, FadesGain, CutGain, KeptMeasure;
    PiecesInWindow(p, dur, layout);
    NothingKeptIsEmpty(p, dur, k, layout);
    if |layout| == 1 {
      var q := layout[0];
      assert Segs(layout) == [q.seg];
      forall t | q.seg.Has(t)
        ensures FadesGain(k, MergedFades(q, p.fades), t) == Times(CutGain(layout, t), FadesGain(k, p.fades, t))
      {
        LonePieceGain(p, dur, k, layout, t);
      }
      forall v { SimplePlan(p, dur, k, layout, q.seg.start, q.seg.end, MergedFades(q, p.fades), v); }
    } else if |layout| > 1 {
      forall v { GraphPlan(p, dur, k, layout, v); }
    }
  }

  // ------------------------------------------------ the stream-copy plans

  lemma UnityTempo(p: EditParams)
    requires p.speed > 0.0 && LosslessEligible(p)
    ensures forall v :: Times(v, TempoOf(p)) == v
  {
  }

  lemma CopyWithoutCuts(p: EditParams, dur: real, k: real -> real, layout: seq<Piece>)
    requires Playable(p, dur) && LosslessEligible(p) && Reference(p, dur, k, layout) && p.cuts == []
    ensures Refines(CopyPlan(p, dur), p, dur, k, layout)
  {
    hide Heard, KeptMeasure, Locate;
    UnityTempo(p);
    var plan := Copy(WindowOf(p.trimStart, p.trimEnd));
    if layout == [] {
      hide TempoOf, Times;
      EmptyWindowPlan(p, dur, k, layout);
      forall v, s ensures !Heard(p, dur, k, layout, v, s) {
        NothingKeptIsEmpty(p, dur, k, layout);
        NotHeard(p, dur, k, layout, v, s);
      }
    } else {
      hide TempoOf, Times;
      PlainLayoutSegments(p, dur, layout);
      forall v
        ensures forall s :: PlanAt(plan, dur, v) == Some(s) <==> Heard(p, dur, k, layout, v, s)
      {
        SimpleBase(p.trimStart, p.trimEnd, SourceEnd(p, dur), [], dur, v);
        CopiedStream(p, dur, k, layout, v, PlanAt(plan, dur, v));
      }
    }
  }

  lemma NotHeard(p: EditParams, dur: real, k: real -> real, layout: seq<Piece>, v: real, s: Sample)
    requires forall t :: !Kept(p, dur, t)
    ensures !Heard(p, dur, k, layout, v, s)
  {
  }

  lemma CopyOnePiece(p: EditParams, dur: real, k: real -> real, layout: seq<Piece>)
    requires Playable(p, dur) && LosslessEligible(p) && Reference(p, dur, k, layout) && p.cuts != [] && |layout| == 1
    ensures layout == Pieces(p, dur)
    ensures Plays(Copy(WindowOf(layout[0].seg.start, Some(layout[0].seg.end))), p, dur, k, layout)
  {
    hide Heard, KeptMeasure, Locate, PlayAt, TempoOf, Times;
    UnityTempo(p);
    PiecesInWindow(p, dur, layout);
    var segs := Segs(layout);
    var seg := segs[0];
    assert segs == [seg];
    SeparatedOne(segs);
    assert layout[0] in layout;
    var plan := Copy(WindowOf(seg.start, Some(seg.end)));
    forall v
      ensures forall s :: PlanAt(plan, dur, v) == Some(s) <==> Heard(p, dur, k, layout, v, s)
    {
      WindowPlaysSegment(seg.start, seg.end, dur, v);
      CopiedStream(p, dur, k, layout, v, PlanAt(plan, dur, v));
    }
  }

  lemma CopyMorePieces(p: EditParams, dur: real, k: real -> real, layout: seq<Piece>)
    requires Playable(p, dur) && LosslessEligible(p) && Reference(p, dur, k, layout) && p.cuts != []
    ensures layout == Pieces(p, dur)
    ensures Plays(CopyConcat(WindowsOf(Segs(layout))), p, dur, k, layout)
  {
    hide Heard, KeptMeasure, Locate, PlayAt, TempoOf, Times;
    UnityTempo(p);
    PiecesInWindow(p, dur, layout);
    var segs := Segs(layout);
    assert WindowSegments(WindowsOf(segs)) == segs by {
      forall i | 0 <= i < |segs| ensures WindowSegment(WindowsOf(segs)[i]) == segs[i] {
        assert layout[i] in layout;
      }
    }
    var plan := CopyConcat(WindowsOf(segs));
    forall v
      ensures forall s :: PlanAt(plan, dur, v) == Some(s) <==> Heard(p, dur, k, layout, v, s)
    {
      PlaySeparated(segs, dur, v);
      CopiedStream(p, dur, k, layout, v, PlanAt(plan, dur, v));
    }
  }

  lemma CopyWithCuts(p: EditParams, dur: real, k: real -> real, layout: seq<Piece>)
    requires Playable(p, dur) && LosslessEligible(p) && Reference(p, dur, k, layout) && p.cuts != []
    ensures Refines(CopyPlan(p, dur), p, dur, k, layout)
  {
    NothingKeptIsEmpty(p, dur, k, layout);
    CopyMorePieces(p, dur, k, layout);
    if |layout| == 1 {
      CopyOnePiece(p, dur, k, layout);
    }
    hide Plays, Reference, LosslessEligible, Kept;
  }

  lemma SeparatedOne(segs: seq<Segment>)
    requires Separated(segs) && |segs| == 1
    ensures segs[0].start < segs[0].end
  {
  }
}
