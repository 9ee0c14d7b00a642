/** Subtracting cuts from the trimmed window, and pairing the cuts' own fades with what is left. */
module CutSweep {
  import opened Basics
  import opened Timeline
  import opened StableSort

  datatype Cut = Cut(start: real, end: real, fadeIn: real, fadeOut: real) {
    predicate Removes(t: real) { start <= t < end }
    predicate Reaches(limit: real) { start < Min(limit, end) }
  }

  // A kept segment with the fades its neighbouring cuts asked for.
  datatype Piece = Piece(seg: Segment, fadeIn: real, fadeOut: real)

  function ByStart(cuts: seq<Cut>): seq<Cut> {
    Sort((c: Cut) => c.start, cuts)
  }

  ghost predicate StartSorted(cuts: seq<Cut>) {
    forall i, j :: 0 <= i < j < |cuts| ==> cuts[i].start <= cuts[j].start
  }

  ghost predicate Survives(cuts: seq<Cut>, from: real, end: real, t: real) {
    from <= t < end && forall i :: 0 <= i < |cuts| ==> !cuts[i].Removes(t)
  }

  function Segs(pieces: seq<Piece>): (segs: seq<Segment>)
    ensures |segs| == |pieces| && forall i :: 0 <= i < |segs| ==> segs[i] == pieces[i].seg
  {
    seq(|pieces|, i requires 0 <= i < |pieces| => pieces[i].seg)
  }

  // ------------------------------------------------ the sweep, cut by cut

  datatype Sweep = Sweep(pos: real, pending: real, pieces: seq<Piece>)

  function SweepCut(s: Sweep, cut: Cut, end: real): Sweep {
    var cs := Max(s.pos, cut.start);
    var ce := Min(end, cut.end);
    if ce <= cs then s
    else Sweep(ce, cut.fadeIn,
               if cs > s.pos then s.pieces + [Piece(Segment(s.pos, cs), s.pending, cut.fadeOut)] else s.pieces)
  }

  function SweepTo(cuts: seq<Cut>, n: nat, from: real, end: real): Sweep
    requires n <= |cuts|
  {
    if n == 0 then Sweep(from, 0.0, []) else SweepCut(SweepTo(cuts, n - 1, from, end), cuts[n - 1], end)
  }

  function KeptPieces(cuts: seq<Cut>, from: real, end: real): seq<Piece> {
    var s := SweepTo(cuts, |cuts|, from, end);
    if s.pos < end then s.pieces + [Piece(Segment(s.pos, end), s.pending, 0.0)] else s.pieces
  }

  // The copy of the loop that only collects segments.
  method SweepForCopy(cuts: seq<Cut>, trimStart: real, sourceDur: real) returns (segments: seq<Segment>)
    ensures segments == Segs(KeptPieces(ByStart(cuts), trimStart, sourceDur))
  {
    var cutsSorted := ByStart(cuts);
    segments := [];
    var pos := trimStart;
    for i := 0 to |cutsSorted|
      invariant pos == SweepTo(cutsSorted, i, trimStart, sourceDur).pos
      invariant segments == Segs(SweepTo(cutsSorted, i, trimStart, sourceDur).pieces)
    {
      var cs := Max(pos, cutsSorted[i].start);
      var ce := Min(sourceDur, cutsSorted[i].end);
      if ce <= cs {
        continue;
      }
      if cs > pos {
        segments := segments + [Segment(pos, cs)];
      }
      pos := ce;
    }
    if pos < sourceDur {
      segments := segments + [Segment(pos, sourceDur)];
    }
  }

  // The copy that also hands each segment the fades of the cuts around it.
  method SweepForEncode(cuts: seq<Cut>, trimStart: real, sourceDur: real)
    returns (segments: seq<Segment>, segFades: seq<(real, real)>)
    ensures |segments| == |segFades|
    ensures KeptPieces(ByStart(cuts), trimStart, sourceDur) == Zip(segments, segFades)
  {
    var cutsSorted := ByStart(cuts);
    segments, segFades := [], [];
    var pos := trimStart;
    var pendingFadeIn := 0.0;
    for i := 0 to |cutsSorted|
      invariant |segments| == |segFades|
      invariant SweepTo(cutsSorted, i, trimStart, sourceDur) == Sweep(pos, pendingFadeIn, Zip(segments, segFades))
    {
      var cut := cutsSorted[i];
      var cs := Max(pos, cut.start);
      var ce := Min(sourceDur, cut.end);
      if ce <= cs {
        continue;
      }
      if cs > pos {
        segments := segments + [Segment(pos, cs)];
        segFades := segFades + [(pendingFadeIn, cut.fadeOut)];
      }
      pendingFadeIn := cut.fadeIn;
      pos := ce;
    }
    if pos < sourceDur {
      segments := segments + [Segment(pos, sourceDur)];
      segFades := segFades + [(pendingFadeIn, 0.0)];
    }
  }

  function Zip(segments: seq<Segment>, fades: seq<(real, real)>): (pieces: seq<Piece>)
    requires |segments| == |fades|
    ensures |pieces| == |segments|
    ensures forall i :: 0 <= i < |pieces| ==> pieces[i] == Piece(segments[i], fades[i].0, fades[i].1)
  {
    seq(|segments|, i requires 0 <= i < |segments| => Piece(segments[i], fades[i].0, fades[i].1))
  }

  // ------------------------------------------------ the sweep is exact

  // The cut still removes something once every earlier cut has been taken out: it starts
  // inside the window and reaches further than the window's start and all cuts before it.
  ghost predicate Effective(cuts: seq<Cut>, i: nat, from: real, end: real)
    requires i < |cuts|
  {
    && cuts[i].Reaches(end)
    && from < Min(end, cuts[i].end)
    && forall j :: 0 <= j < i && cuts[j].Reaches(end) ==> Min(end, cuts[j].end) < Min(end, cuts[i].end)
  }

  ghost predicate FadeInFor(cuts: seq<Cut>, from: real, end: real, at: real, fade: real) {
    if at == from then fade == 0.0
    else exists i ::
      0 <= i < |cuts| && Effective(cuts, i, from, end) && Min(end, cuts[i].end) == at && fade == cuts[i].fadeIn
  }

  ghost predicate FirstStartingAt(cuts: seq<Cut>, i: nat, from: real, end: real, at: real)
    requires i < |cuts|
  {
    && Effective(cuts, i, from, end) && cuts[i].start == at
    && forall j :: 0 <= j < i && Effective(cuts, j, from, end) ==> cuts[j].start != at
  }

  ghost predicate FadeOutFor(cuts: seq<Cut>, from: real, end: real, at: real, fade: real) {
    if at == end then fade == 0.0
    else exists i :: 0 <= i < |cuts| && FirstStartingAt(cuts, i, from, end, at) && fade == cuts[i].fadeOut
  }

  // What a layout of kept pieces must be, said without any sweep.
  ghost predicate IsLayout(cuts: seq<Cut>, from: real, end: real, pieces: seq<Piece>) {
    && Separated(Segs(pieces))
    && (forall t :: InSegments(Segs(pieces), t) <==> Survives(cuts, from, end, t))
    && (forall i :: 0 <= i < |pieces| ==> FadeInFor(cuts, from, end, pieces[i].seg.start, pieces[i].fadeIn))
    && (forall i :: 0 <= i < |pieces| ==> FadeOutFor(cuts, from, end, pieces[i].seg.end, pieces[i].fadeOut))
  }

  // Where the sweep stands after n cuts.
  ghost predicate SweepShape(s: Sweep, cuts: seq<Cut>, n: nat, from: real, end: real)
    requires n <= |cuts|
  {
    && from <= s.pos <= end
    && |s.pieces| <= n
    && Separated(Segs(s.pieces))
    && (forall i :: 0 <= i < |s.pieces| ==> from <= s.pieces[i].seg.start && s.pieces[i].seg.end < s.pos)
    && (n > 0 ==> forall i :: 0 <= i < |s.pieces| ==> s.pieces[i].seg.end <= cuts[n - 1].start)
    && (forall i :: 0 <= i < n && cuts[i].Reaches(end) ==> Min(end, cuts[i].end) <= s.pos)
  }

  // What it has collected by then.
  ghost predicate SweepCollected(s: Sweep, cuts: seq<Cut>, n: nat, from: real, end: real, t: real)
    requires n <= |cuts|
  {
    InSegments(Segs(s.pieces), t) <==> t < s.pos && Survives(cuts[..n], from, end, t)
  }

  lemma AppendedSegment(segs: seq<Segment>, seg: Segment, t: real)
    ensures InSegments(segs + [seg], t) <==> InSegments(segs, t) || seg.Has(t)
  {
    var all := segs + [seg];
    if InSegments(segs, t) {
      var i :| 0 <= i < |segs| && segs[i].Has(t);
      assert all[i].Has(t);
    }
    assert all[|segs|] == seg;
  }

  lemma AppendedSeparated(segs: seq<Segment>, seg: Segment)
    requires Separated(segs) && seg.start < seg.end
    requires forall i :: 0 <= i < |segs| ==> segs[i].end < seg.start
    ensures Separated(segs + [seg])
  {
  }

  lemma SweepCutShape(s: Sweep, cuts: seq<Cut>, n: nat, from: real, end: real)
    requires n < |cuts| && StartSorted(cuts)
    requires SweepShape(s, cuts, n, from, end)
    ensures SweepShape(SweepCut(s, cuts[n], end), cuts, n + 1, from, end)
  {
    var s' := SweepCut(s, cuts[n], end);
    assert forall i :: 0 <= i < |s.pieces| ==> s.pieces[i].seg.end <= cuts[n].start;
    if s'.pieces != s.pieces {
      var seg := s'.pieces[|s.pieces|].seg;
      assert Segs(s'.pieces) == Segs(s.pieces) + [seg];
      AppendedSeparated(Segs(s.pieces), seg);
    }
  }

  lemma {:induction false} SweepShaped(cuts: seq<Cut>, n: nat, from: real, end: real)
    requires n <= |cuts| && StartSorted(cuts) && from < end
    ensures SweepShape(SweepTo(cuts, n, from, end), cuts, n, from, end)
  {
    if n == 0 {
      assert Segs([]) == [];
    } else {
      SweepShaped(cuts, n - 1, from, end);
      SweepCutShape(SweepTo(cuts, n - 1, from, end), cuts, n - 1, from, end);
    }
  }

  lemma SurvivesOneMore(cuts: seq<Cut>, n: nat, from: real, end: real, t: real)
    requires n < |cuts|
    ensures Survives(cuts[..n + 1], from, end, t) <==> Survives(cuts[..n], from, end, t) && !cuts[n].Removes(t)
  {
    assert cuts[..n + 1] == cuts[..n] + [cuts[n]];
    if Survives(cuts[..n + 1], from, end, t) {
      assert cuts[..n + 1][n] == cuts[n];
      assert forall i :: 0 <= i < n ==> cuts[..n][i] == cuts[..n + 1][i];
    }
  }

  // Past the sweep's position nothing has been removed yet.
  lemma AheadSurvives(s: Sweep, cuts: seq<Cut>, n: nat, from: real, end: real, t: real)
    requires n <= |cuts| && SweepShape(s, cuts, n, from, end) && s.pos <= t < end
    ensures Survives(cuts[..n], from, end, t)
  {
    forall i | 0 <= i < n ensures !cuts[..n][i].Removes(t) {
      assert cuts[i].Reaches(end) ==> Min(end, cuts[i].end) <= s.pos;
    }
  }

  lemma SweepCutCollects(s: Sweep, cuts: seq<Cut>, n: nat, from: real, end: real, t: real)
    requires n < |cuts| && StartSorted(cuts)
    requires SweepShape(s, cuts, n, from, end) && SweepCollected(s, cuts, n, from, end, t)
    ensures SweepCollected(SweepCut(s, cuts[n], end), cuts, n + 1, from, end, t)
  {
    var s' := SweepCut(s, cuts[n], end);
    SurvivesOneMore(cuts, n, from, end, t);
    if s.pos <= t < end {
      AheadSurvives(s, cuts, n, from, end, t);
    }
    if s'.pieces != s.pieces {
      var seg := s'.pieces[|s.pieces|].seg;
      assert Segs(s'.pieces) == Segs(s.pieces) + [seg];
      AppendedSegment(Segs(s.pieces), seg, t);
    }
    if InSegments(Segs(s.pieces), t) {
      var i :| 0 <= i < |s.pieces| && Segs(s.pieces)[i].Has(t);
      assert s.pieces[i].seg.end <= cuts[n].start;
    }
  }

  lemma {:induction false} SweepCollects(cuts: seq<Cut>, n: nat, from: real, end: real, t: real)
    requires n <= |cuts| && StartSorted(cuts) && from < end
    ensures SweepCollected(SweepTo(cuts, n, from, end), cuts, n, from, end, t)
  {
    if n > 0 {
      SweepCollects(cuts, n - 1, from, end, t);
      SweepShaped(cuts, n - 1, from, end);
      SweepCutCollects(SweepTo(cuts, n - 1, from, end), cuts, n - 1, from, end, t);
    }
  }

  // ------------------------------------------------ each segment gets the right cut's fades

  // The sweep acts on exactly the effective cuts.
  lemma ActsIffEffective(s: Sweep, cuts: seq<Cut>, n: nat, from: real, end: real)
    requires n < |cuts| && SweepShape(s, cuts, n, from, end) && PosIsRecord(s.pos, cuts, n, from, end)
    ensures Min(end, cuts[n].end) > Max(s.pos, cuts[n].start) <==> Effective(cuts, n, from, end)
  {
  }

  // The sweep's position is the window's start or the furthest reach of the cuts so far.
  ghost predicate PosIsRecord(pos: real, cuts: seq<Cut>, n: nat, from: real, end: real)
    requires n <= |cuts|
  {
    pos == from || exists j :: 0 <= j < n && cuts[j].Reaches(end) && pos == Min(end, cuts[j].end)
  }

  lemma {:induction false} PosRecords(cuts: seq<Cut>, n: nat, from: real, end: real)
    requires n <= |cuts|
    ensures PosIsRecord(SweepTo(cuts, n, from, end).pos, cuts, n, from, end)
  {
    if n > 0 {
      PosRecords(cuts, n - 1, from, end);
      assert cuts[n - 1].Reaches(end) || !cuts[n - 1].Reaches(end);
    }
  }

  ghost predicate FadeInWithin(cuts: seq<Cut>, n: nat, from: real, end: real, at: real, fade: real)
    requires n <= |cuts|
  {
    if at == from then fade == 0.0
    else exists i ::
      0 <= i < n && Effective(cuts, i, from, end) && Min(end, cuts[i].end) == at && fade == cuts[i].fadeIn
  }

  ghost predicate FadeOutWithin(cuts: seq<Cut>, n: nat, from: real, end: real, at: real, fade: real)
    requires n <= |cuts|
  {
    exists i :: 0 <= i < n && FirstStartingAt(cuts, i, from, end, at) && fade == cuts[i].fadeOut
  }

  ghost predicate FadesPaired(s: Sweep, cuts: seq<Cut>, n: nat, from: real, end: real)
    requires n <= |cuts|
  {
    && FadeInWithin(cuts, n, from, end, s.pos, s.pending)
    && (forall i :: 0 <= i < |s.pieces| ==> FadeInWithin(cuts, n, from, end, s.pieces[i].seg.start, s.pieces[i].fadeIn))
    && (forall i :: 0 <= i < |s.pieces| ==> FadeOutWithin(cuts, n, from, end, s.pieces[i].seg.end, s.pieces[i].fadeOut))
  }

  lemma SweepCutPairs(s: Sweep, cuts: seq<Cut>, n: nat, from: real, end: real)
    requires n < |cuts| && StartSorted(cuts)
    requires SweepShape(s, cuts, n, from, end) && PosIsRecord(s.pos, cuts, n, from, end)
    requires FadesPaired(s, cuts, n, from, end)
    ensures FadesPaired(SweepCut(s, cuts[n], end), cuts, n + 1, from, end)
  {
    var s' := SweepCut(s, cuts[n], end);
    ActsIffEffective(s, cuts, n, from, end);
    forall i | 0 <= i < |s'.pieces|
      ensures FadeInWithin(cuts, n + 1, from, end, s'.pieces[i].seg.start, s'.pieces[i].fadeIn)
      ensures FadeOutWithin(cuts, n + 1, from, end, s'.pieces[i].seg.end, s'.pieces[i].fadeOut)
    {
      if i < |s.pieces| {
        assert s'.pieces[i] == s.pieces[i];
      } else {
        assert FirstStartingAt(cuts, n, from, end, cuts[n].start) by {
          forall j | 0 <= j < n && Effective(cuts, j, from, end)
            ensures cuts[j].start != cuts[n].start
          {
            assert cuts[j].start < Min(end, cuts[j].end) <= s.pos < cuts[n].start;
          }
        }
      }
    }
  }

  lemma {:induction false} SweepPairs(cuts: seq<Cut>, n: nat, from: real, end: real)
    requires n <= |cuts| && StartSorted(cuts) && from < end
    ensures FadesPaired(SweepTo(cuts, n, from, end), cuts, n, from, end)
  {
    if n > 0 {
      SweepPairs(cuts, n - 1, from, end);
      SweepShaped(cuts, n - 1, from, end);
      PosRecords(cuts, n - 1, from, end);
      SweepCutPairs(SweepTo(cuts, n - 1, from, end), cuts, n - 1, from, end);
    }
  }

  // ------------------------------------------------ main results

  lemma SortedByStart(cuts: seq<Cut>)
    ensures StartSorted(ByStart(cuts))
    ensures multiset(ByStart(cuts)) == multiset(cuts)
    ensures |ByStart(cuts)| == |cuts|
  {
    var key := (c: Cut) => c.start;
    SortIsStable(key, cuts);
    var s := ByStart(cuts);
    assert |multiset(s)| == |s| && |multiset(cuts)| == |cuts|;
    forall i, j | 0 <= i < j < |s| ensures s[i].start <= s[j].start {
      assert key(s[i]) <= key(s[j]);
    }
  }

  // An empty window leaves the sweep where it started.
  lemma {:induction false} EmptyWindow(cuts: seq<Cut>, n: nat, from: real, end: real)
    requires n <= |cuts| && end <= from
    ensures SweepTo(cuts, n, from, end) == Sweep(from, 0.0, [])
  {
    if n > 0 {
      EmptyWindow(cuts, n - 1, from, end);
    }
  }

  // Closing the last segment: what survives, in ordered runs.
  lemma KeptPiecesExact(cuts: seq<Cut>, from: real, end: real)
    requires StartSorted(cuts)
    ensures Separated(Segs(KeptPieces(cuts, from, end)))
    ensures forall t :: InSegments(Segs(KeptPieces(cuts, from, end)), t) <==> Survives(cuts, from, end, t)
    ensures |KeptPieces(cuts, from, end)| <= |cuts| + 1
    ensures forall q :: q in KeptPieces(cuts, from, end) ==> from <= q.seg.start && q.seg.end <= end
  {
    var n := |cuts|;
    var s := SweepTo(cuts, n, from, end);
    var pieces := KeptPieces(cuts, from, end);
    if end <= from {
      EmptyWindow(cuts, n, from, end);
      assert Segs(pieces) == [];
    } else {
      SweepShaped(cuts, n, from, end);
      var last := Segment(s.pos, end);
      if s.pos < end {
        assert Segs(pieces) == Segs(s.pieces) + [last];
        AppendedSeparated(Segs(s.pieces), last);
      }
      forall t
        ensures InSegments(Segs(pieces), t) <==> Survives(cuts, from, end, t)
      {
        assert cuts[..n] == cuts;
        SweepCollects(cuts, n, from, end, t);
        if s.pos <= t < end {
          AheadSurvives(s, cuts, n, from, end, t);
        }
        AppendedSegment(Segs(s.pieces), last, t);
      }
    }
  }

  lemma KeptPiecesPaired(cuts: seq<Cut>, from: real, end: real, q: Piece)
    requires StartSorted(cuts) && q in KeptPieces(cuts, from, end)
    ensures FadeInFor(cuts, from, end, q.seg.start, q.fadeIn)
    ensures FadeOutFor(cuts, from, end, q.seg.end, q.fadeOut)
  {
    var n := |cuts|;
    if end <= from {
      EmptyWindow(cuts, n, from, end);
    } else {
      SweepPairs(cuts, n, from, end);
      var s := SweepTo(cuts, n, from, end);
      if q in s.pieces {
        assert FadeInWithin(cuts, n, from, end, q.seg.start, q.fadeIn);
        assert FadeOutWithin(cuts, n, from, end, q.seg.end, q.fadeOut);
      }
    }
  }

  // The kept pieces are the layout: exactly the surviving time, split into ordered non-empty
  // runs with positive gaps, at most one more than there are cuts, each with its own fades.
  lemma KeptPiecesAreLayout(cuts: seq<Cut>, from: real, end: real)
    requires StartSorted(cuts)
    ensures IsLayout(cuts, from, end, KeptPieces(cuts, from, end))
    ensures |KeptPieces(cuts, from, end)| <= |cuts| + 1
    ensures forall q :: q in KeptPieces(cuts, from, end) ==> from <= q.seg.start && q.seg.end <= end
  {
    KeptPiecesExact(cuts, from, end);
    var pieces := KeptPieces(cuts, from, end);
    forall i | 0 <= i < |pieces|
      ensures FadeInFor(cuts, from, end, pieces[i].seg.start, pieces[i].fadeIn)
      ensures FadeOutFor(cuts, from, end, pieces[i].seg.end, pieces[i].fadeOut)
    {
      KeptPiecesPaired(cuts, from, end, pieces[i]);
    }
  }

  // The "cuts remove the entire audio" error is raised exactly when nothing survives.
  lemma NothingKept(cuts: seq<Cut>, from: real, end: real)
    ensures KeptPieces(ByStart(cuts), from, end) == [] <==> forall t :: !Survives(cuts, from, end, t)
  {
    var sorted := ByStart(cuts);
    var pieces := KeptPieces(sorted, from, end);
    SortedByStart(cuts);
    KeptPiecesAreLayout(sorted, from, end);
    forall t ensures Survives(cuts, from, end, t) <==> InSegments(Segs(pieces), t) {
      SurvivesSorted(cuts, from, end, t);
    }
    FirstStartKept(Segs(pieces));
  }

  lemma SurvivesSorted(cuts: seq<Cut>, from: real, end: real, t: real)
    ensures Survives(cuts, from, end, t) <==> Survives(ByStart(cuts), from, end, t)
  {
    var sorted := ByStart(cuts);
    SortedByStart(cuts);
    forall c ensures c in cuts <==> c in sorted {
      assert c in multiset(cuts) <==> c in multiset(sorted);
    }
    if !Survives(cuts, from, end, t) && from <= t < end {
      var i :| 0 <= i < |cuts| && cuts[i].Removes(t);
      assert cuts[i] in sorted;
    }
    if !Survives(sorted, from, end, t) && from <= t < end {
      var i :| 0 <= i < |sorted| && sorted[i].Removes(t);
      assert sorted[i] in cuts;
    }
  }

  // A layout is determined by the cuts: no two differ.
  lemma {:induction false} SegmentsUnique(a: seq<Segment>, b: seq<Segment>)
    requires Separated(a) && Separated(b)
    requires forall t :: InSegments(a, t) <==> InSegments(b, t)
    ensures a == b
  {
    FirstStartKept(a);
    FirstStartKept(b);
    assert a != [] ==> InSegments(b, a[0].start);
    assert b != [] ==> InSegments(a, b[0].start);
    if a != [] && b != [] {
      SameFirst(a, b);
      SeparatedTail(a);
      SeparatedTail(b);
      forall t ensures InSegments(a[1..], t) <==> InSegments(b[1..], t) {
        assert InSegments(a, t) <==> InSegments(b, t);
      }
      SegmentsUnique(a[1..], b[1..]);
      assert a == [a[0]] + a[1..] && b == [b[0]] + b[1..];
    }
  }

  lemma SameFirst(a: seq<Segment>, b: seq<Segment>)
    requires Separated(a) && Separated(b) && a != [] && b != []
    requires forall t :: InSegments(a, t) <==> InSegments(b, t)
    ensures a[0] == b[0]
  {
    SeparatedTail(a);
    SeparatedTail(b);
    FirstStartKept(a);
    FirstStartKept(b);
    var e := Min(a[0].end, b[0].end);
    assert InSegments(a, e) <==> InSegments(b, e);
    assert InSegments(a, b[0].start) && InSegments(b, a[0].start);
  }

  lemma LayoutUnique(cuts: seq<Cut>, from: real, end: real, a: seq<Piece>, b: seq<Piece>)
    requires IsLayout(cuts, from, end, a) && IsLayout(cuts, from, end, b)
    ensures a == b
  {
    forall t ensures InSegments(Segs(a), t) <==> InSegments(Segs(b), t) {
      assert InSegments(Segs(a), t) <==> Survives(cuts, from, end, t);
      assert InSegments(Segs(b), t) <==> Survives(cuts, from, end, t);
    }
    SegmentsUnique(Segs(a), Segs(b));
    assert |a| == |Segs(a)| == |b|;
    forall i | 0 <= i < |a| ensures a[i] == b[i] {
      assert a[i].seg == Segs(a)[i] == Segs(b)[i] == b[i].seg;
      FadeInUnique(cuts, from, end, a[i].seg.start, a[i].fadeIn, b[i].fadeIn);
      FadeOutUnique(cuts, from, end, a[i].seg.end, a[i].fadeOut, b[i].fadeOut);
    }
  }

  lemma FadeInUnique(cuts: seq<Cut>, from: real, end: real, at: real, x: real, y: real)
    requires FadeInFor(cuts, from, end, at, x) && FadeInFor(cuts, from, end, at, y)
    ensures x == y
  {
    if at != from {
      var i :| 0 <= i < |cuts| && Effective(cuts, i, from, end) && Min(end, cuts[i].end) == at && x == cuts[i].fadeIn;
      var j :| 0 <= j < |cuts| && Effective(cuts, j, from, end) && Min(end, cuts[j].end) == at && y == cuts[j].fadeIn;
      assert i < j || i == j || j < i;
    }
  }

  lemma FadeOutUnique(cuts: seq<Cut>, from: real, end: real, at: real, x: real, y: real)
    requires FadeOutFor(cuts, from, end, at, x) && FadeOutFor(cuts, from, end, at, y)
    ensures x == y
  {
    if at != end {
      var i :| 0 <= i < |cuts| && FirstStartingAt(cuts, i, from, end, at) && x == cuts[i].fadeOut;
      var j :| 0 <= j < |cuts| && FirstStartingAt(cuts, j, from, end, at) && y == cuts[j].fadeOut;
      assert i < j || i == j || j < i;
    }
  }
}
