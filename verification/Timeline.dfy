/** Kept segments of an audio file, and the map from source time to the spliced buffer. */
module Timeline {

  import opened Basics

  // A half-open stretch [start, end) of source time.
  datatype Segment = Segment(start: real, end: real) {
    predicate Has(t: real) { start <= t < end }
    function Length(): real { end - start }
  }

  ghost predicate InSegments(segs: seq<Segment>, t: real) {
    exists i :: 0 <= i < |segs| && segs[i].Has(t)
  }

  // Non-empty segments in order, with a positive gap between neighbours.
  ghost predicate Separated(segs: seq<Segment>) {
    && (forall i :: 0 <= i < |segs| ==> segs[i].start < segs[i].end)
    && (forall i, j :: 0 <= i < j < |segs| ==> segs[i].end < segs[j].start)
  }

  function Total(segs: seq<Segment>): real {
    if segs == [] then 0.0 else segs[0].Length() + Total(segs[1..])
  }

  // ------------------------------------------------ source time to buffer offset

  function Offset(segs: seq<Segment>, t: real): real {
    if segs == [] || t <= segs[0].start then 0.0
    else if t <= segs[0].end then t - segs[0].start
    else segs[0].Length() + Offset(segs[1..], t)
  }

  // The accumulating loop, for any list of segments, ordered or not.
  method OrigToBufOffset(origTime: real, segs: seq<Segment>) returns (off: real)
    ensures off == Offset(segs, origTime)
  {
    off := 0.0;
    for i := 0 to |segs|
      invariant off + Offset(segs[i..], origTime) == Offset(segs, origTime)
    {
      var s, e := segs[i].start, segs[i].end;
      assert segs[i..][1..] == segs[i + 1..];
      if origTime <= s {
        return off;
      }
      if origTime <= e {
        return off + (origTime - s);
      }
      off := off + (e - s);
    }
  }

  // Where a buffer offset comes from in the source.
  function Locate(segs: seq<Segment>, u: real): Option<real> {
    if segs == [] || u < 0.0 then None
    else if u < segs[0].Length() then Some(segs[0].start + u)
    else Locate(segs[1..], u - segs[0].Length())
  }

  // ------------------------------------------------ kept time, stated without segments

  ghost predicate AllKept(kept: real -> bool, a: real, b: real) {
    forall t :: a <= t < b ==> kept(t)
  }

  ghost predicate NoneKept(kept: real -> bool, a: real, b: real) {
    forall t :: a <= t < b ==> !kept(t)
  }

  // k(t) is the total kept time before t: it grows at rate one over kept time, stands
  // still over removed time, and is zero while nothing has been kept yet.
  ghost predicate KeptMeasure(k: real -> real, kept: real -> bool) {
    && (forall a, b :: a <= b && AllKept(kept, a, b) ==> k(b) - k(a) == b - a)
    && (forall a, b :: a <= b && NoneKept(kept, a, b) ==> k(b) == k(a))
    && (forall b :: (forall t :: t < b ==> !kept(t)) ==> k(b) == 0.0)
  }

  lemma SeparatedTail(segs: seq<Segment>)
    requires Separated(segs) && segs != []
    ensures Separated(segs[1..])
    ensures forall t :: InSegments(segs, t) <==> segs[0].Has(t) || InSegments(segs[1..], t)
    ensures forall t :: InSegments(segs[1..], t) ==> segs[0].end < t
    ensures |segs| > 1 ==> segs[0].end < segs[1].start
  {
    forall t
      ensures InSegments(segs, t) <==> segs[0].Has(t) || InSegments(segs[1..], t)
    {
      if InSegments(segs, t) {
        var i :| 0 <= i < |segs| && segs[i].Has(t);
        assert i > 0 ==> segs[1..][i - 1].Has(t);
      }
      if InSegments(segs[1..], t) {
        var i :| 0 <= i < |segs[1..]| && segs[1..][i].Has(t);
        assert segs[i + 1].Has(t);
      }
    }
  }

  // The offset is monotone and never runs faster than source time.
  lemma {:induction false} OffsetMonotone(segs: seq<Segment>, a: real, b: real)
    requires Separated(segs) && a <= b
    ensures 0.0 <= Offset(segs, b) - Offset(segs, a) <= b - a
    ensures 0.0 <= Offset(segs, a) <= Total(segs)
    ensures segs != [] ==> Offset(segs, b) <= Max(0.0, b - segs[0].start)
  {
    if segs != [] {
      SeparatedTail(segs);
      OffsetMonotone(segs[1..], a, b);
      OffsetMonotone(segs[1..], Min(segs[0].end, b), b);
    }
  }

  lemma {:induction false} OffsetOfKeptRun(segs: seq<Segment>, a: real, b: real)
    requires Separated(segs) && a <= b
    requires forall t :: a <= t < b ==> InSegments(segs, t)
    ensures Offset(segs, b) - Offset(segs, a) == b - a
  {
    if a < b {
      assert InSegments(segs, a);
      SeparatedTail(segs);
      var e := segs[0].end;
      assert a <= e < b ==> InSegments(segs, e);
      if e <= a {
        OffsetOfKeptRun(segs[1..], a, b);
      }
    }
  }

  lemma {:induction false} OffsetOfRemovedRun(segs: seq<Segment>, a: real, b: real)
    requires Separated(segs) && a <= b
    requires forall t :: a <= t < b ==> !InSegments(segs, t)
    ensures Offset(segs, b) == Offset(segs, a)
  {
    if a < b && segs != [] {
      SeparatedTail(segs);
      assert a < segs[0].start < b ==> segs[0].Has(segs[0].start);
      assert !segs[0].Has(a);
      if segs[0].end <= a {
        OffsetOfRemovedRun(segs[1..], a, b);
      }
    }
  }

  lemma FirstStartKept(segs: seq<Segment>)
    requires Separated(segs)
    ensures segs != [] ==> InSegments(segs, segs[0].start)
  {
    if segs != [] {
      assert segs[0].Has(segs[0].start);
    }
  }

  // The offset computed by the loop is a kept-time measure of the segments ...
  lemma OffsetIsKeptMeasure(segs: seq<Segment>, kept: real -> bool)
    requires Separated(segs)
    requires forall t :: kept(t) <==> InSegments(segs, t)
    ensures KeptMeasure(t => Offset(segs, t), kept)
  {
    var k := (t: real) => Offset(segs, t);
    forall a, b | a <= b && AllKept(kept, a, b)
      ensures k(b) - k(a) == b - a
    {
      OffsetOfKeptRun(segs, a, b);
    }
    forall a, b | a <= b && NoneKept(kept, a, b)
      ensures k(b) == k(a)
    {
      OffsetOfRemovedRun(segs, a, b);
    }
    FirstStartKept(segs);
    forall b | forall t :: t < b ==> !kept(t)
      ensures k(b) == 0.0
    {
      assert segs != [] ==> kept(segs[0].start);
    }
  }

  lemma {:induction false} MeasureFrom(segs: seq<Segment>, k: real -> real, kept: real -> bool, lo: real, t: real)
    requires Separated(segs) && KeptMeasure(k, kept) && lo <= t
    requires segs != [] ==> lo <= segs[0].start
    requires forall x :: lo <= x ==> (kept(x) <==> InSegments(segs, x))
    ensures k(t) == k(lo) + Offset(segs, t)
  {
    if segs == [] {
      assert NoneKept(kept, lo, t);
    } else {
      SeparatedTail(segs);
      var Segment(s, e) := segs[0];
      assert NoneKept(kept, lo, Min(s, t)) by {
        forall x | lo <= x < Min(s, t) ensures !kept(x) {
          assert !segs[0].Has(x);
        }
      }
      if s < t {
        assert AllKept(kept, s, Min(t, e)) by {
          forall x | s <= x < Min(t, e) ensures kept(x) {
            assert segs[0].Has(x);
          }
        }
        if e < t {
          MeasureFrom(segs[1..], k, kept, e, t);
        }
      }
    }
  }

  lemma NothingBefore(segs: seq<Segment>, x: real)
    requires Separated(segs) && (segs == [] || x < segs[0].start)
    ensures !InSegments(segs, x)
  {
    forall i | 0 <= i < |segs| ensures !segs[i].Has(x) {
      assert i > 0 ==> segs[0].end < segs[i].start;
    }
  }

  // ... and the only one.
  lemma KeptMeasureUnique(segs: seq<Segment>, k: real -> real, kept: real -> bool, t: real)
    requires Separated(segs) && KeptMeasure(k, kept)
    requires forall x :: kept(x) <==> InSegments(segs, x)
    ensures k(t) == Offset(segs, t)
  {
    var lo := if segs == [] then t else Min(segs[0].start, t);
    forall x | x < lo ensures !kept(x) {
      NothingBefore(segs, x);
    }
    MeasureFrom(segs, k, kept, lo, t);
  }

  // On kept points the offset has an inverse, and every offset below the total is reached.
  lemma {:induction false} LocateInvertsOffset(segs: seq<Segment>, t: real)
    requires Separated(segs) && InSegments(segs, t)
    ensures Locate(segs, Offset(segs, t)) == Some(t)
    ensures 0.0 <= Offset(segs, t) < Total(segs)
  {
    SeparatedTail(segs);
    OffsetMonotone(segs[1..], t, t);
    if !segs[0].Has(t) {
      LocateInvertsOffset(segs[1..], t);
    }
  }

  lemma {:induction false} OffsetInvertsLocate(segs: seq<Segment>, u: real)
    requires Separated(segs)
    ensures Locate(segs, u).Some? <==> 0.0 <= u < Total(segs)
    ensures Locate(segs, u).Some? ==>
              && InSegments(segs, Locate(segs, u).value)
              && Offset(segs, Locate(segs, u).value) == u
  {
    if segs != [] {
      SeparatedTail(segs);
      OffsetInvertsLocate(segs[1..], u - segs[0].Length());
      TotalNonNegative(segs[1..]);
      if 0.0 <= u < segs[0].Length() {
        assert segs[0].Has(segs[0].start + u);
      }
    }
  }

  lemma {:induction false} TotalNonNegative(segs: seq<Segment>)
    requires Separated(segs)
    ensures 0.0 <= Total(segs) && (segs != [] ==> 0.0 < Total(segs))
  {
    if segs != [] {
      SeparatedTail(segs);
      TotalNonNegative(segs[1..]);
    }
  }

  // Nothing kept from a to b exactly when the offset does not move between them.
  lemma OffsetStandsStill(segs: seq<Segment>, a: real, b: real)
    requires Separated(segs) && a <= b
    ensures Offset(segs, b) == Offset(segs, a) <==> forall t :: a <= t < b ==> !InSegments(segs, t)
  {
    if forall t :: a <= t < b ==> !InSegments(segs, t) {
      OffsetOfRemovedRun(segs, a, b);
    } else {
      var t :| a <= t < b && InSegments(segs, t);
      OffsetBefore(segs, t, b);
      OffsetMonotone(segs, a, t);
    }
  }

  // A kept instant lies strictly before any later instant in the buffer too.
  lemma OffsetBefore(segs: seq<Segment>, t: real, b: real)
    requires Separated(segs) && InSegments(segs, t) && t < b
    ensures Offset(segs, t) < Offset(segs, b)
  {
    var i :| 0 <= i < |segs| && segs[i].Has(t);
    var m := Min(b, segs[i].end);
    assert forall x :: t <= x < m ==> segs[i].Has(x);
    OffsetOfKeptRun(segs, t, m);
    OffsetMonotone(segs, m, b);
  }
}
