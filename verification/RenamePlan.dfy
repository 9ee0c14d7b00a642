/** Free names, and the plans of renames that choosing them one after the other makes. */
module RenamePlan {

  // The cleaned stem and the lower-cased suffix of a file name.
  type Namer = string -> (string, string)

  // ------------------------------------------------ numbered names

  const DIGITS := "0123456789"

  function Decimal(n: nat): (s: string)
    ensures |s| >= 1 && (n >= 10 ==> |s| >= 2)
  {
    if n < 10 then [DIGITS[n]] else Decimal(n / 10) + [DIGITS[n % 10]]
  }

  function Numbered(stem: string, i: nat, ext: string): string {
    stem + " (" + Decimal(i) + ")" + ext
  }

  lemma DigitsDiffer(a: nat, b: nat)
    requires a < 10 && b < 10 && DIGITS[a] == DIGITS[b]
    ensures a == b
  {
  }

  lemma {:induction false} DecimalInjective(a: nat, b: nat)
    requires Decimal(a) == Decimal(b)
    ensures a == b
    decreases a
  {
    var s, t := Decimal(a), Decimal(b);
    assert s[|s| - 1] == t[|t| - 1];
    DigitsDiffer(a % 10, b % 10);
    if a >= 10 && b >= 10 {
      assert s[..|s| - 1] == Decimal(a / 10) && t[..|t| - 1] == Decimal(b / 10);
      DecimalInjective(a / 10, b / 10);
    }
  }

  lemma NumberedInjective(stem: string, a: nat, b: nat, ext: string)
    requires Numbered(stem, a, ext) == Numbered(stem, b, ext)
    ensures a == b
  {
    var s, t := Numbered(stem, a, ext), Numbered(stem, b, ext);
    var front := |stem + " ("|;
    assert s[front..front + |Decimal(a)|] == Decimal(a);
    assert t[front..front + |Decimal(b)|] == Decimal(b);
    DecimalInjective(a, b);
  }

  // The search never gives up, and there are only so many names to try: it ends at the least
  // free number from two on.
  method FreeNumber(stem: string, ext: string, taken: set<string>) returns (i: nat)
    ensures i >= 2 && Numbered(stem, i, ext) !in taken
    ensures forall k :: 2 <= k < i ==> Numbered(stem, k, ext) in taken
    ensures i <= |taken| + 2
  {
    hide Numbered;
    i := 2;
    ghost var tried: set<string> := {};
    while true
      invariant i >= 2 && |tried| == i - 2 && tried <= taken
      invariant forall k :: 2 <= k < i ==> Numbered(stem, k, ext) in taken
      invariant forall x :: x in tried ==> exists k :: 2 <= k < i && x == Numbered(stem, k, ext)
      decreases |taken - tried|
    {
      SubsetSize(tried, taken);
      if Numbered(stem, i, ext) !in taken {
        return;
      }
      var name := Numbered(stem, i, ext);
      if name in tried {
        var k :| 2 <= k < i && name == Numbered(stem, k, ext);
        NumberedInjective(stem, i, k, ext);
      }
      assert taken - (tried + {name}) == (taken - tried) - {name};
      tried := tried + {name};
      i := i + 1;
    }
  }

  lemma SubsetSize<T>(a: set<T>, b: set<T>)
    requires a <= b
    ensures |a| <= |b|
  {
    assert b == a + (b - a);
    assert |b| == |a| + |b - a|;
  }

  // ------------------------------------------------ plans

  // From which name to which.
  type Rename = (string, string)

  // The cleaned name when it is free, else the least numbered variant that is.
  ghost predicate FirstFree(taken: set<string>, stem: string, ext: string, target: string) {
    && target !in taken
    && (target == stem + ext ||
        (stem + ext in taken &&
         exists n :: 2 <= n && target == Numbered(stem, n, ext) && AllTaken(taken, stem, n, ext)))
  }

  ghost predicate AllTaken(taken: set<string>, stem: string, n: nat, ext: string) {
    forall k :: 2 <= k < n ==> Numbered(stem, k, ext) in taken
  }

  function Front(plan: seq<Rename>): seq<Rename>
    requires plan != []
  {
    plan[..|plan| - 1]
  }

  function Last(plan: seq<Rename>): Rename
    requires plan != []
  {
    plan[|plan| - 1]
  }

  function Froms(plan: seq<Rename>): set<string> {
    if plan == [] then {} else Froms(Front(plan)) + {Last(plan).0}
  }

  function Targets(plan: seq<Rename>): set<string> {
    if plan == [] then {} else Targets(Front(plan)) + {Last(plan).1}
  }

  // The names taken when a plan has been made; carrying it out frees old names.
  function Taken(names: set<string>, plan: seq<Rename>, carriedOut: bool): set<string> {
    (if carriedOut then names - Froms(plan) else names) + Targets(plan)
  }

  // Every rename goes to the first name free at its turn.
  ghost predicate Follows(names: set<string>, plan: seq<Rename>, carriedOut: bool, namer: Namer) {
    plan == [] ||
    (Follows(names, Front(plan), carriedOut, namer) &&
     FirstFree(Taken(names, Front(plan), carriedOut), namer(Last(plan).0).0, namer(Last(plan).0).1, Last(plan).1))
  }

  function Sources(plan: seq<Rename>): (s: seq<string>)
    ensures |s| == |plan| && forall i :: 0 <= i < |s| ==> s[i] == plan[i].0
  {
    seq(|plan|, i requires 0 <= i < |plan| => plan[i].0)
  }

  // How many renames had to take a numbered name.
  function Suffixed(plan: seq<Rename>, namer: Namer): nat {
    if plan == [] then 0
    else
      var last := Last(plan);
      Suffixed(Front(plan), namer) + if last.1 != namer(last.0).0 + namer(last.0).1 then 1 else 0
  }

  lemma OneMore(plan: seq<Rename>, r: Rename)
    ensures plan + [r] != [] && Front(plan + [r]) == plan && Last(plan + [r]) == r
  {
  }

  lemma FollowsOneMore(names: set<string>, plan: seq<Rename>, r: Rename, carriedOut: bool, namer: Namer)
    requires Follows(names, plan, carriedOut, namer)
    requires FirstFree(Taken(names, plan, carriedOut), namer(r.0).0, namer(r.0).1, r.1)
    ensures Follows(names, plan + [r], carriedOut, namer)
    ensures Suffixed(plan + [r], namer) == Suffixed(plan, namer) + if r.1 != namer(r.0).0 + namer(r.0).1 then 1 else 0
  {
    hide Taken, FirstFree, Front, Last;
    OneMore(plan, r);
  }

  // Carrying out a rename changes the names taken as the plan says.
  lemma TakenAfterRename(names: set<string>, plan: seq<Rename>, r: Rename, now: set<string>, used: set<string>)
    requires now + used == Taken(names, plan, true) && used == Targets(plan)
    ensures (now - {r.0} + {r.1}) + (used + {r.1}) == Taken(names, plan + [r], true)
    ensures used + {r.1} == Targets(plan + [r])
  {
    OneMore(plan, r);
    hide Front, Last;
    var before, after := Taken(names, plan, true), Taken(names, plan + [r], true);
    assert after == (names - (Froms(plan) + {r.0})) + (used + {r.1});
    forall x
      ensures x in (now - {r.0} + {r.1}) + (used + {r.1}) <==> x in after
    {
      assert x in now || x in used <==> x in before;
    }
  }

  // ------------------------------------------------ a dry run as a forecast

  lemma FirstFreeUnique(taken: set<string>, stem: string, ext: string, x: string, y: string)
    requires FirstFree(taken, stem, ext, x) && FirstFree(taken, stem, ext, y)
    ensures x == y
  {
    if x != stem + ext && y != stem + ext {
      var m :| 2 <= m && x == Numbered(stem, m, ext) && AllTaken(taken, stem, m, ext);
      var n :| 2 <= n && y == Numbered(stem, n, ext) && AllTaken(taken, stem, n, ext);
      assert m == n;
    }
  }

  lemma SourcesFront(plan: seq<Rename>)
    requires plan != []
    ensures Sources(Front(plan)) == Sources(plan)[..|plan| - 1] && Last(plan).0 == Sources(plan)[|plan| - 1]
  {
  }

  // The files to rename settle the plan.
  lemma {:induction false} PlanUnique(names: set<string>, a: seq<Rename>, b: seq<Rename>, carriedOut: bool,
                                      namer: Namer)
    requires Follows(names, a, carriedOut, namer) && Follows(names, b, carriedOut, namer) && Sources(a) == Sources(b)
    ensures a == b
    decreases |a|
  {
    hide FirstFree, Taken;
    assert |Sources(a)| == |a| && |Sources(b)| == |b|;
    if a != [] {
      SourcesFront(a);
      SourcesFront(b);
      PlanUnique(names, Front(a), Front(b), carriedOut, namer);
      var f := Last(a).0;
      FirstFreeUnique(Taken(names, Front(a), carriedOut), namer(f).0, namer(f).1, Last(a).1, Last(b).1);
      assert a == Front(a) + [Last(a)] && b == Front(b) + [Last(b)];
    }
  }

  // A name that was tried and found taken before the target was settled on.
  ghost predicate PassedOver(stem: string, ext: string, target: string, name: string) {
    && target != stem + ext
    && (name == stem + ext ||
        exists n, k :: 2 <= k < n && target == Numbered(stem, n, ext) && name == Numbered(stem, k, ext))
  }

  // No rename passes over a name that an earlier one is about to give up.
  ghost predicate NoNameFreed(plan: seq<Rename>, namer: Namer) {
    forall i, j :: 0 <= j < i < |plan| ==>
      !PassedOver(namer(plan[i].0).0, namer(plan[i].0).1, plan[i].1, plan[j].0)
  }

  lemma PassedOverWasTaken(taken: set<string>, stem: string, ext: string, target: string, name: string)
    requires FirstFree(taken, stem, ext, target) && PassedOver(stem, ext, target, name)
    ensures name in taken
  {
    if name != stem + ext {
      var n, k :| 2 <= k < n && target == Numbered(stem, n, ext) && name == Numbered(stem, k, ext);
      var m :| 2 <= m && target == Numbered(stem, m, ext) && AllTaken(taken, stem, m, ext);
      NumberedInjective(stem, m, n, ext);
    }
  }

  // With fewer names taken the choice is the same as long as none passed over is among those freed.
  lemma FirstFreeWithFewer(taken: set<string>, fewer: set<string>, stem: string, ext: string, target: string)
    requires FirstFree(taken, stem, ext, target) && fewer <= taken
    requires forall x :: x in taken && PassedOver(stem, ext, target, x) ==> x in fewer
    ensures FirstFree(fewer, stem, ext, target)
  {
    if target != stem + ext {
      var n :| 2 <= n && target == Numbered(stem, n, ext) && AllTaken(taken, stem, n, ext);
      forall k | 2 <= k < n ensures Numbered(stem, k, ext) in fewer {
        assert PassedOver(stem, ext, target, Numbered(stem, k, ext));
      }
      assert AllTaken(fewer, stem, n, ext);
    }
  }

  lemma NoNameFreedFront(plan: seq<Rename>, namer: Namer)
    requires plan != []
    ensures NoNameFreed(plan, namer) <==>
            NoNameFreed(Front(plan), namer) && LastFreesNone(plan, namer)
  {
    hide PassedOver;
  }

  // The last rename passes over no name that one before it gives up.
  ghost predicate LastFreesNone(plan: seq<Rename>, namer: Namer)
    requires plan != []
  {
    forall j :: 0 <= j < |plan| - 1 ==>
      !PassedOver(namer(Last(plan).0).0, namer(Last(plan).0).1, Last(plan).1, plan[j].0)
  }

  lemma {:induction false} FromsAre(plan: seq<Rename>, x: string)
    ensures x in Froms(plan) <==> exists j :: 0 <= j < |plan| && plan[j].0 == x
  {
    if plan != [] {
      FromsAre(Front(plan), x);
      assert plan[|plan| - 1] == Last(plan);
      assert forall j :: 0 <= j < |plan| - 1 ==> Front(plan)[j] == plan[j];
    }
  }

  // No dry-run target is a name that is there.
  lemma {:induction false} TargetsAreNew(names: set<string>, plan: seq<Rename>, namer: Namer)
    requires Follows(names, plan, false, namer)
    ensures Targets(plan) !! names
  {
    if plan != [] {
      TargetsAreNew(names, Front(plan), namer);
    }
  }

  // A dry run's plan that passes over no name about to be given up is what a real run does.
  lemma {:induction false} ForecastHolds(names: set<string>, plan: seq<Rename>, namer: Namer)
    requires Follows(names, plan, false, namer) && NoNameFreed(plan, namer)
    ensures Follows(names, plan, true, namer)
  {
    hide FirstFree, NoNameFreed;
    if plan != [] {
      NoNameFreedFront(plan, namer);
      ForecastHolds(names, Front(plan), namer);
      var (stem, ext) := namer(Last(plan).0);
      forall x | x in Froms(Front(plan)) ensures !PassedOver(stem, ext, Last(plan).1, x) {
        FromsAre(Front(plan), x);
      }
      FirstFreeWithFewer(Taken(names, Front(plan), false), Taken(names, Front(plan), true), stem, ext, Last(plan).1);
    }
  }

  // And only such a plan is.
  lemma {:induction false} OnlyThenForecast(names: set<string>, plan: seq<Rename>, namer: Namer)
    requires Follows(names, plan, false, namer) && Follows(names, plan, true, namer)
    requires forall x :: x in Froms(plan) ==> x in names
    ensures NoNameFreed(plan, namer)
  {
    hide FirstFree, NoNameFreed, PassedOver;
    if plan == [] {
      NothingPlanned(plan, namer);
    } else {
      OnlyThenForecast(names, Front(plan), namer);
      NoNameFreedFront(plan, namer);
      var (stem, ext) := namer(Last(plan).0);
      TargetsAreNew(names, Front(plan), namer);
      forall j | 0 <= j < |plan| - 1 ensures !PassedOver(stem, ext, Last(plan).1, plan[j].0) {
        assert Front(plan)[j] == plan[j];
        FromsAre(Front(plan), plan[j].0);
        if PassedOver(stem, ext, Last(plan).1, plan[j].0) {
          PassedOverWasTaken(Taken(names, Front(plan), true), stem, ext, Last(plan).1, plan[j].0);
        }
      }
    }
  }

  lemma NothingPlanned(plan: seq<Rename>, namer: Namer)
    requires plan == []
    ensures NoNameFreed(plan, namer)
  {
  }

  // A dry run forecasts the real run of the same files, all of whose tags can be written, if
  // and only if it passes over no name that an earlier rename would have given up.
  lemma PlansAgreeIff(names: set<string>, dry: seq<Rename>, done: seq<Rename>, namer: Namer)
    requires Follows(names, dry, false, namer) && Follows(names, done, true, namer) && Sources(dry) == Sources(done)
    requires forall f :: f in Sources(dry) ==> f in names
    ensures dry == done <==> NoNameFreed(dry, namer)
  {
    hide Follows, NoNameFreed;
    forall x | x in Froms(dry) ensures x in names {
      FromsAre(dry, x);
      var j :| 0 <= j < |dry| && dry[j].0 == x;
      assert Sources(dry)[j] == x;
    }
    if NoNameFreed(dry, namer) {
      ForecastHolds(names, dry, namer);
      PlanUnique(names, dry, done, true, namer);
    } else if dry == done {
      OnlyThenForecast(names, dry, namer);
    }
  }
}
