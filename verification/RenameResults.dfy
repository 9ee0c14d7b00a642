/** What a renaming pass comes to, file by file, and what its counters count. */
module RenameResults {
  import opened Basics
  import opened RenamePlan
  import opened RenamePass

  // A file can be dealt with: its name cleans to something, and it has a title or can be given one.
  ghost predicate Treatable(was: map<string, Content>, namer: Namer, writable: string -> bool, f: string) {
    f in was && namer(f).0 != "" && (was[f].title != "" || writable(f))
  }

  // What a pass has made of every file: one it dealt with is under its cleaned name or a numbered
  // one, with its audio, its title if it had one and else its cleaned stem; any other file is as
  // it was found.
  lemma PassMeans(was: map<string, Content>, now: map<string, Content>, home: map<string, string>, plan: seq<Rename>,
                  files: seq<string>, k: nat, namer: Namer, writable: string -> bool, f: string)
    requires k <= |files| && Progress(was, now, home, plan, files, k, namer, writable) && f in was
    ensures f in home && home[f] in now
    ensures f in files[..k] && Treatable(was, namer, writable, f) ==>
              var (stem, ext) := namer(f);
              && now[home[f]] == Content(was[f].audio, if was[f].title == "" then stem else was[f].title)
              && (home[f] == stem + ext || exists i :: 2 <= i && home[f] == stem + " (" + Decimal(i) + ")" + ext)
    ensures !(f in files[..k] && Treatable(was, namer, writable, f)) ==> home[f] == f && now[f] == was[f]
  {
    hide Housed, Recorded, NamedFor, Decimal;
    if f in files[..k] {
      var i :| 0 <= i < k && files[i] == f;
      assert Settled(was, now, home, namer, writable, files[i]);
      if Treatable(was, namer, writable, f) {
        NamedOut(namer, f, home[f]);
      }
    } else {
      assert Untouched(was, now, home, f);
    }
  }

  lemma NamedOut(namer: Namer, f: string, target: string)
    requires NamedFor(namer, f, target)
    ensures var (stem, ext) := namer(f);
            target == stem + ext || exists i :: 2 <= i && target == stem + " (" + Decimal(i) + ")" + ext
  {
    var (stem, ext) := namer(f);
    if target != stem + ext {
      var i :| 2 <= i && target == Numbered(stem, i, ext);
      assert target == stem + " (" + Decimal(i) + ")" + ext;
    }
  }

  // The files that get another name: those that can be dealt with and are not clean yet.
  lemma {:induction false} MovingAre(was: map<string, Content>, files: seq<string>, k: nat, namer: Namer,
                                     writable: string -> bool, f: string)
    requires k <= |files|
    ensures f in Moving(was, files, k, namer, writable) <==>
            f in files[..k] && Treatable(was, namer, writable, f) && namer(f).0 + namer(f).1 != f
  {
    if k > 0 {
      MovingAre(was, files, k - 1, namer, writable, f);
      assert files[..k] == files[..k - 1] + [files[k - 1]];
    }
  }

  ghost predicate Before(files: seq<string>, k: nat, f: string, g: string)
    requires k <= |files|
  {
    exists i, j :: 0 <= i < j < k && files[i] == f && files[j] == g
  }

  lemma {:induction false} MovingInOrder(was: map<string, Content>, files: seq<string>, k: nat, namer: Namer,
                                         writable: string -> bool, a: nat, b: nat)
    requires k <= |files| && a < b < |Moving(was, files, k, namer, writable)|
    ensures Before(files, k, Moving(was, files, k, namer, writable)[a], Moving(was, files, k, namer, writable)[b])
  {
    var before := Moving(was, files, k - 1, namer, writable);
    if b < |before| {
      MovingInOrder(was, files, k - 1, namer, writable, a, b);
    } else {
      MovingAre(was, files, k - 1, namer, writable, before[a]);
      assert before[a] in files[..k - 1];
      var i :| 0 <= i < k - 1 && files[i] == before[a];
    }
  }

  // A pass renames exactly those files, in the order in which they were found.
  lemma PlanMoves(was: map<string, Content>, files: seq<string>, k: nat, namer: Namer, writable: string -> bool,
                  carriedOut: bool, plan: seq<Rename>, f: string)
    requires k <= |files| && PassPlan(was, files, k, namer, writable, carriedOut, plan)
    ensures (exists i :: 0 <= i < |plan| && plan[i].0 == f) <==>
            f in files[..k] && Treatable(was, namer, writable, f) && namer(f).0 + namer(f).1 != f
    ensures forall a, b :: 0 <= a < b < |plan| ==> Before(files, k, plan[a].0, plan[b].0)
  {
    MovingAre(was, files, k, namer, writable, f);
    var s := Sources(plan);
    assert f in s <==> exists i :: 0 <= i < |plan| && plan[i].0 == f;
    hide Moving, Follows, Treatable, Before;
    forall a, b | 0 <= a < b < |plan| ensures Before(files, k, plan[a].0, plan[b].0) {
      MovingInOrder(was, files, k, namer, writable, a, b);
      assert s[a] == plan[a].0 && s[b] == plan[b].0;
    }
  }

  ghost function Untitled(was: map<string, Content>, done: seq<string>, namer: Namer,
                          writable: string -> bool): set<string>
  {
    set f | f in done && Treatable(was, namer, writable, f) && was[f].title == ""
  }

  // Titles counted are the files that had none and could be given one.
  lemma {:induction false} TitlesCounted(was: map<string, Content>, files: seq<string>, k: nat, namer: Namer,
                                         writable: string -> bool)
    requires k <= |files| && Distinct(files)
    ensures TitledCount(was, files, k, namer, writable) == |Untitled(was, files[..k], namer, writable)|
  {
    if k == 0 {
      assert Untitled(was, files[..0], namer, writable) == {};
    } else {
      TitlesCounted(was, files, k - 1, namer, writable);
      var f := files[k - 1];
      assert files[..k] == files[..k - 1] + [f] && f !in files[..k - 1];
      OneMoreUntitled(was, files[..k - 1], f, namer, writable);
      hide Untitled;
    }
  }

  lemma OneMoreUntitled(was: map<string, Content>, done: seq<string>, f: string, namer: Namer,
                        writable: string -> bool)
    requires f !in done
    ensures |Untitled(was, done + [f], namer, writable)| ==
              |Untitled(was, done, namer, writable)| + if Titled(was, namer, writable, f) then 1 else 0
  {
    var before, now := Untitled(was, done, namer, writable), Untitled(was, done + [f], namer, writable);
    assert f in now <==> Titled(was, namer, writable, f);
    hide Titled, Treatable;
    assert f !in before;
    if f in now {
      assert now == before + {f};
    } else {
      assert now == before;
    }
  }

  ghost predicate TookNumber(r: Rename, namer: Namer) {
    r.1 != namer(r.0).0 + namer(r.0).1
  }

  ghost function NumberedOnes(plan: seq<Rename>, n: nat, namer: Namer): set<nat>
    requires n <= |plan|
  {
    set i: nat | i < n && TookNumber(plan[i], namer)
  }

  // Collisions counted are the renames to a name other than the cleaned one.
  lemma {:induction false} SuffixesCounted(plan: seq<Rename>, n: nat, namer: Namer)
    requires n <= |plan|
    ensures Suffixed(plan[..n], namer) == |NumberedOnes(plan, n, namer)|
  {
    if n == 0 {
      assert NumberedOnes(plan, 0, namer) == {};
    } else {
      SuffixesCounted(plan, n - 1, namer);
      assert Front(plan[..n]) == plan[..n - 1] && Last(plan[..n]) == plan[n - 1];
      OneMoreNumbered(plan, n, namer);
      hide NumberedOnes;
    }
  }

  lemma OneMoreNumbered(plan: seq<Rename>, n: nat, namer: Namer)
    requires 0 < n <= |plan|
    ensures |NumberedOnes(plan, n, namer)| ==
              |NumberedOnes(plan, n - 1, namer)| + if TookNumber(plan[n - 1], namer) then 1 else 0
  {
    var before, now := NumberedOnes(plan, n - 1, namer), NumberedOnes(plan, n, namer);
    hide TookNumber;
    assert n - 1 !in before;
    if TookNumber(plan[n - 1], namer) {
      assert now == before + {n - 1};
    } else {
      assert now == before;
    }
  }
}
