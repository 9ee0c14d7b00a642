/** Renaming a folder of audio files to cleaned names without ever losing one. */
module RenamePass {
  import opened Basics
  import opened RenamePlan

  datatype Content = Content(audio: nat, title: string)

  // ------------------------------------------------ where each file has gone

  // Every file that was there is housed under exactly one present name, and the other way
  // round, with its audio untouched.
  ghost predicate Housed(was: map<string, Content>, now: map<string, Content>, home: map<string, string>) {
    && home.Keys == was.Keys
    && (forall n :: n in home ==> home[n] in now && now[home[n]].audio == was[n].audio)
    && (forall n, m :: n in home && m in home && n != m ==> home[n] != home[m])
    && (forall x :: x in now ==> exists n :: n in home && home[n] == x)
  }

  lemma RenameKeepsHoused(was: map<string, Content>, now: map<string, Content>, home: map<string, string>, f: string,
                          target: string)
    requires Housed(was, now, home) && f in home && home[f] == f && target !in now
    ensures Housed(was, (now - {f})[target := now[f]], home[f := target])
  {
    var now', home' := (now - {f})[target := now[f]], home[f := target];
    assert f in now;
    forall n | n in home' ensures home'[n] in now' && now'[home'[n]].audio == was[n].audio {
      if n != f {
        assert home[n] != home[f];
      }
    }
    forall x | x in now' ensures exists n :: n in home' && home'[n] == x {
      if x == target {
        assert home'[f] == x;
      } else {
        var n :| n in home && home[n] == x;
        assert n in home' && home'[n] == x;
      }
    }
  }

  lemma RetitleKeepsHoused(was: map<string, Content>, now: map<string, Content>, home: map<string, string>, f: string,
                           title: string)
    requires Housed(was, now, home) && f in now
    ensures Housed(was, now[f := now[f].(title := title)], home)
  {
  }

  // Two files never end up as one: there are as many names as before.
  lemma HousedKeepsCount(was: map<string, Content>, now: map<string, Content>, home: map<string, string>)
    requires Housed(was, now, home)
    ensures |now| == |was|
  {
    var image := set n | n in home :: home[n];
    assert image == now.Keys;
    ImageSize(home, home.Keys);
    assert image == set n | n in home.Keys :: home[n];
  }

  lemma {:induction false} ImageSize(home: map<string, string>, keys: set<string>)
    requires keys <= home.Keys
    requires forall n, m :: n in keys && m in keys && n != m ==> home[n] != home[m]
    ensures |set n | n in keys :: home[n]| == |keys|
    decreases keys
  {
    if keys != {} {
      var f :| f in keys;
      ImageSize(home, keys - {f});
      var rest := set n | n in keys - {f} :: home[n];
      assert (set n | n in keys :: home[n]) == rest + {home[f]};
      assert home[f] !in rest;
    }
  }

  ghost predicate Distinct(s: seq<string>) {
    forall i, j :: 0 <= i < j < |s| ==> s[i] != s[j]
  }

  // Planned renames, none onto a name that is there and no two onto the same one.
  ghost predicate PlanIsSafe(entries: map<string, Content>, plan: seq<Rename>) {
    && (forall i :: 0 <= i < |plan| ==> plan[i].1 !in entries && plan[i].0 in entries && plan[i].0 != plan[i].1)
    && (forall i, j :: 0 <= i < j < |plan| ==> plan[i].1 != plan[j].1)
  }

  // The cleaned name, or a numbered variant of it.
  ghost predicate NamedFor(namer: Namer, f: string, target: string) {
    var (stem, ext) := namer(f);
    target == stem + ext || exists i :: 2 <= i && target == Numbered(stem, i, ext)
  }

  predicate LeftAlone(was: map<string, Content>, namer: Namer, writable: string -> bool, f: string)
    requires f in was
  {
    namer(f).0 == "" || (was[f].title == "" && !writable(f))
  }

  // The tag writer is called for the file, and raises.
  predicate EndsPass(was: map<string, Content>, namer: Namer, raises: string -> bool, f: string) {
    f in was && namer(f).0 != "" && was[f].title == "" && raises(f)
  }

  // A file dealt with: untouched when its name cleans to nothing or its tag cannot be written,
  // else under a name cleaned for it, with a title if it had none.
  ghost predicate Settled(was: map<string, Content>, now: map<string, Content>, home: map<string, string>,
                          namer: Namer, writable: string -> bool, f: string)
  {
    f in was && f in home && home[f] in now &&
    if LeftAlone(was, namer, writable, f) then home[f] == f && now[f] == was[f]
    else
      && NamedFor(namer, f, home[f])
      && now[home[f]] == Content(was[f].audio, if was[f].title == "" then namer(f).0 else was[f].title)
  }

  // Whether the file gets another name.
  predicate Moves(was: map<string, Content>, namer: Namer, writable: string -> bool, f: string) {
    f in was && !LeftAlone(was, namer, writable, f) && namer(f).0 + namer(f).1 != f
  }

  // Whether it gets a title.
  predicate Titled(was: map<string, Content>, namer: Namer, writable: string -> bool, f: string) {
    f in was && !LeftAlone(was, namer, writable, f) && was[f].title == ""
  }

  function Moving(was: map<string, Content>, files: seq<string>, k: nat, namer: Namer,
                  writable: string -> bool): seq<string>
    requires k <= |files|
  {
    if k == 0 then []
    else
      Moving(was, files, k - 1, namer, writable)
      + if Moves(was, namer, writable, files[k - 1]) then [files[k - 1]] else []
  }

  function TitledCount(was: map<string, Content>, files: seq<string>, k: nat, namer: Namer,
                       writable: string -> bool): nat
    requires k <= |files|
  {
    if k == 0 then 0
    else TitledCount(was, files, k - 1, namer, writable) + if Titled(was, namer, writable, files[k - 1]) then 1 else 0
  }

  const EVERY_TAG: string -> bool := (f: string) => true

  // A plan is the one a pass makes: the right files, in order, each to the first free name.
  ghost predicate PassPlan(was: map<string, Content>, files: seq<string>, k: nat, namer: Namer,
                           writable: string -> bool, carriedOut: bool, plan: seq<Rename>)
    requires k <= |files|
  {
    Sources(plan) == Moving(was, files, k, namer, writable) && Follows(was.Keys, plan, carriedOut, namer)
  }

  ghost predicate Untouched(was: map<string, Content>, now: map<string, Content>, home: map<string, string>,
                            f: string) {
    f in was && f in home && home[f] == f && f in now && now[f] == was[f]
  }

  // How far a real pass has come: k files dealt with, everything else as it was found.
  ghost predicate Progress(was: map<string, Content>, now: map<string, Content>, home: map<string, string>,
                           plan: seq<Rename>, files: seq<string>, k: nat, namer: Namer, writable: string -> bool)
    requires k <= |files|
  {
    && Housed(was, now, home)
    && (forall i :: 0 <= i < k ==> Settled(was, now, home, namer, writable, files[i]))
    && (forall f :: f in was && f !in files[..k] ==> Untouched(was, now, home, f))
    && Recorded(home, plan, files[..k])
  }

  // The plan lists the moves made, each of a file dealt with.
  ghost predicate Recorded(home: map<string, string>, plan: seq<Rename>, done: seq<string>) {
    && (forall i :: 0 <= i < |plan| ==> plan[i].0 in done && plan[i].0 in home && home[plan[i].0] == plan[i].1)
    && (forall n :: n in home && home[n] != n ==> (n, home[n]) in plan)
  }

  lemma OneMoreRecorded(home: map<string, string>, plan: seq<Rename>, done: seq<string>, f: string, target: string)
    requires Recorded(home, plan, done) && f !in done && f in home && home[f] == f
    ensures Recorded(home[f := target], PlanAfter(plan, f, target), done + [f])
  {
    var home', plan' := home[f := target], PlanAfter(plan, f, target);
    forall n | n in home' && home'[n] != n ensures (n, home'[n]) in plan' {
      if n == f {
        assert plan'[|plan|] == (f, target);
      } else {
        assert (n, home[n]) in plan;
      }
    }
  }

  lemma NothingDone(was: map<string, Content>, files: seq<string>, namer: Namer, writable: string -> bool)
    ensures Progress(was, was, map n | n in was :: n, [], files, 0, namer, writable)
  {
    var home := map n | n in was :: n;
    assert forall x :: x in was ==> x in home && home[x] == x;
  }

  lemma NextFile(was: map<string, Content>, now: map<string, Content>, home: map<string, string>,
                 plan: seq<Rename>, files: seq<string>, k: nat, namer: Namer, writable: string -> bool)
    requires k < |files| && Distinct(files) && files[k] in was &&
             Progress(was, now, home, plan, files, k, namer, writable)
    ensures Untouched(was, now, home, files[k])
    ensures files[..k + 1] == files[..k] + [files[k]]
    ensures LeftAlone(was, namer, writable, files[k]) ==> Progress(was, now, home, plan, files, k + 1, namer, writable)
  {
  }

  function AfterTitle(now: map<string, Content>, f: string, stem: string): map<string, Content>
    requires f in now
  {
    if now[f].title == "" then now[f := now[f].(title := stem)] else now
  }

  function AfterRename(now: map<string, Content>, f: string, target: string): map<string, Content>
    requires f in now
  {
    if target == f then now else (now - {f})[target := now[f]]
  }

  function PlanAfter(plan: seq<Rename>, f: string, target: string): seq<Rename> {
    if target == f then plan else plan + [(f, target)]
  }

  // One file titled and renamed onto a free name.
  lemma FileHoused(was: map<string, Content>, now: map<string, Content>, home: map<string, string>, f: string,
                   stem: string, target: string)
    requires Housed(was, now, home) && f in home && home[f] == f && f in now && (target == f || target !in now)
    ensures Housed(was, AfterRename(AfterTitle(now, f, stem), f, target), home[f := target])
  {
    RetitleKeepsHoused(was, now, home, f, stem);
    var titled := AfterTitle(now, f, stem);
    if target == f {
      assert home[f := target] == home;
    } else {
      RenameKeepsHoused(was, titled, home, f, target);
    }
  }

  lemma OthersKept(was: map<string, Content>, now: map<string, Content>, home: map<string, string>, f: string,
                   stem: string, target: string, n: string)
    requires Housed(was, now, home) && f in home && home[f] == f && f in now && (target == f || target !in now)
    requires n in home && n != f
    ensures var now' := AfterRename(AfterTitle(now, f, stem), f, target);
            home[n] in now' && now'[home[n]] == now[home[n]] && home[f := target][n] == home[n]
  {
    assert home[n] != home[f];
  }

  lemma FileSettled(was: map<string, Content>, now: map<string, Content>, home: map<string, string>, f: string,
                    namer: Namer, writable: string -> bool, target: string)
    requires Untouched(was, now, home, f) && !LeftAlone(was, namer, writable, f) && NamedFor(namer, f, target)
    requires target == f || target !in now
    ensures Settled(was, AfterRename(AfterTitle(now, f, namer(f).0), f, target), home[f := target], namer, writable, f)
  {
    hide NamedFor;
  }

  lemma OthersStay(was: map<string, Content>, now: map<string, Content>, home: map<string, string>, f: string,
                   stem: string, target: string, namer: Namer, writable: string -> bool, n: string)
    requires Housed(was, now, home) && Untouched(was, now, home, f) && (target == f || target !in now) && n in home &&
             n != f
    ensures var now', home' := AfterRename(AfterTitle(now, f, stem), f, target), home[f := target];
            && (Settled(was, now, home, namer, writable, n) ==> Settled(was, now', home', namer, writable, n))
            && (Untouched(was, now, home, n) ==> Untouched(was, now', home', n))
  {
    OthersKept(was, now, home, f, stem, target, n);
    hide NamedFor, Housed, AfterRename, AfterTitle;
  }

  lemma FileDone(was: map<string, Content>, now: map<string, Content>, home: map<string, string>, plan: seq<Rename>,
                 files: seq<string>, k: nat, namer: Namer, writable: string -> bool, target: string)
    requires k < |files| && Distinct(files) && files[k] in was &&
             Progress(was, now, home, plan, files, k, namer, writable)
    requires !LeftAlone(was, namer, writable, files[k]) && files[k] in now
    requires NamedFor(namer, files[k], target) && (target == files[k] || target !in now)
    ensures var f := files[k];
            Progress(was, AfterRename(AfterTitle(now, f, namer(f).0), f, target), home[f := target],
                     PlanAfter(plan, f, target), files, k + 1, namer, writable)
  {
    var f, stem := files[k], namer(files[k]).0;
    NextFile(was, now, home, plan, files, k, namer, writable);
    FileHoused(was, now, home, f, stem, target);
    assert f !in files[..k];
    OneMoreRecorded(home, plan, files[..k], f, target);
    FileSettled(was, now, home, f, namer, writable, target);
    assert Settled(was, AfterRename(AfterTitle(now, f, stem), f, target), home[f := target], namer, writable, f);
    hide Settled, NamedFor, LeftAlone, AfterTitle, AfterRename, Housed, Distinct, Recorded, PlanAfter;
    var now', home' := AfterRename(AfterTitle(now, f, stem), f, target), home[f := target];
    forall i | 0 <= i < k ensures Settled(was, now', home', namer, writable, files[i]) {
      assert files[..k][i] == files[i];
      SettledInHome(was, now, home, namer, writable, files[i]);
      OthersStay(was, now, home, f, stem, target, namer, writable, files[i]);
    }
    forall g | g in was && g !in files[..k + 1] ensures Untouched(was, now', home', g) {
      assert Untouched(was, now, home, g);
      OthersStay(was, now, home, f, stem, target, namer, writable, g);
    }
  }

  lemma SettledInHome(was: map<string, Content>, now: map<string, Content>, home: map<string, string>,
                      namer: Namer, writable: string -> bool, f: string)
    requires Settled(was, now, home, namer, writable, f)
    ensures f in home
  {
  }

  lemma PassKeepsCount(was: map<string, Content>, now: map<string, Content>, home: map<string, string>,
                       plan: seq<Rename>, files: seq<string>, k: nat, namer: Namer, writable: string -> bool)
    requires k <= |files| && Progress(was, now, home, plan, files, k, namer, writable)
    ensures |now| == |was|
  {
    HousedKeepsCount(was, now, home);
  }

  // A clean name is kept, else the first free one is taken.
  ghost predicate Chosen(taken: set<string>, namer: Namer, f: string, target: string) {
    var (stem, ext) := namer(f);
    if stem + ext == f then target == f else target != f && FirstFree(taken, stem, ext, target)
  }

  lemma ChosenIsNamed(taken: set<string>, namer: Namer, f: string, target: string)
    requires Chosen(taken, namer, f, target)
    ensures NamedFor(namer, f, target) && (target == f || target !in taken)
    ensures target == f ==> target == namer(f).0 + namer(f).1
  {
  }

  // What a real pass has counted after k files.
  ghost predicate Counted(was: map<string, Content>, files: seq<string>, k: nat, namer: Namer, writable: string -> bool,
                          plan: seq<Rename>, collisions: nat, titled: nat)
    requires k <= |files|
  {
    && titled == TitledCount(was, files, k, namer, writable)
    && Suffixed(plan, namer) <= collisions
    && ((forall f :: f in files ==> writable(f)) ==> collisions == Suffixed(plan, namer))
  }

  lemma CountedLeft(was: map<string, Content>, files: seq<string>, k: nat, namer: Namer, writable: string -> bool,
                    plan: seq<Rename>, collisions: nat, titled: nat, more: nat)
    requires k < |files| && Counted(was, files, k, namer, writable, plan, collisions, titled)
    requires files[k] in was && LeftAlone(was, namer, writable, files[k])
    requires more == collisions || (more == collisions + 1 && !writable(files[k]))
    ensures Counted(was, files, k + 1, namer, writable, plan, more, titled)
  {
    hide Suffixed;
    assert files[k] in files;
  }

  lemma CountedDone(was: map<string, Content>, files: seq<string>, k: nat, namer: Namer, writable: string -> bool,
                    plan: seq<Rename>, collisions: nat, titled: nat, target: string)
    requires k < |files| && Counted(was, files, k, namer, writable, plan, collisions, titled)
    requires files[k] in was && !LeftAlone(was, namer, writable, files[k])
    requires target == files[k] ==> target == namer(files[k]).0 + namer(files[k]).1
    requires PlanStep(plan, namer, files[k], target)
    ensures Counted(was, files, k + 1, namer, writable, PlanAfter(plan, files[k], target),
                    collisions + if target != namer(files[k]).0 + namer(files[k]).1 then 1 else 0,
                    titled + if was[files[k]].title == "" then 1 else 0)
  {
    hide Suffixed;
  }

  ghost predicate PlanStep(plan: seq<Rename>, namer: Namer, f: string, target: string) {
    var clean := namer(f).0 + namer(f).1;
    target != f ==> Suffixed(plan + [(f, target)], namer) == Suffixed(plan, namer) + if target != clean then 1 else 0
  }

  lemma PlanSkip(was: map<string, Content>, files: seq<string>, k: nat, namer: Namer, writable: string -> bool,
                 carriedOut: bool, plan: seq<Rename>)
    requires k < |files| && PassPlan(was, files, k, namer, writable, carriedOut, plan)
    requires files[k] in was && LeftAlone(was, namer, writable, files[k])
    ensures PassPlan(was, files, k + 1, namer, writable, carriedOut, plan)
  {
    hide Follows;
  }

  // One more file dealt with: its rename, if it moves, is the plan's next.
  lemma PlanNext(was: map<string, Content>, files: seq<string>, k: nat, namer: Namer, writable: string -> bool,
                 carriedOut: bool, plan: seq<Rename>, target: string)
    requires k < |files| && PassPlan(was, files, k, namer, writable, carriedOut, plan)
    requires files[k] in was && !LeftAlone(was, namer, writable, files[k])
    requires Chosen(Taken(was.Keys, plan, carriedOut), namer, files[k], target)
    ensures PassPlan(was, files, k + 1, namer, writable, carriedOut, PlanAfter(plan, files[k], target))
    ensures PlanStep(plan, namer, files[k], target)
  {
    hide FirstFree, Taken, Follows, Suffixed;
    var f := files[k];
    if target != f {
      FollowsOneMore(was.Keys, plan, (f, target), carriedOut, namer);
      assert Sources(plan + [(f, target)]) == Sources(plan) + [f];
    }
  }

  lemma NothingTaken(was: map<string, Content>, files: seq<string>, namer: Namer, writable: string -> bool,
                     carriedOut: bool)
    ensures PassPlan(was, files, 0, namer, writable, carriedOut, [])
    ensures Taken(was.Keys, [], carriedOut) == was.Keys && Targets([]) == {} && Suffixed([], namer) == 0 &&
            PlanIsSafe(was, [])
    ensures Counted(was, files, 0, namer, writable, [], 0, 0)
  {
  }

  lemma {:induction false} TargetsAre(plan: seq<Rename>, i: nat)
    requires i < |plan|
    ensures plan[i].1 in Targets(plan)
  {
    if i < |plan| - 1 {
      TargetsAre(Front(plan), i);
      assert Front(plan)[i] == plan[i];
    }
  }

  // A dry run's next target joins those planned and the names there.
  lemma PlanGrows(entries: map<string, Content>, plan: seq<Rename>, used: set<string>, f: string, target: string)
    requires PlanIsSafe(entries, plan) && Targets(plan) <= used &&
             entries.Keys + used == Taken(entries.Keys, plan, false)
    requires f in entries && target !in entries.Keys + used
    ensures PlanIsSafe(entries, plan + [(f, target)])
    ensures Targets(plan + [(f, target)]) <= used + {target}
    ensures entries.Keys + (used + {target}) == Taken(entries.Keys, plan + [(f, target)], false)
  {
    OneMore(plan, (f, target));
    forall i | 0 <= i < |plan| ensures plan[i].1 != target {
      TargetsAre(plan, i);
    }
  }

  // ------------------------------------------------ a real pass, file by file

  // All that holds of a pass that has dealt with k files.
  ghost predicate Underway(was: map<string, Content>, now: map<string, Content>, home: map<string, string>,
                           plan: seq<Rename>, used: set<string>, files: seq<string>, k: nat, namer: Namer,
                           writable: string -> bool, collisions: nat, titled: nat)
    requires k <= |files|
  {
    && Progress(was, now, home, plan, files, k, namer, writable)
    && PassPlan(was, files, k, namer, writable, true, plan)
    && now.Keys + used == Taken(was.Keys, plan, true) && used == Targets(plan)
    && Counted(was, files, k, namer, writable, plan, collisions, titled)
  }

  function NextHome(now: map<string, Content>, home: map<string, string>, namer: Namer, writable: string -> bool,
                    f: string, target: string): map<string, string>
    requires f in now
  {
    if LeftAlone(now, namer, writable, f) then home else home[f := target]
  }

  lemma UnderwayFirst(was: map<string, Content>, files: seq<string>, namer: Namer, writable: string -> bool)
    ensures Underway(was, was, map n | n in was :: n, [], {}, files, 0, namer, writable, 0, 0)
  {
    NothingDone(was, files, namer, writable);
    NothingTaken(was, files, namer, writable, true);
    hide Progress, PassPlan, Taken, Targets, Counted;
  }

  // The next file is as it was found.
  lemma UnderwayHere(was: map<string, Content>, now: map<string, Content>, home: map<string, string>,
                     plan: seq<Rename>, used: set<string>, files: seq<string>, k: nat, namer: Namer,
                     writable: string -> bool, raises: string -> bool, collisions: nat, titled: nat)
    requires k < |files| && Distinct(files) && files[k] in was
    requires Underway(was, now, home, plan, used, files, k, namer, writable, collisions, titled)
    ensures files[k] in now && now[files[k]] == was[files[k]]
    ensures EndsPass(was, namer, raises, files[k]) <==> EndsPass(now, namer, raises, files[k])
  {
    NextFile(was, now, home, plan, files, k, namer, writable);
    SameBefore(was, now, home, namer, writable, raises, files[k]);
  }

  lemma UnderwayLeft(was: map<string, Content>, now: map<string, Content>, home: map<string, string>,
                     plan: seq<Rename>, used: set<string>, files: seq<string>, k: nat, namer: Namer,
                     writable: string -> bool, collided: bool, collisions: nat, titled: nat)
    requires k < |files| && Distinct(files) && files[k] in was
    requires Underway(was, now, home, plan, used, files, k, namer, writable, collisions, titled)
    requires LeftAlone(was, namer, writable, files[k]) && (collided ==> !writable(files[k]))
    ensures Underway(was, now, home, plan, used, files, k + 1, namer, writable,
                     collisions + if collided then 1 else 0, titled)
  {
    NextFile(was, now, home, plan, files, k, namer, writable);
    PlanSkip(was, files, k, namer, writable, true, plan);
    CountedLeft(was, files, k, namer, writable, plan, collisions, titled, collisions + if collided then 1 else 0);
    hide Progress, PassPlan, Taken, Targets, Counted, LeftAlone;
  }

  lemma UnderwayRenamed(was: map<string, Content>, now: map<string, Content>, home: map<string, string>,
                        plan: seq<Rename>, used: set<string>, files: seq<string>, k: nat, namer: Namer,
                        writable: string -> bool, collisions: nat, titled: nat,
                        f: string, target: string, now': map<string, Content>, wrote: bool)
    requires k < |files| && f == files[k] && Distinct(files) && f in was && f in now
    requires !LeftAlone(was, namer, writable, f) && Chosen(now.Keys + used, namer, f, target)
    requires now' == AfterRename(AfterTitle(now, f, namer(f).0), f, target)
    requires wrote <==> was[f].title == ""
    requires Underway(was, now, home, plan, used, files, k, namer, writable, collisions, titled)
    ensures Underway(was, now', home[f := target], PlanAfter(plan, f, target),
                     if target != f then used + {target} else used, files, k + 1, namer, writable,
                     collisions + if target != namer(f).0 + namer(f).1 then 1 else 0, titled + if wrote then 1 else 0)
  {
    hide Progress, PassPlan, Taken, Targets, Counted, LeftAlone, Chosen, AfterRename, AfterTitle, PlanStep;
    ChosenIsNamed(now.Keys + used, namer, f, target);
    FileDone(was, now, home, plan, files, k, namer, writable, target);
    PlanNext(was, files, k, namer, writable, true, plan, target);
    CountedDone(was, files, k, namer, writable, plan, collisions, titled, target);
    RenamedKeys(now, f, namer(f).0, target);
    if target != f {
      TakenAfterRename(was.Keys, plan, (f, target), now.Keys, used);
    }
  }

  lemma UnderwayNext(was: map<string, Content>, before: map<string, Content>, now: map<string, Content>,
                     home: map<string, string>, plan: seq<Rename>, used: set<string>, files: seq<string>, k: nat,
                     namer: Namer, writable: string -> bool, target: string, collided: bool, wrote: bool,
                     collisions: nat, titled: nat)
    requires k < |files| && Distinct(files)
    requires files[k] in was && files[k] in before && was[files[k]] == before[files[k]]
    requires Underway(was, before, home, plan, used, files, k, namer, writable, collisions, titled)
    requires LeftAlone(before, namer, writable, files[k]) ==> now == before && target == files[k]
    requires LeftAlone(before, namer, writable, files[k]) && collided ==> !writable(files[k])
    requires wrote <==> !LeftAlone(before, namer, writable, files[k]) && before[files[k]].title == ""
    requires !LeftAlone(before, namer, writable, files[k]) ==>
               && now == AfterRename(AfterTitle(before, files[k], namer(files[k]).0), files[k], target)
               && Chosen(before.Keys + used, namer, files[k], target)
               && (collided <==> target != namer(files[k]).0 + namer(files[k]).1)
    ensures Underway(was, now, NextHome(before, home, namer, writable, files[k], target),
                     PlanAfter(plan, files[k], target),
                     if target != files[k] then used + {target} else used, files, k + 1, namer, writable,
                     collisions + if collided then 1 else 0, titled + if wrote then 1 else 0)
  {
    assert LeftAlone(before, namer, writable, files[k]) <==> LeftAlone(was, namer, writable, files[k]);
    hide Underway, LeftAlone, Chosen, AfterRename, AfterTitle;
    if LeftAlone(before, namer, writable, files[k]) {
      UnderwayLeft(was, before, home, plan, used, files, k, namer, writable, collided, collisions, titled);
    } else {
      UnderwayRenamed(was, before, home, plan, used, files, k, namer, writable, collisions, titled,
                      files[k], target, now, wrote);
    }
  }

  lemma UnderwayLast(was: map<string, Content>, now: map<string, Content>, home: map<string, string>,
                     plan: seq<Rename>, used: set<string>, files: seq<string>, k: nat, namer: Namer,
                     writable: string -> bool, collisions: nat, titled: nat)
    requires k <= |files| && Underway(was, now, home, plan, used, files, k, namer, writable, collisions, titled)
    ensures Progress(was, now, home, plan, files, k, namer, writable) && |now| == |was|
    ensures PassPlan(was, files, k, namer, writable, true, plan)
    ensures Counted(was, files, k, namer, writable, plan, collisions, titled)
  {
    PassKeepsCount(was, now, home, plan, files, k, namer, writable);
  }

  // ------------------------------------------------ the dry run as a forecast

  lemma {:induction false} MovingSame(was: map<string, Content>, files: seq<string>, k: nat, namer: Namer,
                                      writable: string -> bool)
    requires k <= |files| && forall f :: f in files ==> writable(f)
    ensures Moving(was, files, k, namer, writable) == Moving(was, files, k, namer, EVERY_TAG)
  {
    if k > 0 {
      MovingSame(was, files, k - 1, namer, writable);
      assert files[k - 1] in files;
    }
  }

  lemma {:induction false} MovingAreThere(was: map<string, Content>, files: seq<string>, k: nat, namer: Namer,
                                          writable: string -> bool)
    requires k <= |files|
    ensures forall f :: f in Moving(was, files, k, namer, writable) ==> f in was
  {
    if k > 0 {
      MovingAreThere(was, files, k - 1, namer, writable);
    }
  }

  // The dry run of a folder whose tags can all be written announces exactly what the real run
  // does if and only if no file is numbered because of a name that an earlier one gives up.
  lemma DryRunForecastsIff(was: map<string, Content>, files: seq<string>, namer: Namer, writable: string -> bool,
                           dry: seq<Rename>, done: seq<Rename>)
    requires forall f :: f in files ==> writable(f)
    requires PassPlan(was, files, |files|, namer, EVERY_TAG, false, dry)
    requires PassPlan(was, files, |files|, namer, writable, true, done)
    ensures dry == done <==> NoNameFreed(dry, namer)
  {
    hide Follows, NoNameFreed;
    MovingSame(was, files, |files|, namer, writable);
    MovingAreThere(was, files, |files|, namer, EVERY_TAG);
    PlansAgreeIff(was.Keys, dry, done, namer);
  }

  // Two files suffice: one moves out of the way of the other, and the dry run does not see it.
  lemma DryRunCanMislead()
    ensures var namer: Namer := (f: string) => if f == "1 a.mp3" then ("b", ".mp3") else ("1 a", ".mp3");
            var was := map["1 a.mp3" := Content(0, "t"), "2.mp3" := Content(1, "t")];
            var files := ["1 a.mp3", "2.mp3"];
            && PassPlan(was, files, 2, namer, EVERY_TAG, false, [("1 a.mp3", "b.mp3"), ("2.mp3", "1 a (2).mp3")])
            && PassPlan(was, files, 2, namer, EVERY_TAG, true, [("1 a.mp3", "b.mp3"), ("2.mp3", "1 a.mp3")])
  {
    var namer: Namer := (f: string) => if f == "1 a.mp3" then ("b", ".mp3") else ("1 a", ".mp3");
    var was := map["1 a.mp3" := Content(0, "t"), "2.mp3" := Content(1, "t")];
    var files := ["1 a.mp3", "2.mp3"];
    assert Moving(was, files, 0, namer, EVERY_TAG) == [];
    assert Moving(was, files, 1, namer, EVERY_TAG) == ["1 a.mp3"];
    assert Moving(was, files, 2, namer, EVERY_TAG) == files;
    var first: Rename := ("1 a.mp3", "b.mp3");
    var second, other: Rename := ("2.mp3", "1 a (2).mp3"), ("2.mp3", "1 a.mp3");
    assert [first, second] == [first] + [second] && [first, other] == [first] + [other] && [first] == [] + [first];
    OneMore([first], second);
    OneMore([first], other);
    OneMore([], first);
    assert Taken(was.Keys, [], false) == was.Keys == Taken(was.Keys, [], true);
    assert FirstFree(was.Keys, "b", ".mp3", "b.mp3");
    assert Follows(was.Keys, [first], false, namer) && Follows(was.Keys, [first], true, namer);
    assert Decimal(2) == "2";
    assert Numbered("1 a", 2, ".mp3") == "1 a (2).mp3";
    var dryTaken := Taken(was.Keys, [first], false);
    assert "1 a" + ".mp3" == "1 a.mp3";
    assert AllTaken(dryTaken, "1 a", 2, ".mp3");
    assert FirstFree(dryTaken, "1 a", ".mp3", "1 a (2).mp3");
    assert FirstFree(Taken(was.Keys, [first], true), "1 a", ".mp3", "1 a.mp3");
  }

  // A file not dealt with yet is as it was found.
  lemma SameBefore(was: map<string, Content>, now: map<string, Content>, home: map<string, string>, namer: Namer,
                   writable: string -> bool, raises: string -> bool, f: string)
    requires Untouched(was, now, home, f)
    ensures f in was && f in now && now[f] == was[f]
    ensures EndsPass(was, namer, raises, f) <==> EndsPass(now, namer, raises, f)
    ensures LeftAlone(was, namer, writable, f) <==> LeftAlone(now, namer, writable, f)
  {
  }

  lemma RenamedKeys(now: map<string, Content>, f: string, stem: string, target: string)
    requires f in now
    ensures target != f ==> AfterRename(AfterTitle(now, f, stem), f, target).Keys == now.Keys - {f} + {target}
    ensures target == f ==> AfterRename(AfterTitle(now, f, stem), f, target).Keys == now.Keys
  {
  }

  class Folder {
    var entries: map<string, Content>

    constructor (found: map<string, Content>)
      ensures entries == found
    {
      entries := found;
    }

    // The name a file should get: its own if that is clean, else the first free one.
    method ChooseTarget(f: string, stem: string, ext: string, used: set<string>)
      returns (target: string, collided: bool)
      requires f in entries
      ensures stem + ext == f ==> target == f
      ensures stem + ext != f ==> target != f && FirstFree(entries.Keys + used, stem, ext, target)
      ensures collided <==> target != stem + ext
    {
      target := stem + ext;
      collided := target != f && (target in entries || target in used);
      if collided {
        var i := FreeNumber(stem, ext, entries.Keys + used);
        assert AllTaken(entries.Keys + used, stem, i, ext);
        assert |Numbered(stem, i, ext)| != |stem + ext|;
        target := Numbered(stem, i, ext);
      }
    }

    // One file of a real pass: title it if it has none, then rename it. A raise by the tag writer
    // comes before anything is changed, a refusal leaves the file alone.
    method DealWith(f: string, namer: Namer, writable: string -> bool, raises: string -> bool, used: set<string>)
      returns (ended: bool, target: string, collided: bool, wrote: bool)
      requires f in entries
      modifies this
      ensures ended <==> EndsPass(old(entries), namer, raises, f)
      ensures ended || LeftAlone(old(entries), namer, writable, f) ==> entries == old(entries) && target == f
      ensures LeftAlone(old(entries), namer, writable, f) && collided ==> !writable(f)
      ensures wrote <==> !ended && !LeftAlone(old(entries), namer, writable, f) && old(entries)[f].title == ""
      ensures !ended && !LeftAlone(old(entries), namer, writable, f) ==>
                && entries == AfterRename(AfterTitle(old(entries), f, namer(f).0), f, target)
                && Chosen(old(entries).Keys + used, namer, f, target)
                && (collided <==> target != namer(f).0 + namer(f).1)
    {
      ended, target, collided, wrote := false, f, false, false;
      var (stem, ext) := namer(f);
      if stem == "" {
        return;
      }
      var choice;
      choice, collided := ChooseTarget(f, stem, ext, used);
      if entries[f].title == "" {
        if raises(f) {
          ended := true;
          return;
        }
        if !writable(f) {
          return;
        }
        entries := entries[f := entries[f].(title := stem)];
        wrote := true;
      }
      target := choice;
      if target != f {
        entries := (entries - {f})[target := entries[f]];
      }
    }

    // A real pass over the audio files found. Cleaning, and whether the tag writer accepts a file,
    // refuses it or raises, are parameters; a raise ends the pass where it stands. Returns how many
    // files were dealt with, what was renamed to what and the counters.
    method Pass(files: seq<string>, namer: Namer, writable: string -> bool, raises: string -> bool)
      returns (reached: nat, plan: seq<Rename>, collisions: nat, titled: nat, ghost home: map<string, string>)
      requires Distinct(files) && forall f :: f in files ==> f in entries
      modifies this
      ensures reached <= |files| && forall i :: 0 <= i < reached ==> !EndsPass(old(entries), namer, raises, files[i])
      ensures reached < |files| ==> EndsPass(old(entries), namer, raises, files[reached])
      ensures Progress(old(entries), entries, home, plan, files, reached, namer, writable)
      ensures |entries| == |old(entries)|
      ensures PassPlan(old(entries), files, reached, namer, writable, true, plan)
      ensures reached == |files| ==> Counted(old(entries), files, reached, namer, writable, plan, collisions, titled)
    {
      hide Underway, Distinct, EndsPass, AfterRename, AfterTitle, Chosen, LeftAlone, Untouched, PlanAfter, NextHome;
      reached, plan, collisions, titled := 0, [], 0, 0;
      home := map n | n in entries :: n;
      var used: set<string> := {};
      ghost var was := entries;
      UnderwayFirst(was, files, namer, writable);
      while reached < |files|
        invariant reached <= |files| && forall i :: 0 <= i < reached ==> !EndsPass(was, namer, raises, files[i])
        invariant Underway(was, entries, home, plan, used, files, reached, namer, writable, collisions, titled)
      {
        var f := files[reached];
        assert f in files;
        UnderwayHere(was, entries, home, plan, used, files, reached, namer, writable, raises, collisions, titled);
        ghost var before := entries;
        var ended, target, collided, wrote := DealWith(f, namer, writable, raises, used);
        if ended {
          break;
        }
        UnderwayNext(was, before, entries, home, plan, used, files, reached, namer, writable, target, collided, wrote,
                     collisions, titled);
        home := NextHome(before, home, namer, writable, f, target);
        collisions := collisions + if collided then 1 else 0;
        titled := titled + if wrote then 1 else 0;
        plan := PlanAfter(plan, f, target);
        if target != f {
          used := used + {target};
        }
        reached := reached + 1;
      }
      UnderwayLast(was, entries, home, plan, used, files, reached, namer, writable, collisions, titled);
    }

    // A dry run touches nothing and plans only renames that would lose nothing.
    method DryRun(files: seq<string>, namer: Namer) returns (plan: seq<Rename>, collisions: nat, titled: nat)
      requires Distinct(files) && forall f :: f in files ==> f in entries
      ensures PlanIsSafe(entries, plan)
      ensures PassPlan(entries, files, |files|, namer, EVERY_TAG, false, plan)
      ensures titled == TitledCount(entries, files, |files|, namer, EVERY_TAG)
      ensures collisions == Suffixed(plan, namer)
    {
      hide PlanIsSafe, PassPlan, Taken, FirstFree, Targets, Suffixed, Distinct;
      plan, collisions, titled := [], 0, 0;
      var used: set<string> := {};
      NothingTaken(entries, files, namer, EVERY_TAG, false);
      for k := 0 to |files|
        invariant PlanIsSafe(entries, plan) && PassPlan(entries, files, k, namer, EVERY_TAG, false, plan)
        invariant entries.Keys + used == Taken(entries.Keys, plan, false) && Targets(plan) <= used
        invariant titled == TitledCount(entries, files, k, namer, EVERY_TAG)
        invariant collisions == Suffixed(plan, namer)
      {
        var f := files[k];
        assert f in files;
        var (stem, ext) := namer(f);
        if stem == "" {
          PlanSkip(entries, files, k, namer, EVERY_TAG, false, plan);
          continue;
        }
        var target, collided := ChooseTarget(f, stem, ext, used);
        PlanNext(entries, files, k, namer, EVERY_TAG, false, plan, target);
        if collided {
          collisions := collisions + 1;
        }
        var needsTitle := entries[f].title == "";
        if target == f && !needsTitle {
          continue;
        }
        if target != f {
          ChosenIsNamed(entries.Keys + used, namer, f, target);
          PlanGrows(entries, plan, used, f, target);
          plan := plan + [(f, target)];
        }
        if needsTitle {
          titled := titled + 1;
        }
        used := used + {target};
      }
    }
  }
}
