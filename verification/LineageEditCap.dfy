/** The two-edit cap: whoever keeps editing their newest version keeps at most two, whatever others do. */
module LineageEditCap {
  import opened Basics
  import opened Lineage
  import opened LineageInvariant
  import opened LineageRuns
  import opened LineagePublish
  import opened LineageTheorems
  import opened LineageFamily

  // The newest version, or the root while nothing has been edited.
  function Tip(root: Id, versions: seq<Id>): Id {
    if versions == [] then root else versions[|versions| - 1]
  }

  // The lineage of a root that only this user keeps, and only in its newest version: at most
  // the last save and the newest, each hanging below the other and both below the root.
  ghost predicate OwnLineage(db: Db, user: User, root: Id, versions: seq<Id>) {
    && Inv(db) && user in db.users && |versions| <= 2
    && root in db.songs && db.songs[root].root.None?
    && (forall x :: x in db.songs && db.songs[x].root == Some(root) <==> x in versions)
    && (|versions| > 0 ==> db.songs[versions[0]].parent == Some(root))
    && (|versions| > 1 ==> versions[0] < versions[1] && db.songs[versions[1]].parent == Some(versions[0]))
    && (forall e :: e in db.lib && (e.1 == root || e.1 in versions) ==> e == (user, Tip(root, versions)))
  }

  // The version inserted and the source hidden, before anything is collected.
  function NewVersion(db: Db, snap: Snapshot, n: Id): Db {
    HideSource(InsertVersion(db, snap, n), snap)
  }

  lemma CollapseKeepsUsers(db: Db, snap: Snapshot)
    ensures CollapseGrandparent(db, snap).users == db.users
  {
  }

  // The third edit collects the oldest version: exactly when there are two does one go.
  lemma OldestCollectable(db: Db, user: User, root: Id, versions: seq<Id>, n: Id)
    requires OwnLineage(db, user, root, versions) && |versions| == 2 && n !in db.songs
    ensures var snap := Snapshot(versions[1], Some(versions[0]), root, user);
            Collectable(NewVersion(db, snap, n), versions[0], Some(versions[1]))
  {
    var a, b := versions[0], versions[1];
    var snap := Snapshot(b, Some(a), root, user);
    var d := NewVersion(db, snap, n);
    assert a in versions && b in versions;
    assert Rooted(db.songs, a) && Rooted(db.songs, b);
    forall x | x in d.songs && d.songs[x].parent == Some(a) ensures x == b {
      if x != n {
        assert Rooted(db.songs, x);
        assert x in versions;
      }
    }
  }

  // The rows of the family after an edit: the versions kept and the new one.
  ghost predicate FamilyIs(d: Db, root: Id, versions: seq<Id>) {
    forall x :: x in d.songs && d.songs[x].root == Some(root) <==> x in versions
  }

  ghost predicate OnlyTipInLibrary(d: Db, user: User, root: Id, versions: seq<Id>) {
    forall e :: e in d.lib && (e.1 == root || e.1 in versions) ==> e == (user, Tip(root, versions))
  }

  // The first and the second edit add a version below the newest.
  lemma AfterEarlyEdit(db: Db, user: User, root: Id, versions: seq<Id>, n: Id, d: Db)
    requires OwnLineage(db, user, root, versions) && |versions| < 2 && n !in db.songs
    requires var tip := Tip(root, versions);
             d.songs == db.songs[n := Song(Some(tip), Some(root), Some(user))] &&
                 d.lib == db.lib - {(user, tip)} + {(user, n)}
    ensures FamilyIs(d, root, versions + [n]) && OnlyTipInLibrary(d, user, root, versions + [n])
    ensures forall x :: x in db.songs ==> x in d.songs && d.songs[x] == db.songs[x]
  {
    hide SnapshotsAgree, RootedBut, FilesAccounted, RowsAgree;
    forall x ensures x in d.songs && d.songs[x].root == Some(root) <==> x in versions + [n] {
      assert x in db.songs && db.songs[x].root == Some(root) <==> x in versions;
    }
    forall e | e in d.lib && (e.1 == root || e.1 in versions + [n]) ensures e == (user, n) {
      assert e in db.lib ==> e.1 in db.songs;
    }
  }

  // Every later edit also takes the oldest version away and hangs the last save under the root.
  lemma AfterThirdEdit(db: Db, user: User, root: Id, versions: seq<Id>, n: Id, d: Db)
    requires OwnLineage(db, user, root, versions) && |versions| == 2 && n !in db.songs
    requires var a, b := versions[0], versions[1];
             && d.songs.Keys == db.songs.Keys - {a} + {n}
             && d.songs[n] == Song(Some(b), Some(root), Some(user))
             && d.songs[b] == db.songs[b].(parent := Some(root))
             && (forall x :: x in d.songs && x != n && x != b ==> d.songs[x] == Detached(db.songs[x], a))
             && (forall e :: e in d.lib ==> e == (user, n) || (e in db.lib && e != (user, b) && e.1 != a))
    ensures FamilyIs(d, root, [versions[1], n]) && OnlyTipInLibrary(d, user, root, [versions[1], n])
    ensures root in d.songs && d.songs[root].root.None?
  {
    hide SnapshotsAgree, FilesAccounted, RowsAgree;
    var a, b := versions[0], versions[1];
    assert a in versions && b in versions && a != b;
    assert Rooted(db.songs, a);
    forall x ensures x in d.songs && d.songs[x].root == Some(root) <==> x in [b, n] {
      assert x in db.songs && db.songs[x].root == Some(root) <==> x in versions;
    }
    forall e | e in d.lib && (e.1 == root || e.1 in [b, n]) ensures e == (user, n) {
      assert e in db.lib ==> e.1 in db.songs;
    }
  }

  // The rows left by a collection step that takes a away from between b and the root.
  lemma CollapsedRows(db: Db, user: User, root: Id, a: Id, b: Id, n: Id)
    requires a in db.songs && b in db.songs && a != b && a != root && n !in db.songs
    requires db.songs[b].parent == Some(a) && db.songs[b].root == Some(root)
    requires Collectable(NewVersion(db, Snapshot(b, Some(a), root, user), n), a, Some(b))
    ensures var snap := Snapshot(b, Some(a), root, user);
            var c := CollapseGrandparent(NewVersion(db, snap, n), snap);
            && c.songs.Keys == db.songs.Keys - {a} + {n}
            && c.songs[n] == Song(Some(b), Some(root), Some(user))
            && c.songs[b] == db.songs[b].(parent := Some(root))
            && (forall x :: x in c.songs && x != n && x != b ==> c.songs[x] == Detached(db.songs[x], a))
            && (forall e :: e in c.lib ==> e in db.lib && e != (user, b) && e.1 != a)
  {
    hide Collectable;
    var snap := Snapshot(b, Some(a), root, user);
    var i := NewVersion(db, snap, n);
    var d := DeleteSong(i, a);
    assert i.songs.Keys == db.songs.Keys + {n};
    assert d.songs.Keys == i.songs.Keys - {a};
    assert d.songs[n] == Song(Some(b), Some(root), Some(user));
  }

  lemma ThirdEditRows(db: Db, user: User, root: Id, versions: seq<Id>, n: Id, d: Db)
    requires OwnLineage(db, user, root, versions) && |versions| == 2 && n !in db.songs
    requires var snap := Snapshot(versions[1], Some(versions[0]), root, user);
             var c := CollapseGrandparent(NewVersion(db, snap, n), snap);
             d.songs == c.songs && d.lib == c.lib + {(user, n)}
    ensures var a, b := versions[0], versions[1];
             && d.songs.Keys == db.songs.Keys - {a} + {n}
             && d.songs[n] == Song(Some(b), Some(root), Some(user))
             && d.songs[b] == db.songs[b].(parent := Some(root))
             && (forall x :: x in d.songs && x != n && x != b ==> d.songs[x] == Detached(db.songs[x], a))
             && (forall e :: e in d.lib ==> e == (user, n) || (e in db.lib && e != (user, b) && e.1 != a))
  {
    OldestCollectable(db, user, root, versions, n);
    VersionsBelowNext(db, user, root, versions);
    var a, b := versions[0], versions[1];
    assert a in versions && b in versions;
    hide Inv, Collectable, NewVersion, CollapseGrandparent, DeleteSong;
    CollapsedRows(db, user, root, a, b, n);
  }

  lemma FewVersions(db: Db, user: User, root: Id, versions: seq<Id>)
    requires OwnLineage(db, user, root, versions)
    ensures |versions| <= 2
  {
    hide Inv;
  }

  lemma VersionsBelowNext(db: Db, user: User, root: Id, versions: seq<Id>)
    requires OwnLineage(db, user, root, versions)
    ensures forall v :: v in versions ==> v in db.songs && v < db.next && v != root
    ensures db.songs[root].parent.None?
  {
    assert Rooted(db.songs, root);
  }

  // ------------------------------------------------ saving an edit of the newest version

  // What an edit of the newest version remembers of it.
  function TipSnapshot(db: Db, user: User, root: Id, versions: seq<Id>): Snapshot
    requires Tip(root, versions) in db.songs
  {
    Snapshot(Tip(root, versions), db.songs[Tip(root, versions)].parent, root, user)
  }

  lemma TipIsThere(db: Db, user: User, root: Id, versions: seq<Id>)
    requires OwnLineage(db, user, root, versions)
    ensures Tip(root, versions) in db.songs && db.songs[Tip(root, versions)].root.GetOr(Tip(root, versions)) == root
  {
    hide Inv;
    assert versions != [] ==> Tip(root, versions) in versions;
  }

  // The task of such an edit, rendered and ready to be saved.
  ghost predicate Ready(db: Db, user: User, root: Id, versions: seq<Id>, j: JobId) {
    && OwnLineage(db, user, root, versions)
    && j in db.tasks && db.tasks[j].Rendered? && Tip(root, versions) in db.songs
    && db.tasks[j].snap == TipSnapshot(db, user, root, versions)
  }

  // What saving does to the rows.
  lemma SavedRows(db: Db, user: User, root: Id, versions: seq<Id>, j: JobId)
    requires Ready(db, user, root, versions, j)
    ensures var snap, n, r := db.tasks[j].snap, db.tasks[j].dest, Finalise(db, j);
            var d := CollapseGrandparent(NewVersion(db, snap, n), snap);
            && r.songs == d.songs && r.lib == d.lib + {(user, n)} && r.users == db.users && Inv(r)
            && n !in db.songs && Tip(root, versions) < n
  {
    FinaliseKeepsInv(db, j);
    assert SourceThere(db, j);
    SnapshotFacts(db, j);
    assert DrawnBy(db.tasks, j, db.tasks[j].dest);
    CollapseKeepsUsers(NewVersion(db, db.tasks[j].snap, db.tasks[j].dest), db.tasks[j].snap);
    hide Inv, CollapseGrandparent, CollectParent;
  }

  lemma SaveEarly(db: Db, user: User, root: Id, versions: seq<Id>, j: JobId)
    requires Ready(db, user, root, versions, j) && |versions| < 2
    ensures OwnLineage(Finalise(db, j), user, root, versions + [db.tasks[j].dest])
  {
    SavedRows(db, user, root, versions, j);
    VersionsBelowNext(db, user, root, versions);
    hide Inv, Finalise;
    assert versions != [] ==> Tip(root, versions) in versions;
    AfterEarlyEdit(db, user, root, versions, db.tasks[j].dest, Finalise(db, j));
  }

  lemma SaveThird(db: Db, user: User, root: Id, versions: seq<Id>, j: JobId)
    requires Ready(db, user, root, versions, j) && |versions| == 2
    ensures OwnLineage(Finalise(db, j), user, root, [versions[1], db.tasks[j].dest])
  {
    SavedRows(db, user, root, versions, j);
    VersionsBelowNext(db, user, root, versions);
    var d, n := Finalise(db, j), db.tasks[j].dest;
    hide Inv, Finalise;
    assert versions[1] in versions;
    ThirdEditRows(db, user, root, versions, n, d);
    hide CollapseGrandparent, NewVersion;
    AfterThirdEdit(db, user, root, versions, n, d);
  }

  // The versions after another save: the oldest of two goes.
  function Grown(versions: seq<Id>, n: Id): seq<Id> {
    (if |versions| == 2 then versions[1..] else versions) + [n]
  }

  // Saving an edit of the newest version: the last save becomes hidden, an older one is collected.
  lemma SaveNewest(db: Db, user: User, root: Id, versions: seq<Id>, j: JobId)
    requires Ready(db, user, root, versions, j)
    ensures OwnLineage(Finalise(db, j), user, root, Grown(versions, db.tasks[j].dest))
  {
    FewVersions(db, user, root, versions);
    hide OwnLineage, Finalise;
    if |versions| == 2 {
      SaveThird(db, user, root, versions, j);
      assert Grown(versions, db.tasks[j].dest) == [versions[1], db.tasks[j].dest];
    } else {
      SaveEarly(db, user, root, versions, j);
    }
  }

  // ------------------------------------------------ among everything else

  function FamilyOf(root: Id, versions: seq<Id>): set<Id> {
    {root} + Elements(versions)
  }

  // The lineage and, if there is one, the edit of its newest version that is under way.
  datatype Family = Family(db: Db, versions: seq<Id>, current: Option<JobId>)

  ghost predicate OwnTask(db: Db, user: User, root: Id, versions: seq<Id>, j: JobId) {
    && j in db.tasks && Tip(root, versions) in db.songs
    && var t := db.tasks[j];
       || t == Waiting(Tip(root, versions), user)
       || ((t.Snapped? || t.Rendered?) && t.snap == TipSnapshot(db, user, root, versions))
  }

  ghost predicate FamilySound(f: Family, user: User, root: Id) {
    && OwnLineage(f.db, user, root, f.versions)
    && (f.current.Some? ==> OwnTask(f.db, user, root, f.versions, f.current.value))
  }

  // A step of the edit of the newest version, or the request for one when none is under way.
  ghost predicate OwnEvent(f: Family, e: Event, user: User, root: Id) {
    match e
    case RequestEdit(job, song, u) =>
      f.current.None? && job !in f.db.tasks && song == Tip(root, f.versions) && u == user
    case SnapEdit(job) => f.current == Some(job)
    case RenderEdit(job) => f.current == Some(job)
    case RenderFailed(job) => f.current == Some(job)
    case FinaliseEdit(job) => f.current == Some(job)
    case _ => false
  }

  // Any step elsewhere: only the user has to stay.
  ghost predicate OtherEvent(f: Family, e: Event, user: User, root: Id) {
    Foreign(f.db, e, FamilyOf(root, f.versions)) && e != RemoveUser(user)
  }

  ghost predicate FamilyEvent(f: Family, e: Event, user: User, root: Id) {
    Descending(f.db) && Allowed(f.db, e) && (OwnEvent(f, e, user, root) || OtherEvent(f, e, user, root))
  }

  // The edit under way is saved by this event.
  predicate Saves(f: Family, e: Event) {
    e.FinaliseEdit? && f.current == Some(e.job) && e.job in f.db.tasks && f.db.tasks[e.job].Rendered?
  }

  predicate Fails(f: Family, e: Event) {
    e.RenderFailed? && f.current == Some(e.job) && e.job in f.db.tasks && f.db.tasks[e.job].InFlight()
  }

  ghost function NextFamily(f: Family, e: Event, user: User, root: Id): Family
    requires FamilyEvent(f, e, user, root)
  {
    var d := Step(f.db, e);
    if Saves(f, e) then Family(d, Grown(f.versions, f.db.tasks[e.job].dest), None)
    else if Fails(f, e) then Family(d, f.versions, None)
    else if e.RequestEdit? && OwnEvent(f, e, user, root) then Family(d, f.versions, Some(e.job))
    else Family(d, f.versions, f.current)
  }

  lemma FamilyIsApart(db: Db, user: User, root: Id, versions: seq<Id>)
    requires OwnLineage(db, user, root, versions)
    ensures Apart(db, FamilyOf(root, versions), root)
  {
    hide SnapshotsAgree, FilesAccounted, RowsAgree, TasksSound;
    var family := FamilyOf(root, versions);
    VersionsBelowNext(db, user, root, versions);
    forall x | x in db.songs && x !in family
      ensures db.songs[x].root != Some(root)
      ensures db.songs[x].parent.Some? ==> db.songs[x].parent.value !in family
    {
      assert Rooted(db.songs, x);
      assert x !in versions;
    }
    forall x | x in family
      ensures x in db.songs && (db.songs[x].parent.Some? ==> db.songs[x].parent.value in family)
      ensures db.songs[x].root.Some? ==> db.songs[x].root.value in family
    {
      if x != root {
        assert x in versions;
        assert versions[0] in versions;
      }
    }
  }

  // A family that is left alone is sound as before.
  lemma LeftAloneIsSound(db: Db, d: Db, user: User, root: Id, versions: seq<Id>)
    requires OwnLineage(db, user, root, versions) && LeavesAlone(db, d, FamilyOf(root, versions), root)
    requires Inv(d) && user in d.users
    ensures OwnLineage(d, user, root, versions)
  {
    hide Inv;
    var family := FamilyOf(root, versions);
    assert forall v :: v in versions ==> v in family;
    forall x ensures x in d.songs && d.songs[x].root == Some(root) <==> x in versions {
      if x in family {
        assert x in db.songs && d.songs[x] == db.songs[x];
      }
    }
  }

  lemma OtherEventKeepsFamily(f: Family, e: Event, user: User, root: Id)
    requires FamilySound(f, user, root) && FamilyEvent(f, e, user, root) && OtherEvent(f, e, user, root)
    ensures FamilySound(Family(Step(f.db, e), f.versions, f.current), user, root)
  {
    var family := FamilyOf(root, f.versions);
    StepKeepsInv(f.db, e);
    FamilyIsApart(f.db, user, root, f.versions);
    ForeignLeavesAlone(f.db, e, family, root);
    UserStays(f.db, e, user);
    TipInFamily(root, f.versions);
    hide Step, Inv, Foreign;
    LeftAloneIsSound(f.db, Step(f.db, e), user, root, f.versions);
    if f.current.Some? {
      ForeignKeepsTask(f.db, e, family, f.current.value);
    }
  }

  lemma TipInFamily(root: Id, versions: seq<Id>)
    ensures Tip(root, versions) in FamilyOf(root, versions)
  {
  }

  // Users go only by being removed.
  lemma UserStays(db: Db, e: Event, user: User)
    requires Descending(db) && user in db.users && e != RemoveUser(user)
    ensures user in Step(db, e).users
  {
    hide CollapseGrandparent, CollectParent;
    match e
    case RestoreVersion(u, song, target) =>
      if u in db.users && song in db.songs && db.songs[song].owner == Some(u) && target in db.songs {
        WalkShrinks(RestoreSwap(db, u, song, target), Some(song), target, None);
      }
    case PublishSongs(songs) => PublishWalksShrink(db, songs);
    case FinaliseEdit(job) => FinaliseKeepsUsers(db, job, Listed);
    case FinaliseRaised(job, point) => FinaliseKeepsUsers(db, job, point);
    case _ =>
  }

  lemma FinaliseKeepsUsers(db: Db, job: JobId, point: Point)
    ensures Finalise(db, job).users == db.users == FinaliseRaises(db, job, point).users
  {
    if SourceThere(db, job) {
      var snap, dest := db.tasks[job].snap, db.tasks[job].dest;
      SavingKeepsUsers(db, snap, dest, point);
      SavingKeepsUsers(db, snap, dest, Collapsed);
      SavingKeepsUsers(db, snap, dest, Listed);
    }
    hide SavedUpTo;
  }

  lemma SavingKeepsUsers(db: Db, snap: Snapshot, dest: Id, point: Point)
    ensures SavedUpTo(db, snap, dest, point).users == db.users
  {
  }

  // While nothing is saved the lineage is as it was.
  lemma EditingKeepsLineage(db: Db, e: Event, user: User, root: Id, versions: seq<Id>)
    requires OwnLineage(db, user, root, versions) && Descending(db) && Allowed(db, e)
    requires e.RequestEdit? || e.SnapEdit? || e.RenderEdit? || e.RenderFailed?
    ensures OwnLineage(Step(db, e), user, root, versions)
    ensures Step(db, e).songs == db.songs
  {
    StepKeepsInv(db, e);
    EditingKeepsRows(db, e);
    hide Inv, Step;
  }

  // And so is the task that is under way, but for going on.
  lemma EditingMovesTask(f: Family, e: Event, user: User, root: Id)
    requires OwnEvent(f, e, user, root) && Descending(f.db) && !e.FinaliseEdit?
    requires f.current.Some? ==> OwnTask(f.db, user, root, f.versions, f.current.value)
    requires var tip := Tip(root, f.versions);
             && tip in f.db.songs && f.db.songs[tip].root.GetOr(tip) == root && user in f.db.users
    requires Step(f.db, e).songs == f.db.songs
    ensures e.RequestEdit? ==> OwnTask(Step(f.db, e), user, root, f.versions, e.job)
    ensures !e.RequestEdit? && !Fails(f, e) ==> OwnTask(Step(f.db, e), user, root, f.versions, e.job)
  {
  }

  lemma OwnEventKeepsFamily(f: Family, e: Event, user: User, root: Id)
    requires FamilySound(f, user, root) && FamilyEvent(f, e, user, root) && OwnEvent(f, e, user, root)
    ensures FamilySound(NextFamily(f, e, user, root), user, root)
  {
    TipIsThere(f.db, user, root, f.versions);
    if !e.FinaliseEdit? {
      EditingKeepsLineage(f.db, e, user, root, f.versions);
      EditingMovesTask(f, e, user, root);
      hide OwnLineage, Step, OwnTask, Allowed;
    } else if Saves(f, e) {
      hide OwnLineage, Finalise;
      SaveNewest(f.db, user, root, f.versions, e.job);
    } else {
      hide OwnLineage;
    }
  }

  lemma FamilyEventKeepsFamily(f: Family, e: Event, user: User, root: Id)
    requires FamilySound(f, user, root) && FamilyEvent(f, e, user, root)
    ensures FamilySound(NextFamily(f, e, user, root), user, root)
    ensures NextFamily(f, e, user, root).db == Step(f.db, e)
    ensures |NextFamily(f, e, user, root).versions| ==
              if Saves(f, e) then (if |f.versions| == 2 then 2 else |f.versions| + 1) else |f.versions|
  {
    if OwnEvent(f, e, user, root) {
      OwnEventKeepsFamily(f, e, user, root);
    } else {
      OtherEventKeepsFamily(f, e, user, root);
      OtherIsNotOwn(f, e, user, root);
    }
    hide OwnLineage, Step;
  }

  lemma OtherIsNotOwn(f: Family, e: Event, user: User, root: Id)
    requires !OwnEvent(f, e, user, root)
    ensures !Saves(f, e) && !Fails(f, e)
  {
  }

  // ------------------------------------------------ whole runs

  ghost predicate FamilyRun(f: Family, events: seq<Event>, g: Family, user: User, root: Id)
    decreases |events|
  {
    if events == [] then g == f
    else
      && FamilyEvent(f, events[0], user, root)
      && FamilyRun(NextFamily(f, events[0], user, root), events[1..], g, user, root)
  }

  // How many edits of the family a run saves.
  ghost function SaveCount(f: Family, events: seq<Event>, g: Family, user: User, root: Id): nat
    requires FamilyRun(f, events, g, user, root)
    decreases |events|
  {
    if events == [] then 0
    else (if Saves(f, events[0]) then 1 else 0) +
         SaveCount(NextFamily(f, events[0], user, root), events[1..], g, user, root)
  }

  // Two-edit cap: whatever else happens at other songs, and however often renderings fail, the
  // lineage has at most two versions besides its root, in a chain, and exactly two once two
  // edits have been saved.
  lemma {:induction false} TwoEditCap(f: Family, events: seq<Event>, g: Family, user: User, root: Id)
    requires FamilySound(f, user, root) && FamilyRun(f, events, g, user, root)
    ensures FamilySound(g, user, root)
    ensures (set x | x in g.db.songs && g.db.songs[x].root == Some(root)) == Elements(g.versions)
    ensures |Elements(g.versions)| <= 2
    ensures var saved := |f.versions| + SaveCount(f, events, g, user, root);
            |g.versions| == if saved < 2 then saved else 2
    decreases |events|
  {
    if events == [] {
      FewVersions(f.db, user, root, f.versions);
      AtMostTwo(f.versions);
      VersionsAre(f.db, user, root, f.versions);
    } else {
      FamilyEventKeepsFamily(f, events[0], user, root);
      FewVersions(f.db, user, root, f.versions);
      hide FamilySound, FamilyEvent, NextFamily, Saves;
      TwoEditCap(NextFamily(f, events[0], user, root), events[1..], g, user, root);
    }
  }

  lemma VersionsAre(db: Db, user: User, root: Id, versions: seq<Id>)
    requires OwnLineage(db, user, root, versions)
    ensures (set x | x in db.songs && db.songs[x].root == Some(root)) == Elements(versions)
  {
    hide Inv;
  }

  lemma AtMostTwo(s: seq<Id>)
    requires |s| <= 2
    ensures |Elements(s)| <= 2
  {
    assert Elements(s) == if |s| == 0 then {} else if |s| == 1 then {s[0]} else {s[0], s[1]};
  }
}
