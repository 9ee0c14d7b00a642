/** The lineage invariant through every step, and exactly when publishing or raising keeps it. */
module LineageRuns {
  import opened Basics
  import opened Lineage
  import opened LineageInvariant

  // ------------------------------------------------ tasks that change, songs that do not

  // A task may become t without touching any song.
  ghost predicate MayBecome(db: Db, job: JobId, t: Task) {
    && (job in db.tasks ==> t.Source() == db.tasks[job].Source() && t.Requester() == db.tasks[job].Requester())
    && (t.Dest().None? || (job in db.tasks && t.Dest() == db.tasks[job].Dest()))
    && (t.Unsaved() ==> t.Dest().None? || (job in db.tasks && db.tasks[job].Unsaved()))
    && (job in db.tasks ==> !db.tasks[job].Broken? && !db.tasks[job].Saved? && !db.tasks[job].Stopped?)
    && (t.InFlight() ==> SnapshotAgrees(db.songs, t.snap))
    && t.Source() < db.next && t.Requester() < db.nextUser && NotInVain(db.tasks, t.Source())
  }

  // No identifier drawn for a version that was not saved.
  ghost predicate NotInVain(tasks: Tasks, x: Id) {
    forall i :: DrawnBy(tasks, i, x) ==> !tasks[i].Unsaved()
  }

  lemma TaskChangeKeepsTasks(db: Db, job: JobId, t: Task)
    requires TasksSound(db.songs, db.tasks, db.next) && SnapshotsAgree(db.songs, db.tasks)
    requires UsersNumbered(db.users, db.tasks, db.nextUser) && MayBecome(db, job, t)
    ensures var tasks := db.tasks[job := t];
            TasksSound(db.songs, tasks, db.next) && SnapshotsAgree(db.songs, tasks) &&
                UsersNumbered(db.users, tasks, db.nextUser)
  {
    var tasks := db.tasks[job := t];
    assert forall i, f :: DrawnBy(tasks, i, f) ==> DrawnBy(db.tasks, i, f);
    hide SnapshotAgrees;
    forall j, f | DrawnBy(tasks, j, f) && tasks[j].Unsaved()
      ensures f !in db.songs && NobodysSource(tasks, f)
    {
      assert DrawnBy(db.tasks, j, f) && db.tasks[j].Unsaved();
    }
  }

  // Files, when one task that has saved nothing changes and takes its file along.
  lemma TaskChangeKeepsFiles(songs: Songs, tasks: Tasks, files: set<Id>, next: Id, job: JobId, t: Task)
    requires FilesAccounted(songs, tasks, files) && TasksSound(songs, tasks, next) && !t.Rendered? && !t.Broken?
    requires job in tasks ==> !tasks[job].Broken?
    ensures FilesAccounted(songs, tasks[job := t],
                           if job in tasks && tasks[job].Rendered? then files - {tasks[job].dest} else files)
  {
    var tasks', gone := tasks[job := t], if job in tasks && tasks[job].Rendered? then {tasks[job].dest} else {};
    forall f ensures f in files - gone <==> FileWanted(songs, tasks', f) {
      assert f in files <==> FileWanted(songs, tasks, f);
      assert forall j :: BrokeAt(tasks', j, f) <==> BrokeAt(tasks, j, f);
      assert forall j :: RenderedTo(tasks', j, f) <==> RenderedTo(tasks, j, f) && j != job;
      if f in gone {
        assert DrawnBy(tasks, job, f);
        assert forall j :: RenderedTo(tasks, j, f) ==> DrawnBy(tasks, j, f);
      } else {
        assert !RenderedTo(tasks, job, f);
      }
    }
  }

  lemma StatusKeepsRows(db: Db, job: JobId, t: Task)
    requires RowsAgree(db.users, db.songs, db.tasks, db.jobs) && job in db.tasks
    requires t.Source() == db.tasks[job].Source() && t.Requester() == db.tasks[job].Requester()
    ensures RowsAgree(db.users, db.songs, db.tasks[job := t], SetStatus(db, job, StatusOf(t)).jobs)
  {
    assert forall j :: KeepsRow(db.users, db.songs, db.tasks[job := t], j) <==>
          KeepsRow(db.users, db.songs, db.tasks, j);
  }

  lemma StopKeepsInv(db: Db, job: JobId)
    requires Inv(db) && job in db.tasks && (db.tasks[job].Waiting? || db.tasks[job].InFlight())
    ensures Inv(Stop(db, job))
  {
    var was := db.tasks[job];
    var t := Stopped(was.Source(), was.Requester(), was.Dest());
    SourceNotInVain(db, job);
    TaskChangeKeepsTasks(db, job, t);
    TaskChangeKeepsFiles(db.songs, db.tasks, db.files, db.next, job, t);
    StatusKeepsRows(db, job, t);
  }

  lemma SourceNotInVain(db: Db, job: JobId)
    requires TasksSound(db.songs, db.tasks, db.next) && job in db.tasks
    ensures NotInVain(db.tasks, db.tasks[job].Source())
  {
  }

  lemma SongNotInVain(db: Db, x: Id)
    requires TasksSound(db.songs, db.tasks, db.next) && x in db.songs
    ensures NotInVain(db.tasks, x) && x < db.next
  {
  }

  lemma RequestKeepsInv(db: Db, job: JobId, source: Id, user: User)
    requires Inv(db)
    ensures Inv(Request(db, job, source, user))
  {
    if source in db.songs && user in db.users && job !in db.tasks {
      var t := Waiting(source, user);
      SongNotInVain(db, source);
      TaskChangeKeepsTasks(db, job, t);
      TaskChangeKeepsFiles(db.songs, db.tasks, db.files, db.next, job, t);
      hide TasksSound, SnapshotsAgree, FilesAccounted, RootedBut;
      var tasks := db.tasks[job := t];
      assert forall j :: KeepsRow(db.users, db.songs, tasks, j) <==>
            KeepsRow(db.users, db.songs, db.tasks, j) || j == job;
    }
  }

  lemma SnapKeepsInv(db: Db, job: JobId)
    requires Inv(db)
    ensures Inv(Snap(db, job))
  {
    if job in db.tasks && db.tasks[job].Waiting? {
      var source, user := db.tasks[job].song, db.tasks[job].requester;
      if source in db.songs {
        assert Rooted(db.songs, source);
        var t := Snapped(Snapshot(source, db.songs[source].parent, db.songs[source].root.GetOr(source), user));
        SourceNotInVain(db, job);
        TaskChangeKeepsTasks(db, job, t);
        TaskChangeKeepsFiles(db.songs, db.tasks, db.files, db.next, job, t);
        StatusKeepsRows(db, job, t);
      } else {
        assert !KeepsRow(db.users, db.songs, db.tasks, job);
        assert SetStatus(db, job, Processing) == db;
        StopKeepsInv(db, job);
      }
    }
  }

  lemma RenderKeepsFiles(db: Db, job: JobId)
    requires TasksSound(db.songs, db.tasks, db.next) && FilesAccounted(db.songs, db.tasks, db.files)
    requires job in db.tasks && db.tasks[job].Snapped?
    ensures FilesAccounted(db.songs, Render(db, job).tasks, Render(db, job).files)
  {
    var d := Render(db, job);
    forall f ensures f in d.files <==> FileWanted(d.songs, d.tasks, f) {
      assert f in db.files <==> FileWanted(db.songs, db.tasks, f);
      assert forall j :: BrokeAt(d.tasks, j, f) <==> BrokeAt(db.tasks, j, f);
      assert forall j :: RenderedTo(d.tasks, j, f) <==> RenderedTo(db.tasks, j, f) || (j == job && f == db.next);
      assert RenderedTo(d.tasks, job, db.next);
    }
  }

  lemma RenderKeepsTasks(db: Db, job: JobId)
    requires TasksSound(db.songs, db.tasks, db.next) && job in db.tasks && db.tasks[job].Snapped?
    ensures TasksSound(db.songs, Render(db, job).tasks, db.next + 1)
  {
    var d := Render(db, job);
    assert forall j, f :: DrawnBy(d.tasks, j, f) <==> DrawnBy(db.tasks, j, f) || (j == job && f == db.next);
    forall j, f | DrawnBy(d.tasks, j, f) && d.tasks[j].Unsaved()
      ensures f !in d.songs && NobodysSource(d.tasks, f)
    {
      if j != job {
        assert DrawnBy(db.tasks, j, f);
        assert NobodysSource(db.tasks, f);
      }
    }
  }

  lemma RenderKeepsInv(db: Db, job: JobId)
    requires Inv(db)
    ensures Inv(Render(db, job))
  {
    if job in db.tasks && db.tasks[job].Snapped? {
      RenderKeepsTasks(db, job);
      RenderKeepsFiles(db, job);
      hide TasksSound, FilesAccounted, SnapshotAgrees, RootedBut;
      var d := Render(db, job);
      assert forall j :: KeepsRow(d.users, d.songs, d.tasks, j) <==> KeepsRow(db.users, db.songs, db.tasks, j);
    }
  }

  // ------------------------------------------------ inserting the new version

  lemma InsertKeepsRoots(db: Db, snap: Snapshot, dest: Id)
    requires RootedBut(db.songs, {}) && snap.source in db.songs && dest !in db.songs && snap.source < dest
    requires db.songs[snap.source].root.GetOr(snap.source) == snap.root
    ensures snap.root in db.songs && RootedBut(InsertVersion(db, snap, dest).songs, {})
  {
    var d := InsertVersion(db, snap, dest);
    assert Rooted(db.songs, snap.source);
    forall x | x in d.songs
      ensures Rooted(d.songs, x) && (d.songs[x].root.Some? ==> d.songs[x].parent.Some?)
    {
      if x != dest {
        assert Rooted(db.songs, x);
      }
    }
  }

  lemma InsertKeepsTasks(db: Db, job: JobId, t: Task, songs: Songs)
    requires TasksSound(db.songs, db.tasks, db.next) && SnapshotsAgree(db.songs, db.tasks)
    requires job in db.tasks && db.tasks[job].Rendered? && (t.Saved? || t.Broken?)
    requires t.snap == db.tasks[job].snap && t.dest == db.tasks[job].dest
    requires songs.Keys == db.songs.Keys + {t.dest} && forall x :: x in db.songs && x != t.dest ==>
               songs[x] == db.songs[x]
    requires UsersNumbered(db.users, db.tasks, db.nextUser)
    ensures t.dest !in db.songs && t.snap.source < t.dest && UsersNumbered(db.users, db.tasks[job := t], db.nextUser)
    ensures TasksSound(songs, db.tasks[job := t], db.next) && SnapshotsAgree(songs, db.tasks[job := t])
  {
    var tasks := db.tasks[job := t];
    assert DrawnBy(db.tasks, job, t.dest);
    assert forall j, f :: DrawnBy(tasks, j, f) <==> DrawnBy(db.tasks, j, f);
    forall j, f | DrawnBy(tasks, j, f) && tasks[j].Unsaved()
      ensures f !in songs && NobodysSource(tasks, f)
    {
      assert j != job && DrawnBy(db.tasks, j, f);
      assert NobodysSource(db.tasks, f);
    }
    assert NobodysSource(db.tasks, t.dest);
    forall j | j in tasks && tasks[j].InFlight() ensures SnapshotAgrees(songs, tasks[j].snap) {
      assert SnapshotAgrees(db.songs, db.tasks[j].snap);
    }
  }

  lemma InsertKeepsFiles(db: Db, job: JobId, t: Task, songs: Songs)
    requires TasksSound(db.songs, db.tasks, db.next) && FilesAccounted(db.songs, db.tasks, db.files)
    requires job in db.tasks && db.tasks[job].Rendered? && (t.Saved? || t.Broken?)
    requires t.snap == db.tasks[job].snap && t.dest == db.tasks[job].dest && songs.Keys == db.songs.Keys + {t.dest}
    ensures FilesAccounted(songs, db.tasks[job := t], if t.Broken? then db.files - {t.dest} else db.files)
  {
    var tasks, files := db.tasks[job := t], if t.Broken? then db.files - {t.dest} else db.files;
    assert DrawnBy(db.tasks, job, t.dest) && RenderedTo(db.tasks, job, t.dest);
    forall f ensures f in files <==> FileWanted(songs, tasks, f) {
      assert f in db.files <==> FileWanted(db.songs, db.tasks, f);
      assert forall j :: BrokeAt(tasks, j, f) <==> BrokeAt(db.tasks, j, f) || (j == job && f == t.dest && t.Broken?);
      assert forall j :: RenderedTo(tasks, j, f) <==> RenderedTo(db.tasks, j, f) && j != job;
      if f == t.dest {
        assert forall j :: RenderedTo(db.tasks, j, f) || BrokeAt(db.tasks, j, f) ==> DrawnBy(db.tasks, j, f);
        assert t.Broken? ==> BrokeAt(tasks, job, f);
      } else {
        assert !RenderedTo(db.tasks, job, f);
      }
    }
  }

  // The version inserted, its library rows as given, and the task at its end; nothing collected.
  function Entered(db: Db, job: JobId, t: Task, lib: set<(User, Id)>): Db
    requires t.Saved? || t.Broken?
  {
    EndTask(InsertVersion(db, t.snap, t.dest).(lib := lib), job, t)
  }

  lemma InsertKeepsRows(db: Db, job: JobId, t: Task, songs: Songs)
    requires TasksSound(db.songs, db.tasks, db.next) && RowsAgree(db.users, db.songs, db.tasks, db.jobs)
    requires job in db.tasks && db.tasks[job].Rendered? && (t.Saved? || t.Broken?)
    requires t.snap == db.tasks[job].snap && t.dest == db.tasks[job].dest && songs.Keys == db.songs.Keys + {t.dest}
    ensures RowsAgree(db.users, songs, db.tasks[job := t], SetStatus(db, job, StatusOf(t)).jobs)
  {
    assert DrawnBy(db.tasks, job, t.dest);
    assert NobodysSource(db.tasks, t.dest);
    hide TasksSound;
    StatusKeepsRows(db, job, t);
    var tasks := db.tasks[job := t];
    assert forall j :: KeepsRow(db.users, songs, tasks, j) <==> KeepsRow(db.users, db.songs, tasks, j);
  }

  lemma InsertKeepsInv(db: Db, job: JobId, t: Task, lib: set<(User, Id)>)
    requires Inv(db) && SourceThere(db, job) && (t.Saved? || t.Broken?)
    requires t.snap == db.tasks[job].snap && t.dest == db.tasks[job].dest
    requires forall e :: e in lib ==> e in db.lib || (e.0 in db.users && e.1 == t.dest)
    ensures Inv(Entered(db, job, t, lib))
  {
    var d, songs := Entered(db, job, t, lib), InsertVersion(db, t.snap, t.dest).songs;
    assert SnapshotAgrees(db.songs, t.snap);
    assert songs.Keys == db.songs.Keys + {t.dest};
    hide RootedBut, FilesAccounted, SnapshotsAgree, TasksSound, RowsAgree, UsersNumbered, SetStatus, FileWanted;
    EnteredParts(db, job, t, lib);
    hide Entered;
    InsertKeepsTasks(db, job, t, songs);
    InsertKeepsFiles(db, job, t, songs);
    InsertKeepsRoots(db, t.snap, t.dest);
    InsertKeepsRows(db, job, t, songs);
    hide InsertVersion;
    assert LibrarySound(d.users, songs, lib);
  }

  lemma EnteredParts(db: Db, job: JobId, t: Task, lib: set<(User, Id)>)
    requires t.Saved? || t.Broken?
    ensures var d := Entered(db, job, t, lib);
            && d.songs == InsertVersion(db, t.snap, t.dest).songs && d.lib == lib
            && d.tasks == db.tasks[job := t] && d.files == (if t.Broken? then db.files - {t.dest} else db.files)
            && d.jobs == SetStatus(db, job, StatusOf(t)).jobs
            && d.users == db.users && d.next == db.next && d.nextUser == db.nextUser
  {
  }

  // ------------------------------------------------ collecting the grandparent

  // The grandparent's only child is the source, so it is nobody's root.
  lemma GrandparentIsNoRoot(db: Db, snap: Snapshot, g: Id)
    requires RootedBut(db.songs, {}) && snap.source in db.songs && g != snap.root
    requires db.songs[snap.source].root.GetOr(snap.source) == snap.root
    requires NoChildren(db, g, Some(snap.source))
    ensures RootOfNone(db.songs, g)
  {
    forall x | x in db.songs ensures db.songs[x].root != Some(g) {
      if db.songs[x].root == Some(g) {
        var c := RootHasChild(db.songs, x);
        assert false;
      }
    }
  }

  lemma LoosenInv(db: Db, loose: set<Id>)
    requires Inv(db)
    ensures InvBut(db, loose)
  {
    hide TasksSound, FilesAccounted, SnapshotsAgree, LibrarySound, RowsAgree, UsersNumbered;
  }

  // After the deletion at most the source hangs loose.
  lemma CollectKeepsInv(db: Db, snap: Snapshot)
    requires Inv(db) && snap.source in db.songs && SnapshotAgrees(db.songs, snap)
    ensures var d := CollectParent(db, snap);
            && InvBut(d, {snap.source})
            && (CollectsParent(db, snap) ==> snap.source in d.songs && d.songs[snap.source].root == Some(snap.root))
  {
    LoosenInv(db, {snap.source});
    if CollectsParent(db, snap) {
      var g := snap.parent.value;
      assert Rooted(db.songs, snap.source);
      if g in db.songs {
        GrandparentIsNoRoot(db, snap, g);
        DeleteKeepsInv(db, {snap.source}, g);
      }
    }
  }

  lemma CollapseKeepsInv(db: Db, snap: Snapshot)
    requires Inv(db) && snap.source in db.songs && SnapshotAgrees(db.songs, snap)
    ensures Inv(CollapseGrandparent(db, snap))
  {
    CollectKeepsInv(db, snap);
    hide Inv, InvBut;
    if CollectsParent(db, snap) {
      RehangKeepsInv(CollectParent(db, snap), snap.source, snap.root);
    }
  }

  // Changes to pointers that leave the rest as it was.
  lemma PointersKeepInv(db: Db, loose: set<Id>, songs: Songs)
    requires InvBut(db, loose) && songs.Keys == db.songs.Keys && RootedBut(songs, {})
    requires SnapshotsAgree(songs, db.tasks)
    ensures Inv(db.(songs := songs))
  {
    assert forall f :: FileWanted(songs, db.tasks, f) <==> FileWanted(db.songs, db.tasks, f);
    assert forall j :: KeepsRow(db.users, songs, db.tasks, j) <==> KeepsRow(db.users, db.songs, db.tasks, j);
    hide RootedBut, SnapshotsAgree;
  }

  // Hanging a loose version under its root makes the lineage whole again.
  lemma RehangKeepsInv(db: Db, x: Id, root: Id)
    requires InvBut(db, {x}) && x in db.songs && db.songs[x].root == Some(root)
    ensures Inv(db.(songs := db.songs[x := db.songs[x].(parent := Some(root))]))
  {
    var songs := db.songs[x := db.songs[x].(parent := Some(root))];
    assert songs.Keys == db.songs.Keys;
    assert Rooted(db.songs, x);
    forall y | y in songs
      ensures Rooted(songs, y) && (songs[y].root.Some? ==> songs[y].parent.Some?)
    {
      assert Rooted(db.songs, y);
    }
    forall j | j in db.tasks && db.tasks[j].InFlight() ensures SnapshotAgrees(songs, db.tasks[j].snap) {
      assert SnapshotAgrees(db.songs, db.tasks[j].snap);
    }
    PointersKeepInv(db, {x}, songs);
  }

  // ------------------------------------------------ the order of the writes does not matter

  // Ending the task and deleting another song commute: a deleted job row has no status to set.
  lemma EndCommutesWithDelete(db: Db, job: JobId, t: Task, g: Id)
    requires t.Saved? || t.Broken?
    ensures DeleteSong(EndTask(db, job, t), g) == EndTask(DeleteSong(db, g), job, t)
  {
    var a, b := DeleteSong(EndTask(db, job, t), g), EndTask(DeleteSong(db, g), job, t);
    if g in db.songs {
      assert a.songs == b.songs && a.lib == b.lib && a.files == b.files;
      assert forall j :: j in a.jobs <==> j in b.jobs;
      assert a.jobs == b.jobs;
    }
  }

  lemma EndCommutesWithCollapse(db: Db, job: JobId, t: Task, snap: Snapshot)
    requires t.Saved? || t.Broken?
    ensures CollectParent(EndTask(db, job, t), snap) == EndTask(CollectParent(db, snap), job, t)
    ensures CollapseGrandparent(EndTask(db, job, t), snap) == EndTask(CollapseGrandparent(db, snap), job, t)
  {
    var e := EndTask(db, job, t);
    assert e.songs == db.songs && e.lib == db.lib;
    assert CollectsParent(e, snap) <==> CollectsParent(db, snap);
    if snap.parent.Some? {
      EndCommutesWithDelete(db, job, t, snap.parent.value);
    }
  }

  lemma ListingCommutesWithCollapse(db: Db, snap: Snapshot, dest: Id)
    requires snap.parent != Some(dest)
    ensures var listed := db.(lib := db.lib + {(snap.user, dest)});
            var d := CollapseGrandparent(db, snap);
            CollapseGrandparent(listed, snap) == d.(lib := d.lib + {(snap.user, dest)})
  {
    var listed, entry := db.(lib := db.lib + {(snap.user, dest)}), (snap.user, dest);
    if snap.parent.Some? {
      var g := snap.parent.value;
      assert entry.1 != g;
      assert forall e :: e in listed.lib <==> e in db.lib || e == entry;
      assert NoLibraryRefs(listed, g) <==> NoLibraryRefs(db, g) by {
        if NoLibraryRefs(listed, g) {
          assert forall e :: e in db.lib ==> e in listed.lib;
        }
      }
      assert NoChildren(listed, g, Some(snap.source)) <==> NoChildren(db, g, Some(snap.source));
      assert DeleteSong(listed, g).lib == if g in db.songs then DeleteSong(db, g).lib + {entry} else listed.lib;
    }
  }

  // The library rows once the given point is passed.
  function LibAt(db: Db, snap: Snapshot, dest: Id, point: Point): set<(User, Id)> {
    var hidden := if point.Inserted? then db.lib else db.lib - {(snap.user, snap.source)};
    if point.Listed? then hidden + {(snap.user, dest)} else hidden
  }

  // What the second half leaves behind at each point, with the collection put last.
  lemma SavedIsCollapse(db: Db, job: JobId, t: Task, point: Point)
    requires (t.Saved? || t.Broken?) && t.snap.parent != Some(t.dest)
    ensures var entered := Entered(db, job, t, LibAt(db, t.snap, t.dest, point));
            var saved := EndTask(SavedUpTo(db, t.snap, t.dest, point), job, t);
            && (point.Inserted? || point.Hidden? ==> saved == entered)
            && (point.Collected? ==> saved == CollectParent(entered, t.snap))
            && (point.Collapsed? || point.Listed? ==> saved == CollapseGrandparent(entered, t.snap))
  {
    var hidden := HideSource(InsertVersion(db, t.snap, t.dest), t.snap);
    EndCommutesWithCollapse(hidden, job, t, t.snap);
    if point.Listed? {
      ListingCommutesWithCollapse(hidden, t.snap, t.dest);
      EndCommutesWithCollapse(hidden.(lib := hidden.lib + {(t.snap.user, t.dest)}), job, t, t.snap);
    }
  }

  // A lone collection breaks the lineage exactly when the source hung below what was collected.
  lemma CollectIff(db: Db, snap: Snapshot)
    requires Inv(db) && snap.source in db.songs && SnapshotAgrees(db.songs, snap)
    ensures Inv(CollectParent(db, snap)) <==> !(CollectsParent(db, snap) && db.songs[snap.source].parent == snap.parent)
  {
    CollectKeepsInv(db, snap);
    var d := CollectParent(db, snap);
    assert Rooted(db.songs, snap.source);
    if CollectsParent(db, snap) {
      var g := snap.parent.value;
      if db.songs[snap.source].parent == Some(g) {
        assert d.songs[snap.source].parent.None? && d.songs[snap.source].root.Some?;
      } else if g in db.songs {
        GrandparentIsNoRoot(db, snap, g);
        DeleteKeepsInv(db, {}, g);
      }
    }
  }

  // The edit may raise here without breaking the lineage: not between collecting the version
  // the source hangs below and hanging the source under the root.
  predicate MayRaise(db: Db, job: JobId, point: Point)
    requires SourceThere(db, job)
  {
    var snap := db.tasks[job].snap;
    !(point.Collected? && CollectsParent(HideSource(InsertVersion(db, snap, db.tasks[job].dest), snap), snap)
      && db.songs[snap.source].parent == snap.parent)
  }

  lemma SnapshotFacts(db: Db, job: JobId)
    requires Inv(db) && SourceThere(db, job)
    ensures var snap, dest := db.tasks[job].snap, db.tasks[job].dest;
            snap.parent != Some(dest) && snap.source != dest && dest !in db.songs && SnapshotAgrees(db.songs, snap)
  {
    var snap, dest := db.tasks[job].snap, db.tasks[job].dest;
    assert DrawnBy(db.tasks, job, dest) && SnapshotAgrees(db.songs, snap);
  }

  lemma RaiseIff(db: Db, job: JobId, point: Point)
    requires Inv(db) && SourceThere(db, job) && (point.Listed? ==> db.tasks[job].snap.user in db.users)
    ensures Inv(FinaliseRaises(db, job, point)) <==> MayRaise(db, job, point)
  {
    var snap, dest := db.tasks[job].snap, db.tasks[job].dest;
    var t := Broken(snap, dest);
    SnapshotFacts(db, job);
    SavedIsCollapse(db, job, t, point);
    var entered := Entered(db, job, t, LibAt(db, snap, dest, point));
    InsertKeepsInv(db, job, t, LibAt(db, snap, dest, point));
    EnteredSource(db, job, t, LibAt(db, snap, dest, point));
    hide Inv, EndTask, InsertVersion, HideSource, DeleteSong, SnapshotAgrees, CollectsParent;
    if point.Collected? {
      CollectIff(entered, snap);
      SameCollection(entered, HideSource(InsertVersion(db, snap, dest), snap), snap);
    } else if point.Collapsed? || point.Listed? {
      CollapseKeepsInv(entered, snap);
    }
  }

  lemma EnteredSource(db: Db, job: JobId, t: Task, lib: set<(User, Id)>)
    requires (t.Saved? || t.Broken?) && t.snap.source != t.dest && t.snap.source in db.songs &&
             SnapshotAgrees(db.songs, t.snap)
    ensures var e := Entered(db, job, t, lib);
            && t.snap.source in e.songs && e.songs[t.snap.source] == db.songs[t.snap.source] &&
                 SnapshotAgrees(e.songs, t.snap)
            && e.songs == InsertVersion(db, t.snap, t.dest).songs && e.lib == lib
            && HideSource(InsertVersion(db, t.snap, t.dest), t.snap).songs == e.songs
            && HideSource(InsertVersion(db, t.snap, t.dest), t.snap).lib == db.lib - {(t.snap.user, t.snap.source)}
  {
  }

  lemma SameCollection(a: Db, b: Db, snap: Snapshot)
    requires a.songs == b.songs && a.lib == b.lib
    ensures CollectsParent(a, snap) <==> CollectsParent(b, snap)
  {
  }

  lemma FinaliseKeepsInv(db: Db, job: JobId)
    requires Inv(db)
    ensures Inv(Finalise(db, job))
  {
    if job in db.tasks && db.tasks[job].Rendered? {
      var snap, dest := db.tasks[job].snap, db.tasks[job].dest;
      if !SourceThere(db, job) {
        StopKeepsInv(db, job);
      } else if snap.user !in db.users {
        RaiseIff(db, job, Collapsed);
      } else {
        var t := Saved(snap, dest);
        SnapshotFacts(db, job);
        SavedIsCollapse(db, job, t, Listed);
        InsertKeepsInv(db, job, t, LibAt(db, snap, dest, Listed));
        EnteredSource(db, job, t, LibAt(db, snap, dest, Listed));
        CollapseKeepsInv(Entered(db, job, t, LibAt(db, snap, dest, Listed)), snap);
      }
    }
  }

  // ------------------------------------------------ the other steps

  lemma AddSongKeepsRoots(db: Db, owner: Option<User>)
    requires RootedBut(db.songs, {}) && db.next !in db.songs
    ensures RootedBut(AddSong(db, owner).songs, {})
  {
    var songs := AddSong(db, owner).songs;
    forall x | x in songs
      ensures Rooted(songs, x) && (songs[x].root.Some? ==> songs[x].parent.Some?)
    {
      if x != db.next {
        assert Rooted(db.songs, x);
      }
    }
  }

  lemma AddSongKeepsFiles(db: Db, owner: Option<User>)
    requires TasksSound(db.songs, db.tasks, db.next) && FilesAccounted(db.songs, db.tasks, db.files)
    ensures FilesAccounted(AddSong(db, owner).songs, db.tasks, AddSong(db, owner).files)
  {
    var d := AddSong(db, owner);
    forall f ensures f in d.files <==> FileWanted(d.songs, d.tasks, f) {
      assert f in db.files <==> FileWanted(db.songs, db.tasks, f);
      assert forall j :: BrokeAt(db.tasks, j, f) ==> DrawnBy(db.tasks, j, f);
    }
  }

  lemma AddSongKeepsTasks(db: Db, owner: Option<User>)
    requires TasksSound(db.songs, db.tasks, db.next) && SnapshotsAgree(db.songs, db.tasks)
    requires RowsAgree(db.users, db.songs, db.tasks, db.jobs)
    ensures var songs := AddSong(db, owner).songs;
            && TasksSound(songs, db.tasks, db.next + 1) && SnapshotsAgree(songs, db.tasks)
            && RowsAgree(db.users, songs, db.tasks, db.jobs)
  {
    var songs := AddSong(db, owner).songs;
    forall j | j in db.tasks && db.tasks[j].InFlight() ensures SnapshotAgrees(songs, db.tasks[j].snap) {
      assert SnapshotAgrees(db.songs, db.tasks[j].snap);
    }
    assert forall j :: KeepsRow(db.users, songs, db.tasks, j) <==> KeepsRow(db.users, db.songs, db.tasks, j);
  }

  lemma AddSongKeepsInv(db: Db, owner: Option<User>)
    requires Inv(db)
    ensures Inv(AddSong(db, owner))
  {
    AddSongKeepsRoots(db, owner);
    AddSongKeepsFiles(db, owner);
    AddSongKeepsTasks(db, owner);
    hide RootedBut, FilesAccounted, TasksSound, SnapshotsAgree, RowsAgree;
  }

  lemma UsersChangeKeepsInv(db: Db)
    requires Inv(db)
    ensures Inv(AddUser(db))
    ensures forall user :: Inv(DeleteUser(db, user))
  {
    hide RootedBut, TasksSound, FilesAccounted, SnapshotsAgree;
    var more := AddUser(db);
    assert forall j :: KeepsRow(more.users, db.songs, db.tasks, j) <==> KeepsRow(db.users, db.songs, db.tasks, j);
    forall user ensures Inv(DeleteUser(db, user)) {
      var d := DeleteUser(db, user);
      assert forall j :: KeepsRow(d.users, d.songs, d.tasks, j) ==> KeepsRow(db.users, db.songs, db.tasks, j);
    }
  }

  lemma LibraryChangeKeepsInv(db: Db, lib: set<(User, Id)>)
    requires Inv(db) && LibrarySound(db.users, db.songs, lib)
    ensures Inv(db.(lib := lib))
  {
    hide RootedBut, TasksSound, FilesAccounted, SnapshotsAgree, LibrarySound, RowsAgree, UsersNumbered;
  }

  lemma RestoreKeepsInv(db: Db, user: User, song: Id, target: Id)
    requires Inv(db) && user in db.users
    ensures Descending(db) && Inv(Restore(db, user, song, target))
  {
    InvIsDescending(db, {});
    if song in db.songs && db.songs[song].owner == Some(user) && target in db.songs {
      var d := RestoreSwap(db, user, song, target);
      LibraryChangeKeepsInv(db, d.lib);
      RestoreWalkKeepsInv(d, Some(song), target);
    }
  }
}
