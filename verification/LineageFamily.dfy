/** One lineage among the others: what steps at other songs leave alone. */
module LineageFamily {
  import opened Basics
  import opened Lineage
  import opened LineageInvariant
  import opened LineageRuns
  import opened LineagePublish
  import opened LineageTheorems

  // The songs of the family point at each other only, and no other song points at its root or
  // has a parent in it.
  ghost predicate Apart(db: Db, family: set<Id>, root: Id) {
    && root in family
    && (forall x :: x in family ==>
          && x in db.songs
          && (db.songs[x].parent.Some? ==> db.songs[x].parent.value in family)
          && (db.songs[x].root.Some? ==> db.songs[x].root.value in family))
    && (forall x :: x in db.songs && x !in family ==>
          && db.songs[x].root != Some(root)
          && (db.songs[x].parent.Some? ==> db.songs[x].parent.value !in family))
  }

  // The family's rows are as they were, no song has joined it, and no library has gained one of it.
  ghost predicate LeavesAlone(db: Db, d: Db, family: set<Id>, root: Id) {
    && Apart(d, family, root)
    && (forall x :: x in family ==> x in db.songs && d.songs[x] == db.songs[x])
    && (forall e :: e in d.lib && e.1 in family ==> e in db.lib)
  }

  lemma LeavesAloneTwice(a: Db, b: Db, c: Db, family: set<Id>, root: Id)
    requires LeavesAlone(a, b, family, root) && LeavesAlone(b, c, family, root)
    ensures LeavesAlone(a, c, family, root)
  {
  }

  lemma DeleteLeavesAlone(db: Db, id: Id, family: set<Id>, root: Id)
    requires Apart(db, family, root) && id !in family
    ensures LeavesAlone(db, DeleteSong(db, id), family, root)
  {
  }

  lemma {:induction false} WalkLeavesAlone(db: Db, cur: Option<Id>, stop: Id, exclude: Option<Id>,
                                            family: set<Id>, root: Id)
    requires Descending(db) && Apart(db, family, root) && (cur.Some? ==> cur.value !in family)
    ensures LeavesAlone(db, Walk(db, cur, stop, exclude), family, root)
    decreases if cur.Some? then cur.value + 1 else 0
  {
    if cur.Some? && cur.value != stop && cur.value in db.songs {
      var next := db.songs[cur.value].parent;
      if Collectable(db, cur.value, exclude) {
        var d := DeleteSong(db, cur.value);
        DeleteKeepsDescending(db, cur.value);
        DeleteLeavesAlone(db, cur.value, family, root);
        WalkLeavesAlone(d, next, stop, exclude, family, root);
        LeavesAloneTwice(db, d, Walk(d, next, stop, exclude), family, root);
      } else {
        WalkLeavesAlone(db, next, stop, exclude, family, root);
      }
    }
  }

  lemma OneWalkLeavesAlone(db: Db, song: Id, family: set<Id>, root: Id)
    requires Descending(db) && Apart(db, family, root) && song !in family
    ensures LeavesAlone(db, PublishWalk(db, song), family, root)
  {
    if song in db.songs && db.songs[song].parent.Some? && db.songs[song].root.Some? {
      WalkLeavesAlone(db, db.songs[song].parent, db.songs[song].root.value, Some(song), family, root);
    }
  }

  lemma {:induction false} WalksLeaveAlone(db: Db, songs: seq<Id>, family: set<Id>, root: Id)
    requires Descending(db) && Apart(db, family, root) && forall s :: s in songs ==> s !in family
    ensures LeavesAlone(db, PublishWalks(db, songs), family, root)
    decreases |songs|
  {
    if songs != [] {
      var d := PublishWalk(db, songs[0]);
      OneWalkLeavesAlone(db, songs[0], family, root);
      hide PublishWalk;
      WalksLeaveAlone(d, songs[1..], family, root);
      LeavesAloneTwice(db, d, PublishWalks(d, songs[1..]), family, root);
    }
  }

  lemma UpdateLeavesAlone(db: Db, ids: set<Id>, family: set<Id>, root: Id)
    requires Apart(db, family, root) && ids !! family
    ensures LeavesAlone(db, PublishUpdate(db, ids), family, root)
  {
  }

  lemma PublishLeavesAlone(db: Db, songs: seq<Id>, family: set<Id>, root: Id)
    requires Descending(db) && Apart(db, family, root) && forall s :: s in songs ==> s !in family
    ensures LeavesAlone(db, Publish(db, songs), family, root)
  {
    WalksLeaveAlone(db, songs, family, root);
    var w := PublishWalks(db, songs);
    UpdateLeavesAlone(w, Elements(songs), family, root);
    hide PublishWalks, PublishUpdate;
    LeavesAloneTwice(db, w, Publish(db, songs), family, root);
  }

  lemma RestoreLeavesAlone(db: Db, user: User, song: Id, target: Id, family: set<Id>, root: Id)
    requires Descending(db) && Apart(db, family, root) && song !in family && target !in family
    ensures LeavesAlone(db, Restore(db, user, song, target), family, root)
  {
    var s := RestoreSwap(db, user, song, target);
    if song in db.songs && db.songs[song].owner == Some(user) && target in db.songs {
      assert LeavesAlone(db, s, family, root);
      WalkLeavesAlone(s, Some(song), target, None, family, root);
      hide Walk;
      LeavesAloneTwice(db, s, Restore(db, user, song, target), family, root);
    }
  }

  // A snapshot that names none of the family.
  ghost predicate NamesNone(snap: Snapshot, family: set<Id>) {
    && snap.source !in family && snap.root !in family
    && (snap.parent.Some? ==> snap.parent.value !in family)
  }

  lemma InsertLeavesAlone(db: Db, snap: Snapshot, dest: Id, family: set<Id>, root: Id)
    requires Apart(db, family, root) && NamesNone(snap, family) && dest !in family
    ensures LeavesAlone(db, InsertVersion(db, snap, dest), family, root)
    ensures LeavesAlone(db, HideSource(InsertVersion(db, snap, dest), snap), family, root)
  {
  }

  lemma CollapseLeavesAlone(db: Db, snap: Snapshot, family: set<Id>, root: Id)
    requires Apart(db, family, root) && NamesNone(snap, family)
    ensures LeavesAlone(db, CollectParent(db, snap), family, root)
    ensures LeavesAlone(db, CollapseGrandparent(db, snap), family, root)
  {
    if CollectsParent(db, snap) {
      DeleteLeavesAlone(db, snap.parent.value, family, root);
    }
  }

  lemma SavingLeavesAlone(db: Db, snap: Snapshot, dest: Id, point: Point, family: set<Id>, root: Id)
    requires Apart(db, family, root) && NamesNone(snap, family) && dest !in family
    ensures LeavesAlone(db, SavedUpTo(db, snap, dest, point), family, root)
  {
    InsertLeavesAlone(db, snap, dest, family, root);
    var hidden := HideSource(InsertVersion(db, snap, dest), snap);
    CollapseLeavesAlone(hidden, snap, family, root);
    LeavesAloneTwice(db, hidden, CollectParent(hidden, snap), family, root);
    LeavesAloneTwice(db, hidden, CollapseGrandparent(hidden, snap), family, root);
  }

  lemma EndLeavesAlone(db: Db, s: Db, job: JobId, t: Task, family: set<Id>, root: Id)
    requires (t.Saved? || t.Broken?) && LeavesAlone(db, s, family, root)
    ensures LeavesAlone(db, EndTask(s, job, t), family, root)
  {
  }

  // ------------------------------------------------ steps elsewhere

  // A task of an edit elsewhere.
  ghost predicate ForeignTask(t: Task, family: set<Id>) {
    && t.Source() !in family
    && (!t.Waiting? && !t.Stopped? ==> NamesNone(t.snap, family))
  }

  // The event is about other songs.
  ghost predicate Foreign(db: Db, e: Event, family: set<Id>) {
    match e
    case NewUser => true
    case RemoveUser(_) => true
    case NewSong(_) => true
    case RequestEdit(_, song, _) => song !in family
    case SnapEdit(job) => job in db.tasks ==> ForeignTask(db.tasks[job], family)
    case RenderEdit(job) => job in db.tasks ==> ForeignTask(db.tasks[job], family)
    case RenderFailed(job) => job in db.tasks ==> ForeignTask(db.tasks[job], family)
    case FinaliseEdit(job) => job in db.tasks ==> ForeignTask(db.tasks[job], family)
    case FinaliseRaised(job, _) => job in db.tasks ==> ForeignTask(db.tasks[job], family)
    case RestoreVersion(_, song, target) => song !in family && target !in family
    case PublishSongs(songs) => forall s :: s in songs ==> s !in family
    case DeleteDownload(song) => song !in family
    case LibraryAdd(_, song) => song !in family
    case LibraryRemove(_, song) => song !in family
  }

  // Saving, up to any point, and the end of the task.
  lemma SavedLeavesAlone(db: Db, job: JobId, t: Task, point: Point, family: set<Id>, root: Id)
    requires Apart(db, family, root) && (t.Saved? || t.Broken?) && NamesNone(t.snap, family) && t.dest !in family
    ensures LeavesAlone(db, EndTask(SavedUpTo(db, t.snap, t.dest, point), job, t), family, root)
  {
    hide SavedUpTo, EndTask, LeavesAlone, Apart, NamesNone;
    SavingLeavesAlone(db, t.snap, t.dest, point, family, root);
    EndLeavesAlone(db, SavedUpTo(db, t.snap, t.dest, point), job, t, family, root);
  }

  lemma DestOutside(db: Db, job: JobId, family: set<Id>, root: Id)
    requires Inv(db) && SourceThere(db, job) && Apart(db, family, root)
    ensures db.tasks[job].dest !in family
  {
    SnapshotFacts(db, job);
  }

  lemma StopLeavesAlone(db: Db, job: JobId, family: set<Id>, root: Id)
    requires Apart(db, family, root) && job in db.tasks
    ensures LeavesAlone(db, Stop(db, job), family, root)
  {
  }

  lemma FinaliseLeavesAlone(db: Db, job: JobId, family: set<Id>, root: Id)
    requires Inv(db) && Apart(db, family, root) && job in db.tasks && ForeignTask(db.tasks[job], family)
    ensures LeavesAlone(db, Finalise(db, job), family, root)
  {
    StopLeavesAlone(db, job, family, root);
    if SourceThere(db, job) {
      DestOutside(db, job, family, root);
      var snap, dest := db.tasks[job].snap, db.tasks[job].dest;
      SavedLeavesAlone(db, job, Broken(snap, dest), Collapsed, family, root);
      SavedLeavesAlone(db, job, Saved(snap, dest), Listed, family, root);
    }
    hide Inv, SavedUpTo, EndTask, NamesNone, Stop;
  }

  lemma RaiseLeavesAlone(db: Db, job: JobId, point: Point, family: set<Id>, root: Id)
    requires Inv(db) && Apart(db, family, root) && job in db.tasks && ForeignTask(db.tasks[job], family)
    ensures LeavesAlone(db, FinaliseRaises(db, job, point), family, root)
  {
    if SourceThere(db, job) {
      DestOutside(db, job, family, root);
      SavedLeavesAlone(db, job, Broken(db.tasks[job].snap, db.tasks[job].dest), point, family, root);
    }
    hide Inv, SavedUpTo, EndTask, NamesNone;
  }

  // The steps of an edit before it is saved change no song and no library.
  lemma EditingKeepsRows(db: Db, e: Event)
    requires Descending(db) && (e.RequestEdit? || e.SnapEdit? || e.RenderEdit? || e.RenderFailed?)
    ensures var d := Step(db, e); d.songs == db.songs && d.lib == db.lib && d.users == db.users
  {
  }

  lemma LibraryLeavesAlone(db: Db, d: Db, family: set<Id>, root: Id)
    requires Apart(db, family, root) && d.songs == db.songs
    requires forall e :: e in d.lib && e.1 in family ==> e in db.lib
    ensures LeavesAlone(db, d, family, root)
  {
  }

  lemma NewSongLeavesAlone(db: Db, owner: Option<User>, family: set<Id>, root: Id)
    requires Apart(db, family, root) && db.next !in db.songs
    ensures LeavesAlone(db, AddSong(db, owner), family, root)
  {
  }

  lemma RowsLeaveAlone(db: Db, e: Event, family: set<Id>, root: Id)
    requires Inv(db) && Descending(db) && Apart(db, family, root) && Foreign(db, e, family)
    requires !e.FinaliseEdit? && !e.FinaliseRaised? && !e.RestoreVersion? && !e.PublishSongs? && !e.DeleteDownload?
    ensures LeavesAlone(db, Step(db, e), family, root)
  {
    assert db.next !in db.songs;
    hide Inv, Apart, LeavesAlone, ForeignTask;
    if e.NewSong? {
      NewSongLeavesAlone(db, e.owner, family, root);
    } else {
      if e.RequestEdit? || e.SnapEdit? || e.RenderEdit? || e.RenderFailed? {
        EditingKeepsRows(db, e);
      }
      LibraryLeavesAlone(db, Step(db, e), family, root);
    }
  }

  // A step elsewhere leaves the family alone.
  lemma ForeignLeavesAlone(db: Db, e: Event, family: set<Id>, root: Id)
    requires Inv(db) && Descending(db) && Apart(db, family, root) && Foreign(db, e, family)
    ensures LeavesAlone(db, Step(db, e), family, root)
  {
    hide Inv, Apart, LeavesAlone, Descending, Finalise, FinaliseRaises, Publish, Restore, ForeignTask;
    match e
    case FinaliseEdit(job) =>
      if job in db.tasks {
        FinaliseLeavesAlone(db, job, family, root);
      } else {
        NoTask(db, job, Listed);
        NothingTouched(db, family, root);
      }
    case FinaliseRaised(job, point) =>
      if job in db.tasks {
        RaiseLeavesAlone(db, job, point, family, root);
      } else {
        NoTask(db, job, point);
        NothingTouched(db, family, root);
      }
    case RestoreVersion(user, song, target) =>
      RestoreLeavesAlone(db, user, song, target, family, root);
      NothingTouched(db, family, root);
    case PublishSongs(songs) => PublishLeavesAlone(db, songs, family, root);
    case DeleteDownload(song) =>
      DeleteLeavesAlone(db, song, family, root);
      NothingTouched(db, family, root);
    case _ => RowsLeaveAlone(db, e, family, root);
  }

  lemma NothingTouched(db: Db, family: set<Id>, root: Id)
    requires Apart(db, family, root)
    ensures LeavesAlone(db, db, family, root)
  {
  }

  lemma NoTask(db: Db, job: JobId, point: Point)
    requires job !in db.tasks
    ensures Finalise(db, job) == db == FinaliseRaises(db, job, point)
  {
  }

  // And every task of its own where it is.
  lemma ForeignKeepsTask(db: Db, e: Event, family: set<Id>, j: JobId)
    requires Descending(db) && Foreign(db, e, family) && j in db.tasks && db.tasks[j].Source() in family
    ensures j in Step(db, e).tasks && Step(db, e).tasks[j] == db.tasks[j]
  {
    hide SavedUpTo;
    match e
    case RestoreVersion(_, _, _) => WalksBringNothing(db, e);
    case PublishSongs(_) => WalksBringNothing(db, e);
    case FinaliseEdit(job) =>
      if SourceThere(db, job) {
        SavingKeepsTasks(db, db.tasks[job].snap, db.tasks[job].dest, Collapsed);
        SavingKeepsTasks(db, db.tasks[job].snap, db.tasks[job].dest, Listed);
      }
    case FinaliseRaised(job, point) =>
      if SourceThere(db, job) {
        SavingKeepsTasks(db, db.tasks[job].snap, db.tasks[job].dest, point);
      }
    case _ =>
  }
}
