/** Main results about the lineage over whole runs: the forest, the files and the job rows. */
module LineageTheorems {
  import opened Basics
  import opened Lineage
  import opened LineageInvariant
  import opened LineageRuns
  import opened LineagePublish

  // ------------------------------------------------ runs

  datatype Event =
    | NewUser
    | RemoveUser(user: User)
    | NewSong(owner: Option<User>)
    | RequestEdit(job: JobId, song: Id, user: User)
    | SnapEdit(job: JobId)
    | RenderEdit(job: JobId)
    | RenderFailed(job: JobId)
    | FinaliseEdit(job: JobId)
    | FinaliseRaised(job: JobId, point: Point)
    | RestoreVersion(user: User, song: Id, target: Id)
    | PublishSongs(songs: seq<Id>)
    | DeleteDownload(song: Id)
    | LibraryAdd(user: User, song: Id)
    | LibraryRemove(user: User, song: Id)

  // A request by somebody who is no user is refused before it gets here.
  ghost function Step(db: Db, e: Event): Db
    requires Descending(db)
  {
    match e
    case NewUser => AddUser(db)
    case RemoveUser(user) => DeleteUser(db, user)
    case NewSong(owner) => AddSong(db, owner)
    case RequestEdit(job, song, user) => Request(db, job, song, user)
    case SnapEdit(job) => Snap(db, job)
    case RenderEdit(job) => Render(db, job)
    case RenderFailed(job) => RenderFails(db, job)
    case FinaliseEdit(job) => Finalise(db, job)
    case FinaliseRaised(job, point) => FinaliseRaises(db, job, point)
    case RestoreVersion(user, song, target) => if user in db.users then Restore(db, user, song, target) else db
    case PublishSongs(songs) => Publish(db, songs)
    case DeleteDownload(song) => AdminDelete(db, song)
    case LibraryAdd(user, song) => AddToLibrary(db, user, song)
    case LibraryRemove(user, song) => RemoveFromLibrary(db, user, song)
  }

  // The two things that break the lineage are left out of runs, and nothing else.
  ghost predicate Allowed(db: Db, e: Event)
    requires Descending(db)
  {
    && (e.PublishSongs? ==> MayPublish(db, e.songs))
    && (e.FinaliseRaised? && SourceThere(db, e.job) ==> MayRaise(db, e.job, e.point))
  }

  lemma EditStepKeepsInv(db: Db, e: Event)
    requires Inv(db) && Descending(db) && Allowed(db, e)
    requires e.RequestEdit? || e.SnapEdit? || e.RenderEdit? || e.RenderFailed? || e.FinaliseEdit? || e.FinaliseRaised?
    ensures Inv(Step(db, e))
  {
    hide Inv;
    match e
    case RequestEdit(job, song, user) => RequestKeepsInv(db, job, song, user);
    case SnapEdit(job) => SnapKeepsInv(db, job);
    case RenderEdit(job) => RenderKeepsInv(db, job);
    case RenderFailed(job) =>
      if job in db.tasks && db.tasks[job].InFlight() {
        StopKeepsInv(db, job);
      }
    case FinaliseEdit(job) => FinaliseKeepsInv(db, job);
    case FinaliseRaised(job, point) =>
      if SourceThere(db, job) && (point.Listed? ==> db.tasks[job].snap.user in db.users) {
        RaiseIff(db, job, point);
      }
  }

  lemma LibraryStepKeepsInv(db: Db, e: Event)
    requires Inv(db) && Descending(db) && (e.LibraryAdd? || e.LibraryRemove? || e.RestoreVersion?)
    ensures Inv(Step(db, e))
  {
    match e
    case RestoreVersion(user, song, target) =>
      if user in db.users {
        RestoreKeepsInv(db, user, song, target);
      }
    case LibraryAdd(user, song) => LibraryChangeKeepsInv(db, AddToLibrary(db, user, song).lib);
    case LibraryRemove(user, song) => LibraryChangeKeepsInv(db, db.lib - {(user, song)});
  }

  lemma StepKeepsInv(db: Db, e: Event)
    requires Inv(db) && Descending(db) && Allowed(db, e)
    ensures Inv(Step(db, e))
  {
    hide Inv;
    match e
    case NewUser => UsersChangeKeepsInv(db);
    case RemoveUser(user) => UsersChangeKeepsInv(db);
    case NewSong(owner) => AddSongKeepsInv(db, owner);
    case PublishSongs(songs) => PublishIff(db, songs);
    case DeleteDownload(song) =>
      if NoChildren(db, song, None) {
        ChildlessDeleteKeepsInv(db, song);
      }
    case RestoreVersion(_, _, _) => LibraryStepKeepsInv(db, e);
    case LibraryAdd(_, _) => LibraryStepKeepsInv(db, e);
    case LibraryRemove(_, _) => LibraryStepKeepsInv(db, e);
    case _ => EditStepKeepsInv(db, e);
  }

  lemma OnlyWhileCollecting(db: Db, job: JobId, point: Point)
    requires SourceThere(db, job)
    ensures !MayRaise(db, job, point) ==> point.Collected?
  {
  }

  lemma UnsafeRaiseBreaks(db: Db, job: JobId, point: Point)
    requires Inv(db) && SourceThere(db, job) && !MayRaise(db, job, point)
    ensures !Inv(FinaliseRaises(db, job, point))
  {
    OnlyWhileCollecting(db, job, point);
    hide Inv, MayRaise, FinaliseRaises, SourceThere;
    RaiseIff(db, job, point);
  }

  lemma UnsafePublishBreaks(db: Db, songs: seq<Id>)
    requires Inv(db) && Descending(db) && !MayPublish(db, songs)
    ensures !Inv(Publish(db, songs))
  {
    hide Inv, MayPublish, Publish;
    PublishIff(db, songs);
  }

  lemma ForbiddenStepBreaks(db: Db, e: Event)
    requires Inv(db) && Descending(db) && !Allowed(db, e)
    ensures !Inv(Step(db, e))
  {
    hide Inv, Descending, MayPublish, MayRaise, Publish, FinaliseRaises, SourceThere;
    if e.PublishSongs? {
      UnsafePublishBreaks(db, e.songs);
    } else {
      UnsafeRaiseBreaks(db, e.job, e.point);
    }
  }

  // A step breaks a sound lineage if and only if it is one of the two left out.
  lemma StepKeepsInvIff(db: Db, e: Event)
    requires Inv(db)
    ensures Descending(db) && (Inv(Step(db, e)) <==> Allowed(db, e))
  {
    InvIsDescending(db, {});
    hide Inv, Step, Allowed, Descending;
    if Allowed(db, e) {
      StepKeepsInv(db, e);
    } else {
      ForbiddenStepBreaks(db, e);
    }
  }

  const EMPTY := Db(map[], {}, {}, {}, map[], map[], 0, 0)

  ghost predicate Next(db: Db, e: Event, d: Db) {
    Descending(db) && Allowed(db, e) && d == Step(db, e)
  }

  // A run from one database to another.
  ghost predicate Run(db: Db, events: seq<Event>, d: Db)
    decreases |events|
  {
    if events == [] then d == db
    else
      var front, last := events[..|events| - 1], events[|events| - 1];
      exists before :: Run(db, front, before) && Next(before, last, d)
  }

  ghost predicate RunTo(events: seq<Event>, db: Db) {
    Run(EMPTY, events, db)
  }

  lemma {:induction false} RunKeepsInv(db: Db, events: seq<Event>, d: Db)
    requires Inv(db) && Run(db, events, d)
    ensures Inv(d)
    decreases |events|
  {
    hide Inv, Next;
    if events != [] {
      var before :| Run(db, events[..|events| - 1], before) && Next(before, events[|events| - 1], d);
      RunKeepsInv(db, events[..|events| - 1], before);
      NextKeepsInv(before, events[|events| - 1], d);
    }
  }

  lemma NextKeepsInv(db: Db, e: Event, d: Db)
    requires Inv(db) && Next(db, e, d)
    ensures Inv(d)
  {
    StepKeepsInv(db, e);
  }

  lemma RunToIsSound(events: seq<Event>, db: Db)
    requires RunTo(events, db)
    ensures Inv(db) && Descending(db)
  {
    assert Inv(EMPTY);
    RunKeepsInv(EMPTY, events, db);
    InvIsDescending(db, {});
  }

  // What can be seen of a sound lineage at one song.
  ghost predicate LineageRight(db: Db, x: Id)
    requires Descending(db) && x in db.songs
  {
    && (db.songs[x].parent.None? <==> db.songs[x].root.None?)
    && Climb(db, x) == db.songs[x].root.GetOr(x)
    && (db.songs[x].root.Some? ==> db.songs[x].root.value in db.songs && db.songs[db.songs[x].root.value].root.None?)
  }

  // Whatever the interleaving: every root pointer names an existing root and following parents
  // from any song reaches its root. A song has its file unless its edit raised after the row had
  // been committed, and the only other files are those rendered and not saved yet. A task has a
  // job row exactly as long as its source and its user exist.
  lemma EveryRunKeepsLineage(events: seq<Event>, db: Db)
    requires RunTo(events, db)
    ensures Inv(db) && Descending(db)
    ensures forall x :: x in db.songs ==> LineageRight(db, x)
    ensures forall x :: x in db.songs ==> (x in db.files <==> !LostFile(db.tasks, x))
    ensures forall f :: f in db.files && f !in db.songs ==> exists j :: RenderedTo(db.tasks, j, f)
    ensures forall j :: j in db.jobs <==> KeepsRow(db.users, db.songs, db.tasks, j)
  {
    RunToIsSound(events, db);
    forall x | x in db.songs
      ensures LineageRight(db, x)
      ensures x in db.files <==> !LostFile(db.tasks, x)
    {
      ClimbReachesRoot(db, x);
      assert Rooted(db.songs, x);
      assert x in db.files <==> FileWanted(db.songs, db.tasks, x);
      if j :| RenderedTo(db.tasks, j, x) {
        assert DrawnBy(db.tasks, j, x);
      }
    }
  }

  // ------------------------------------------------ tasks that fail

  // A failure is on record exactly for the tasks that failed and whose source and user remain.
  lemma FailureRecordedIff(events: seq<Event>, db: Db, j: JobId)
    requires RunTo(events, db) && j in db.tasks
    ensures j in db.jobs && db.jobs[j].status.Failed? <==>
            (db.tasks[j].Stopped? || db.tasks[j].Broken?) && db.tasks[j].Source() in db.songs &&
                db.tasks[j].Requester() in db.users
  {
    RunToIsSound(events, db);
    assert j in db.jobs <==> KeepsRow(db.users, db.songs, db.tasks, j);
  }

  // A task whose source is gone before anything was saved.
  ghost predicate Orphaned(db: Db, j: JobId) {
    && j in db.tasks && db.tasks[j].Source() !in db.songs
    && (db.tasks[j].Waiting? || db.tasks[j].InFlight() || db.tasks[j].Stopped?)
  }

  lemma WalksBringNothing(db: Db, e: Event)
    requires Descending(db) && (e.RestoreVersion? || e.PublishSongs?)
    ensures Step(db, e).tasks == db.tasks && forall x :: x in Step(db, e).songs ==> x in db.songs
  {
    match e
    case RestoreVersion(user, song, target) =>
      if user in db.users && song in db.songs && db.songs[song].owner == Some(user) && target in db.songs {
        WalkShrinks(RestoreSwap(db, user, song, target), Some(song), target, None);
      }
    case PublishSongs(songs) => PublishWalksShrink(db, songs);
  }

  // Only a new song's number and a rendered version's are ever added.
  lemma StepBringsNoSource(db: Db, e: Event, x: Id)
    requires Descending(db) && x !in db.songs && x < db.next && forall j :: !RenderedTo(db.tasks, j, x)
    ensures x !in Step(db, e).songs
  {
    hide SavedUpTo;
    match e
    case RestoreVersion(_, _, _) => WalksBringNothing(db, e);
    case PublishSongs(_) => WalksBringNothing(db, e);
    case FinaliseEdit(job) =>
      if SourceThere(db, job) {
        assert RenderedTo(db.tasks, job, db.tasks[job].dest);
        SavingKeepsTasks(db, db.tasks[job].snap, db.tasks[job].dest, Collapsed);
        SavingKeepsTasks(db, db.tasks[job].snap, db.tasks[job].dest, Listed);
      }
    case FinaliseRaised(job, point) =>
      if SourceThere(db, job) {
        assert RenderedTo(db.tasks, job, db.tasks[job].dest);
        SavingKeepsTasks(db, db.tasks[job].snap, db.tasks[job].dest, point);
      }
    case _ =>
  }

  // A step of an edit changes its own task only, and an orphan's can only stop.
  lemma OrphanTaskStays(db: Db, e: Event, j: JobId)
    requires Descending(db) && Orphaned(db, j)
    ensures var d := Step(db, e);
            && j in d.tasks && d.tasks[j].Source() == db.tasks[j].Source()
            && (d.tasks[j].Waiting? || d.tasks[j].InFlight() || d.tasks[j].Stopped?)
  {
    hide SavedUpTo;
    match e
    case RestoreVersion(_, _, _) => WalksBringNothing(db, e);
    case PublishSongs(_) => WalksBringNothing(db, e);
    case FinaliseEdit(job) =>
      if SourceThere(db, job) {
        SavingKeepsTasks(db, db.tasks[job].snap, db.tasks[job].dest, Collapsed);
        SavingKeepsTasks(db, db.tasks[job].snap, db.tasks[job].dest, Listed);
      }
    case FinaliseRaised(job, point) =>
      if SourceThere(db, job) {
        SavingKeepsTasks(db, db.tasks[job].snap, db.tasks[job].dest, point);
      }
    case _ =>
  }

  lemma {:induction false} OrphanStays(db: Db, events: seq<Event>, d: Db, j: JobId)
    requires Inv(db) && Orphaned(db, j) && Run(db, events, d)
    ensures Inv(d) && Orphaned(d, j)
    decreases |events|
  {
    hide Inv, Next, Orphaned;
    if events != [] {
      var e := events[|events| - 1];
      var before :| Run(db, events[..|events| - 1], before) && Next(before, e, d);
      OrphanStays(db, events[..|events| - 1], before, j);
      NextKeepsInv(before, e, d);
      OrphanStaysOnce(before, e, d, j);
    }
  }

  lemma OrphanStaysOnce(db: Db, e: Event, d: Db, j: JobId)
    requires Inv(db) && Orphaned(db, j) && Next(db, e, d)
    ensures Orphaned(d, j)
  {
    var x := db.tasks[j].Source();
    OrphanTaskStays(db, e, j);
    assert !NobodysSource(db.tasks, x);
    forall i ensures !RenderedTo(db.tasks, i, x) {
      assert RenderedTo(db.tasks, i, x) ==> DrawnBy(db.tasks, i, x);
    }
    StepBringsNoSource(db, e, x);
  }

  // Once the source of an unfinished edit has been collected, whatever happens next: nothing is
  // saved, no job row is left to tell, and when the task gives up no file remains either.
  lemma CollectedSourceLeavesNothing(events: seq<Event>, db: Db, j: JobId, more: seq<Event>, d: Db)
    requires RunTo(events, db) && Orphaned(db, j) && Run(db, more, d)
    ensures Orphaned(d, j) && j !in d.jobs
    ensures d.tasks[j].Dest().Some? ==>
              var f := d.tasks[j].Dest().value;
              f !in d.songs && (d.tasks[j].Stopped? ==> f !in d.files)
  {
    RunToIsSound(events, db);
    OrphanStays(db, more, d, j);
    assert j in d.jobs <==> KeepsRow(d.users, d.songs, d.tasks, j);
    if d.tasks[j].Dest().Some? {
      var f := d.tasks[j].Dest().value;
      assert DrawnBy(d.tasks, j, f);
      assert f in d.files <==> FileWanted(d.songs, d.tasks, f);
      if d.tasks[j].Stopped? {
        forall i ensures !RenderedTo(d.tasks, i, f) {
          assert RenderedTo(d.tasks, i, f) ==> DrawnBy(d.tasks, i, f);
        }
      }
    }
  }

  // ------------------------------------------------ smallest failures

  // A root, a version and a version of that; user 7 keeps the newest and an edit of it is rendered.
  function ThirdEditRendered(): Db {
    Db(map[0 := Song(None, None, None), 1 := Song(Some(0), Some(0), Some(7)), 2 := Song(Some(1), Some(0), Some(7))],
       {7}, {(7, 2)}, {0, 1, 2, 3}, map[5 := JobRow(2, 7, Processing)],
       map[5 := Rendered(Snapshot(2, Some(1), 0, 7), 3)], 4, 8)
  }

  lemma ThirdEditIsSound()
    ensures Inv(ThirdEditRendered())
  {
    var db := ThirdEditRendered();
    assert Rooted(db.songs, 0) && Rooted(db.songs, 1) && Rooted(db.songs, 2);
    hide Rooted;
    assert forall j, f :: RenderedTo(db.tasks, j, f) <==> j == 5 && f == 3;
    forall f ensures f in db.files <==> FileWanted(db.songs, db.tasks, f) {
      assert RenderedTo(db.tasks, 5, 3);
    }
    hide FileWanted;
    assert forall j, f :: DrawnBy(db.tasks, j, f) <==> j == 5 && f == 3;
    assert forall j :: KeepsRow(db.users, db.songs, db.tasks, j) <==> j == 5;
  }

  // A failure right after the oldest version was deleted leaves the one below it without a parent.
  lemma HalfCollapseStrandsSource()
    ensures Inv(ThirdEditRendered()) && SourceThere(ThirdEditRendered(), 5)
    ensures !Inv(FinaliseRaises(ThirdEditRendered(), 5, Collected))
  {
    var db, snap := ThirdEditRendered(), Snapshot(2, Some(1), 0, 7);
    ThirdEditIsSound();
    var d := HideSource(InsertVersion(db, snap, 3), snap);
    assert d.lib == {} && d.songs[3].parent == Some(2);
    assert NoChildren(d, 1, Some(2));
    hide Inv, FinaliseRaises;
    UnsafeRaiseBreaks(db, 5, Collected);
  }

  // Saving for a user who was deleted while the audio rendered always leaves a song without a
  // file, and no job row.
  lemma UserGoneLosesFile(db: Db, job: JobId)
    requires Inv(db) && SourceThere(db, job) && db.tasks[job].snap.user !in db.users
    ensures var d, f := Finalise(db, job), db.tasks[job].dest;
            Inv(d) && f in d.songs && f !in d.files && LostFile(d.tasks, f) && job !in d.jobs
  {
    var d, snap, f := Finalise(db, job), db.tasks[job].snap, db.tasks[job].dest;
    FinaliseKeepsInv(db, job);
    SnapshotFacts(db, job);
    assert job in d.tasks && d.tasks[job] == Broken(snap, f) by {
      SavingKeepsTasks(db, snap, f, Collapsed);
      hide Inv, SavedUpTo;
    }
    assert BrokeAt(d.tasks, job, f);
    assert f in d.songs && f !in d.files && d.users == db.users by {
      hide Inv, CollapseGrandparent;
      NewestStays(HideSource(InsertVersion(db, snap, f), snap), snap, f);
    }
    hide Finalise;
    assert job !in d.jobs by {
      assert !KeepsRow(d.users, d.songs, d.tasks, job);
    }
  }

  lemma NewestStays(db: Db, snap: Snapshot, x: Id)
    requires x in db.songs && snap.parent != Some(x)
    ensures x in CollapseGrandparent(db, snap).songs && CollapseGrandparent(db, snap).users == db.users
  {
  }
}
