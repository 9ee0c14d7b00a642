/** What is seen of the lineage after one of the two steps that break it. */
module LineageDamage {
  import opened Basics
  import opened Lineage
  import opened LineageInvariant
  import opened LineageRuns
  import opened LineagePublish
  import opened LineageTheorems

  // Some song's pointers are wrong: a parent without a root or the reverse, or a climb that ends
  // elsewhere than at the root.
  ghost predicate LineageBroken(db: Db)
    requires Descending(db)
  {
    exists x :: x in db.songs && !LineageRight(db, x)
  }

  lemma {:induction false} ClimbOnce(db: Db, x: Id, t: Id)
    requires Descending(db) && x in db.songs && db.songs[x].parent == Some(t)
    requires t in db.songs && db.songs[t].parent.None?
    ensures Climb(db, x) == t
  {
    assert Climb(db, t) == t;
  }

  // ------------------------------------------------ a failure between deleting and re-hanging

  lemma RaiseShows(db: Db, job: JobId, point: Point)
    requires Inv(db) && SourceThere(db, job) && !MayRaise(db, job, point)
    ensures Descending(FinaliseRaises(db, job, point)) && LineageBroken(FinaliseRaises(db, job, point))
  {
    InvIsDescending(db, {});
    SnapshotFacts(db, job);
    OnlyWhileCollecting(db, job, point);
    var snap, dest := db.tasks[job].snap, db.tasks[job].dest;
    assert DrawnBy(db.tasks, job, dest);
    var d := HideSource(InsertVersion(db, snap, dest), snap);
    assert Descending(d);
    DeleteKeepsDescending(d, snap.parent.value);
    assert Rooted(db.songs, snap.source);
    hide Inv;
    var s := FinaliseRaises(db, job, point);
    assert s.songs == DeleteSong(d, snap.parent.value).songs;
    assert s.songs[snap.source].parent.None? && s.songs[snap.source].root.Some?;
    assert !LineageRight(s, snap.source);
  }

  // ------------------------------------------------ publishing away a parent

  // What the walks leave of a version that is published and not collected.
  lemma WalksLeave(db: Db, songs: seq<Id>, t: Id)
    requires Inv(db) && Descending(db) && t in songs && t in db.songs && t !in CollectedBy(db, songs)
    requires db.songs[t].root.Some?
    ensures var w := PublishWalks(db, songs);
            && t in w.songs && Shrunk(db, w) && RootsKept(db, w)
            && db.songs[t].root.value < t && db.songs[t].root.value in w.songs
  {
    var ids := Elements(songs);
    LoosenInv(db, ids);
    PublishWalksKeepInv(db, ids, songs);
    PublishWalksKeepRoots(db, ids, songs);
    PublishWalksShrink(db, songs);
    CollectedByIs(db, songs);
    var w := PublishWalks(db, songs);
    assert t in w.songs && Rooted(w.songs, t);
  }

  lemma PublishDescends(db: Db, songs: seq<Id>)
    requires Descending(db)
    ensures Descending(Publish(db, songs))
  {
  }

  lemma ChildShows(db: Db, songs: seq<Id>, t: Id, x: Id)
    requires Inv(db) && Descending(db) && t in songs && t in db.songs && t !in CollectedBy(db, songs)
    requires db.songs[t].root.Some?
    requires x in db.songs && db.songs[x].parent == Some(t) && x !in songs && x !in CollectedBy(db, songs)
    ensures Descending(Publish(db, songs)) && LineageBroken(Publish(db, songs))
  {
    WalksLeave(db, songs, t);
    CollectedByIs(db, songs);
    PublishDescends(db, songs);
    assert Rooted(db.songs, x) && Rooted(db.songs, t);
    var w, d := PublishWalks(db, songs), Publish(db, songs);
    hide PublishWalks, Inv;
    assert PointerKept(db.songs[x].parent, w.songs[x].parent, w.songs);
    assert d.songs[x] == w.songs[x] && d.songs[t] == Song(None, None, None);
    ClimbOnce(d, x, t);
    assert !LineageRight(d, x);
  }

  // Finish an edit that is running: render it if need be, and save it.
  function Completed(db: Db, job: JobId): Db {
    Finalise(Render(db, job), job)
  }

  // The songs that saving a version leaves, whether its user is there or not.
  lemma SavedSongs(db: Db, job: JobId)
    requires SourceThere(db, job)
    ensures var snap, dest := db.tasks[job].snap, db.tasks[job].dest;
            Finalise(db, job).songs == CollapseGrandparent(HideSource(InsertVersion(db, snap, dest), snap), snap).songs
  {
    hide CollapseGrandparent;
  }

  // Saving a version of a song that has lost its pointers: either the song is hung under a root
  // it does not name, or the version names a root that is not above it.
  lemma SavingShows(db: Db, job: JobId)
    requires SourceThere(db, job) && Descending(db)
    requires var snap, dest := db.tasks[job].snap, db.tasks[job].dest;
             && snap.root < snap.source < dest && dest !in db.songs
             && (snap.parent.Some? ==> snap.parent.value < snap.source)
             && db.songs[snap.source] == Song(None, None, None)
    ensures Descending(Finalise(db, job)) && LineageBroken(Finalise(db, job))
  {
    var snap, dest, d := db.tasks[job].snap, db.tasks[job].dest, Finalise(db, job);
    SavedSongs(db, job);
    hide Finalise;
    var hidden := HideSource(InsertVersion(db, snap, dest), snap);
    var t := snap.source;
    assert Descending(hidden);
    if CollectsParent(hidden, snap) {
      DeleteKeepsDescending(hidden, snap.parent.value);
      assert d.songs[t].parent == Some(snap.root) && d.songs[t].root.None?;
      assert Descending(d);
      assert !LineageRight(d, t);
    } else {
      assert d.songs == hidden.songs;
      ClimbOnce(d, dest, t);
      assert !LineageRight(d, dest);
    }
  }

  lemma RunningEditShows(db: Db, songs: seq<Id>, t: Id, j: JobId)
    requires Inv(db) && Descending(db) && t in songs && t in db.songs && t !in CollectedBy(db, songs)
    requires db.songs[t].root.Some?
    requires j in db.tasks && db.tasks[j].InFlight() && db.tasks[j].snap.source == t
    ensures var d := Completed(Publish(db, songs), j); Descending(d) && LineageBroken(d)
  {
    WalksLeave(db, songs, t);
    PublishDescends(db, songs);
    var w, d := PublishWalks(db, songs), Publish(db, songs);
    assert SnapshotAgrees(db.songs, db.tasks[j].snap);
    NextFree(db, j);
    PublishWalksKeepNext(db, songs);
    hide PublishWalks, Inv;
    var e := Render(d, j);
    assert e.songs == d.songs && d.songs.Keys == w.songs.Keys && d.songs[t] == Song(None, None, None);
    assert d.tasks == db.tasks && d.next == db.next;
    assert SourceThere(e, j);
    SavingShows(e, j);
  }

  lemma NextFree(db: Db, j: JobId)
    requires TasksSound(db.songs, db.tasks, db.next) && j in db.tasks
    ensures db.next !in db.songs && db.tasks[j].Source() < db.next
    ensures db.tasks[j].Rendered? ==> db.tasks[j].dest !in db.songs && db.tasks[j].Source() < db.tasks[j].dest
  {
    assert db.tasks[j].Rendered? ==> DrawnBy(db.tasks, j, db.tasks[j].dest);
  }

  lemma {:induction false} WalkKeepsNext(db: Db, cur: Option<Id>, stop: Id, exclude: Option<Id>)
    requires Descending(db)
    ensures Walk(db, cur, stop, exclude).next == db.next
    decreases if cur.Some? then cur.value + 1 else 0
  {
    if cur.Some? && cur.value != stop && cur.value in db.songs {
      DeleteKeepsDescending(db, cur.value);
      var d := if Collectable(db, cur.value, exclude) then DeleteSong(db, cur.value) else db;
      WalkKeepsNext(d, db.songs[cur.value].parent, stop, exclude);
    }
  }

  lemma {:induction false} PublishWalksKeepNext(db: Db, songs: seq<Id>)
    requires Descending(db)
    ensures PublishWalks(db, songs).next == db.next
    decreases |songs|
  {
    if songs != [] {
      var s := songs[0];
      if s in db.songs && db.songs[s].parent.Some? && db.songs[s].root.Some? {
        WalkKeepsNext(db, db.songs[s].parent, db.songs[s].root.value, Some(s));
      }
      PublishWalksKeepNext(PublishWalk(db, s), songs[1..]);
    }
  }

  // Some child of the song is neither published nor collected.
  ghost predicate LeavesChild(db: Db, songs: seq<Id>, t: Id)
    requires Descending(db)
  {
    exists x :: x in db.songs && db.songs[x].parent == Some(t) && x !in songs && x !in CollectedBy(db, songs)
  }

  // A version on the list that the walks leave.
  ghost predicate LeftVersion(db: Db, songs: seq<Id>, t: Id)
    requires Descending(db)
  {
    t in songs && t in db.songs && t !in CollectedBy(db, songs) && db.songs[t].root.Some?
  }

  lemma UnsafeVersion(db: Db, songs: seq<Id>) returns (t: Id)
    requires Descending(db) && !MayPublish(db, songs)
    ensures LeftVersion(db, songs, t) && (LeavesChild(db, songs, t) || BeingEdited(db.tasks, t))
  {
    hide CollectedBy, BeingEdited;
    t :| LeftVersion(db, songs, t) && (LeavesChild(db, songs, t) || BeingEdited(db.tasks, t));
  }

  lemma LeftChildShows(db: Db, songs: seq<Id>, t: Id)
    requires Inv(db) && Descending(db) && LeftVersion(db, songs, t) && LeavesChild(db, songs, t)
    ensures Descending(Publish(db, songs)) && LineageBroken(Publish(db, songs))
  {
    hide Inv, Publish, CollectedBy, LineageBroken;
    var x :| x in db.songs && db.songs[x].parent == Some(t) && x !in songs && x !in CollectedBy(db, songs);
    ChildShows(db, songs, t, x);
  }

  lemma LeftEditShows(db: Db, songs: seq<Id>, t: Id) returns (j: JobId)
    requires Inv(db) && Descending(db) && LeftVersion(db, songs, t) && BeingEdited(db.tasks, t)
    ensures var d := Completed(Publish(db, songs), j); Descending(d) && LineageBroken(d)
  {
    hide Inv, Publish, CollectedBy, Completed, LineageBroken;
    j :| j in db.tasks && db.tasks[j].InFlight() && db.tasks[j].snap.source == t;
    RunningEditShows(db, songs, t, j);
  }

  // An unsafe publish is seen at once, or as soon as an edit of a published version is saved.
  lemma PublishShows(db: Db, songs: seq<Id>) returns (j: Option<JobId>)
    requires Inv(db) && Descending(db) && !MayPublish(db, songs)
    ensures var d := if j.None? then Publish(db, songs) else Completed(Publish(db, songs), j.value);
            Descending(d) && LineageBroken(d)
  {
    var t := UnsafeVersion(db, songs);
    hide Inv, Publish, Completed, LineageBroken, LeftVersion, LeavesChild, BeingEdited, Descending, MayPublish;
    if LeavesChild(db, songs, t) {
      LeftChildShows(db, songs, t);
      j := None;
    } else {
      var i := LeftEditShows(db, songs, t);
      j := Some(i);
    }
  }

  // Each step that is left out of runs puts some song's pointers wrong, at once or as soon as a
  // running edit is saved.
  lemma ForbiddenStepShows(db: Db, e: Event) returns (j: Option<JobId>)
    requires Inv(db) && Descending(db) && !Allowed(db, e)
    ensures var d := if j.None? then Step(db, e) else Completed(Step(db, e), j.value);
            Descending(d) && LineageBroken(d)
  {
    hide Inv, MayPublish, MayRaise, Publish, FinaliseRaises, Completed, LineageBroken, Descending;
    if e.PublishSongs? {
      j := PublishShows(db, e.songs);
    } else {
      RaiseShows(db, e.job, e.point);
      j := None;
    }
  }
}
