/** What deletions, restores, publishing and whole edits do, written out on the rows. */
module LineageEffects {
  import opened Basics
  import opened Lineage
  import opened LineageInvariant
  import opened LineageRuns
  import opened LineagePublish
  import opened LineageWalks

  // ------------------------------------------------ deletions

  // The songs are gone with their files, library entries and job rows; pointers at them are
  // null, and everything else is as it was.
  ghost predicate Emptied(db: Db, d: Db, gone: set<Id>) {
    && d.songs.Keys == db.songs.Keys - gone
    && (forall x :: x in d.songs ==>
          d.songs[x] == Song(Spared(db.songs[x].parent, gone), Spared(db.songs[x].root, gone), db.songs[x].owner))
    && d.files == db.files - gone
    && (forall e :: e in d.lib <==> e in db.lib && e.1 !in gone)
    && (forall j :: j in d.jobs <==> j in db.jobs && db.jobs[j].song !in gone)
    && (forall j :: j in d.jobs ==> d.jobs[j] == db.jobs[j])
    && d.users == db.users && d.tasks == db.tasks && d.next == db.next && d.nextUser == db.nextUser
  }

  lemma NothingEmptied(db: Db)
    ensures Emptied(db, db, {})
  {
  }

  lemma DeleteEmpties(db: Db, id: Id)
    requires id in db.songs
    ensures Emptied(db, DeleteSong(db, id), {id})
  {
  }

  lemma EmptiedFurther(a: Db, b: Db, c: Db, gone: set<Id>, more: set<Id>)
    requires Emptied(a, b, gone) && Emptied(b, c, more)
    ensures Emptied(a, c, gone + more)
  {
    forall x | x in c.songs
      ensures c.songs[x] ==
                Song(Spared(a.songs[x].parent, gone + more), Spared(a.songs[x].root, gone + more), a.songs[x].owner)
    {
      assert x in b.songs;
    }
  }

  // A song is deleted, with all that goes with it, if and only if no song has it as its parent.
  lemma AdminDeletesIff(db: Db, id: Id)
    requires id in db.songs
    ensures if exists x :: x in db.songs && db.songs[x].parent == Some(id) then AdminDelete(db, id) == db
            else Emptied(db, AdminDelete(db, id), {id})
  {
    DeleteEmpties(db, id);
    hide Emptied, DeleteSong;
  }

  // A user goes with their library entries and job rows, and nothing else.
  lemma UserGoes(db: Db, user: User)
    ensures var d := DeleteUser(db, user);
            && (forall u :: u in d.users <==> u in db.users && u != user)
            && (forall e :: e in d.lib <==> e in db.lib && e.0 != user)
            && (forall j :: j in d.jobs <==> j in db.jobs && db.jobs[j].requester != user)
            && (forall j :: j in d.jobs ==> d.jobs[j] == db.jobs[j])
            && d.songs == db.songs && d.files == db.files && d.tasks == db.tasks
            && d.next == db.next && d.nextUser == db.nextUser
  {
  }

  // ------------------------------------------------ restoring

  lemma {:induction false} WalkEmpties(db: Db, cur: Option<Id>, stop: Id, exclude: Option<Id>)
    requires Descending(db)
    ensures var d := Walk(db, cur, stop, exclude);
            Emptied(db, d, db.songs.Keys - d.songs.Keys) && d.songs.Keys <= db.songs.Keys
    decreases if cur.Some? then cur.value + 1 else 0
  {
    if cur.Some? && cur.value != stop && cur.value in db.songs {
      var c, next := cur.value, db.songs[cur.value].parent;
      if Collectable(db, c, exclude) {
        var d := DeleteSong(db, c);
        var w := Walk(d, next, stop, exclude);
        DeleteKeepsDescending(db, c);
        DeleteEmpties(db, c);
        assert d.songs.Keys == db.songs.Keys - {c};
        hide DeleteSong, Emptied;
        WalkEmpties(d, next, stop, exclude);
        EmptiedFurther(db, d, w, {c}, d.songs.Keys - w.songs.Keys);
        assert {c} + (d.songs.Keys - w.songs.Keys) == db.songs.Keys - w.songs.Keys;
      } else {
        hide Emptied;
        WalkEmpties(db, next, stop, exclude);
      }
    } else {
      NothingEmptied(db);
      assert db.songs.Keys - db.songs.Keys == {};
    }
  }

  lemma {:induction false} GoneAreSongs(db: Db, gone: set<Id>, cur: Option<Id>, stop: Id, exclude: Option<Id>)
    requires Descending(db) && gone <= db.songs.Keys
    ensures gone <= GoneAfterWalk(db, gone, cur, stop, exclude) <= db.songs.Keys
    decreases if cur.Some? then cur.value + 1 else 0
  {
    if cur.Some? && cur.value != stop && cur.value in db.songs && cur.value !in gone {
      var more := if Unreferenced(db, gone, cur.value, exclude) then gone + {cur.value} else gone;
      GoneAreSongs(db, more, db.songs[cur.value].parent, stop, exclude);
    }
  }

  lemma WalkTakes(db: Db, song: Id, target: Id)
    requires Descending(db)
    ensures Emptied(db, Walk(db, Some(song), target, None), GoneAfterWalk(db, {}, Some(song), target, None))
  {
    var d, gone := Walk(db, Some(song), target, None), GoneAfterWalk(db, {}, Some(song), target, None);
    WalkEmpties(db, Some(song), target, None);
    assert d.songs.Keys == db.songs.Keys - gone by {
      assert LineagePublish.Without(db, db, {});
      WalkWithout(db, db, {}, Some(song), target, None);
    }
    hide Emptied, Walk, GoneAfterWalk;
    GoneAreSongs(db, {}, Some(song), target, None);
    assert db.songs.Keys - d.songs.Keys == gone;
  }

  // A restore is refused, or swaps the library row and then takes exactly the songs on the chain
  // from the song to the target that nothing refers to, as read off the rows before any of them
  // is taken.
  lemma RestoreTakes(db: Db, user: User, song: Id, target: Id)
    requires Descending(db)
    ensures var swapped := db.(lib := db.lib - {(user, song)} + {(user, target)});
            if song in db.songs && db.songs[song].owner == Some(user) && target in db.songs
            then Emptied(swapped, Restore(db, user, song, target),
                         GoneAfterWalk(swapped, {}, Some(song), target, None))
            else Restore(db, user, song, target) == db
  {
    var swapped := db.(lib := db.lib - {(user, song)} + {(user, target)});
    if song in db.songs && db.songs[song].owner == Some(user) && target in db.songs {
      WalkTakes(swapped, song, target);
      hide Emptied;
    }
  }

  // The song restored from is deleted if and only if it is not the target, no other library holds
  // it, and no song was made from it.
  lemma RestoredFromGoesIff(db: Db, user: User, song: Id, target: Id)
    requires Descending(db) && song in db.songs && db.songs[song].owner == Some(user) && target in db.songs
    ensures song !in Restore(db, user, song, target).songs <==>
            && song != target
            && (forall e :: e in db.lib && e.1 == song ==> e.0 == user)
            && (forall x :: x in db.songs ==> db.songs[x].parent != Some(song))
  {
    var s := db.(lib := db.lib - {(user, song)} + {(user, target)});
    RestoreTakes(db, user, song, target);
    if song == target {
      assert GoneAfterWalk(s, {}, Some(song), target, None) == {};
    } else {
      assert NoLibraryRefs(s, song) <==> forall e :: e in db.lib && e.1 == song ==> e.0 == user by {
        assert forall e :: e in s.lib && e.1 == song <==> e in db.lib && e.1 == song && e != (user, song);
      }
      if Unreferenced(s, {}, song, None) {
        assert {} + {song} == {song};
        GoneAreSongs(s, {song}, s.songs[song].parent, target, None);
        assert song in GoneAfterWalk(s, {}, Some(song), target, None);
      } else {
        GoneBelow(s, {}, s.songs[song].parent, target, None, song);
      }
    }
  }

  // A walk takes nothing above where it starts.
  lemma {:induction false} GoneBelow(db: Db, gone: set<Id>, cur: Option<Id>, stop: Id, exclude: Option<Id>, x: Id)
    requires Descending(db) && (cur.Some? ==> cur.value < x) && x !in gone
    ensures x !in GoneAfterWalk(db, gone, cur, stop, exclude)
    decreases if cur.Some? then cur.value + 1 else 0
  {
    if cur.Some? && cur.value != stop && cur.value in db.songs && cur.value !in gone {
      var more := if Unreferenced(db, gone, cur.value, exclude) then gone + {cur.value} else gone;
      GoneBelow(db, more, db.songs[cur.value].parent, stop, exclude, x);
    }
  }

  // ------------------------------------------------ publishing

  lemma {:induction false} WalksEmpty(db: Db, songs: seq<Id>)
    requires Descending(db)
    ensures var d := PublishWalks(db, songs);
            Emptied(db, d, db.songs.Keys - d.songs.Keys) && d.songs.Keys <= db.songs.Keys
    decreases |songs|
  {
    if songs == [] {
      NothingEmptied(db);
      assert db.songs.Keys - db.songs.Keys == {};
    } else {
      var d := PublishWalk(db, songs[0]);
      var w := PublishWalks(d, songs[1..]);
      OneWalkEmpties(db, songs[0]);
      hide PublishWalk, Emptied;
      WalksEmpty(d, songs[1..]);
      EmptiedFurther(db, d, w, db.songs.Keys - d.songs.Keys, d.songs.Keys - w.songs.Keys);
      assert (db.songs.Keys - d.songs.Keys) + (d.songs.Keys - w.songs.Keys) == db.songs.Keys - w.songs.Keys;
    }
  }

  lemma OneWalkEmpties(db: Db, song: Id)
    requires Descending(db)
    ensures var d := PublishWalk(db, song);
            Emptied(db, d, db.songs.Keys - d.songs.Keys) && d.songs.Keys <= db.songs.Keys
  {
    if song in db.songs && db.songs[song].parent.Some? && db.songs[song].root.Some? {
      WalkEmpties(db, db.songs[song].parent, db.songs[song].root.value, Some(song));
    } else {
      NothingEmptied(db);
      assert db.songs.Keys - db.songs.Keys == {};
    }
  }

  // Publishing leaves all songs but the collected ones. Those listed belong to nobody and hang
  // below nothing; every other one keeps its owner, and its pointers but for those at collected
  // songs. Collected songs take their files and job rows along; libraries stay as they are.
  lemma PublishLeaves(db: Db, songs: seq<Id>)
    requires Descending(db)
    ensures var d, gone := Publish(db, songs), CollectedBy(db, songs);
            && d.songs.Keys == db.songs.Keys - gone
            && (forall x :: x in d.songs && x in songs ==>
                  d.songs[x].owner.None? && d.songs[x].parent.None? && d.songs[x].root.None?)
            && (forall x :: x in d.songs && x !in songs ==>
                  && d.songs[x].owner == db.songs[x].owner
                  && d.songs[x].parent == Spared(db.songs[x].parent, gone)
                  && d.songs[x].root == Spared(db.songs[x].root, gone))
            && d.lib == db.lib && d.files == db.files - (gone * db.songs.Keys)
            && (forall j :: j in d.jobs <==> j in db.jobs && db.jobs[j].song !in gone * db.songs.Keys)
            && (forall j :: j in d.jobs ==> d.jobs[j] == db.jobs[j])
            && d.users == db.users && d.tasks == db.tasks && d.next == db.next && d.nextUser == db.nextUser
  {
    var w, gone := PublishWalks(db, songs), CollectedBy(db, songs);
    WalksWithout(db, db, {}, songs);
    WalksEmpty(db, songs);
    assert db.songs.Keys - w.songs.Keys == gone * db.songs.Keys;
    hide PublishWalks, CollectedBy;
  }

  // ------------------------------------------------ saving an edit

  // The version before the last save is due to go: it is not the root, no library holds it, and
  // no song but the source was made from it.
  ghost predicate Due(db: Db, snap: Snapshot) {
    && snap.parent.Some? && snap.parent != Some(snap.root)
    && (forall e :: e in db.lib ==> Some(e.1) != snap.parent)
    && (forall x :: x in db.songs && x != snap.source ==> db.songs[x].parent != snap.parent)
  }

  // The songs that are gone once the given commit is made.
  ghost function GoneAt(db: Db, snap: Snapshot, point: Point): set<Id> {
    if Due(db, snap) && !point.Inserted? && !point.Hidden? && snap.parent.value in db.songs
    then {snap.parent.value} else {}
  }

  ghost predicate Rehung(db: Db, snap: Snapshot, point: Point) {
    Due(db, snap) && (point.Collapsed? || point.Listed?)
  }

  // The version is there as a child of its source and belongs to its user; once the version before
  // the last save is collected the source hangs under the root; all other rows are as they were.
  ghost predicate RowsSaved(db: Db, songs: Songs, snap: Snapshot, dest: Id, point: Point)
    requires snap.source in db.songs
  {
    var gone, was := GoneAt(db, snap, point), db.songs[snap.source];
    && songs.Keys == db.songs.Keys + {dest} - gone
    && dest in songs && songs[dest] == Song(Some(snap.source), Some(snap.root), Some(snap.user))
    && snap.source in songs
    && songs[snap.source] == Song(if Rehung(db, snap, point) then Some(snap.root) else Spared(was.parent, gone),
                                  was.root, was.owner)
    && (forall x :: x in songs && x != dest && x != snap.source ==> songs[x] == db.songs[x])
  }

  // The source leaves its user's library with the second commit, and the version enters with the last.
  ghost predicate ListedAt(db: Db, lib: set<(User, Id)>, snap: Snapshot, dest: Id, point: Point) {
    forall e :: e in lib <==>
      || (e in db.lib && (point.Inserted? || e != (snap.user, snap.source)))
      || (point.Listed? && e == (snap.user, dest))
  }

  // A file goes with its song; the new version's file stays unless something raised.
  ghost predicate FilesLeft(db: Db, d: Db, snap: Snapshot, dest: Id, point: Point, raised: bool) {
    d.files == db.files - GoneAt(db, snap, point) - if raised then {dest} else {}
  }

  // The job's row, if it is there, says how the edit ended.
  ghost predicate JobEnds(db: Db, jobs: map<JobId, JobRow>, job: JobId, gone: set<Id>, end: Status) {
    && (forall j :: j in jobs <==> j in db.jobs && db.jobs[j].song !in gone)
    && (forall j :: j in jobs ==> jobs[j] == if j == job then db.jobs[j].(status := end) else db.jobs[j])
  }

  lemma DueIsCollected(db: Db, snap: Snapshot, dest: Id)
    requires Inv(db) && snap.source in db.songs && SnapshotAgrees(db.songs, snap) && snap.source < dest
    requires dest !in db.songs
    ensures var hidden := HideSource(InsertVersion(db, snap, dest), snap);
            CollectsParent(hidden, snap) <==> Due(db, snap)
    ensures Due(db, snap) ==> RootOfNone(db.songs, snap.parent.value) && snap.parent.value < snap.source
    ensures Due(db, snap) ==> db.songs[snap.source].root != snap.parent
  {
    var hidden := HideSource(InsertVersion(db, snap, dest), snap);
    if snap.parent.Some? && snap.parent.value != snap.root {
      var g := snap.parent.value;
      assert NoLibraryRefs(hidden, g) <==> forall e :: e in db.lib ==> e.1 != g by {
        assert forall e :: e in hidden.lib <==> e in db.lib && e != (snap.user, snap.source);
      }
      assert NoChildren(hidden, g, Some(snap.source)) <==>
             forall x :: x in db.songs && x != snap.source ==> db.songs[x].parent != Some(g) by {
        assert forall x :: x in db.songs ==> x in hidden.songs && hidden.songs[x] == db.songs[x];
      }
      if Due(db, snap) {
        GrandparentIsNoRoot(db, snap, g);
      }
    }
  }

  ghost function HiddenDb(db: Db, snap: Snapshot, dest: Id): Db {
    HideSource(InsertVersion(db, snap, dest), snap)
  }

  lemma CollectionEmpties(db: Db, snap: Snapshot, dest: Id, point: Point)
    requires Inv(db) && snap.source in db.songs && SnapshotAgrees(db.songs, snap) && snap.source < dest
    requires dest !in db.songs && !point.Inserted? && !point.Hidden?
    ensures var h := HiddenDb(db, snap, dest);
            Emptied(h, CollectParent(h, snap), GoneAt(db, snap, point)) && (CollectsParent(h, snap) <==> Due(db, snap))
  {
    var h := HiddenDb(db, snap, dest);
    DueIsCollected(db, snap, dest);
    NothingEmptied(h);
    hide Emptied, Due, CollectsParent;
    if CollectsParent(h, snap) && snap.parent.value in db.songs {
      DeleteEmpties(h, snap.parent.value);
    } else if CollectsParent(h, snap) {
      assert snap.parent.value !in h.songs;
    }
  }

  // Nothing but the source's parent points at what is collected.
  lemma EmptiedRows(db: Db, snap: Snapshot, dest: Id, point: Point, d: Db)
    requires Inv(db) && snap.source in db.songs && SnapshotAgrees(db.songs, snap) && snap.source < dest
    requires dest !in db.songs && Emptied(HiddenDb(db, snap, dest), d, GoneAt(db, snap, point))
    ensures var gone, was := GoneAt(db, snap, point), db.songs[snap.source];
            && d.songs.Keys == db.songs.Keys + {dest} - gone && dest in d.songs && snap.source in d.songs
            && d.songs[dest] == Song(Some(snap.source), Some(snap.root), Some(snap.user))
            && d.songs[snap.source] == Song(Spared(was.parent, gone), was.root, was.owner)
            && (forall x :: x in d.songs && x != dest && x != snap.source ==> d.songs[x] == db.songs[x])
  {
    var gone := GoneAt(db, snap, point);
    DueIsCollected(db, snap, dest);
    assert forall g :: g in gone ==> g < snap.source && Some(g) != Some(snap.root);
    assert forall x, g :: x in db.songs && g in gone ==>
                            db.songs[x].root != Some(g) && (x != snap.source ==> db.songs[x].parent != Some(g));
    hide Inv, SnapshotAgrees, CollectsParent, GoneAt, Due, RootOfNone;
    RowsWithout(db, snap, dest, gone, d);
  }

  lemma RowsWithout(db: Db, snap: Snapshot, dest: Id, gone: set<Id>, d: Db)
    requires snap.source in db.songs && snap.source < dest && dest !in db.songs
    requires Emptied(HiddenDb(db, snap, dest), d, gone)
    requires forall g :: g in gone ==> g < snap.source && g != snap.root
    requires forall x, g :: x in db.songs && g in gone ==>
               db.songs[x].root != Some(g) && (x != snap.source ==> db.songs[x].parent != Some(g))
    ensures var was := db.songs[snap.source];
            && d.songs.Keys == db.songs.Keys + {dest} - gone && dest in d.songs && snap.source in d.songs
            && d.songs[dest] == Song(Some(snap.source), Some(snap.root), Some(snap.user))
            && d.songs[snap.source] == Song(Spared(was.parent, gone), was.root, was.owner)
            && (forall x :: x in d.songs && x != dest && x != snap.source ==> d.songs[x] == db.songs[x])
  {
    var h := HiddenDb(db, snap, dest);
    assert h.songs == db.songs[dest := Song(Some(snap.source), Some(snap.root), Some(snap.user))];
    hide HiddenDb;
    forall x | x in d.songs && x != dest && x != snap.source ensures d.songs[x] == db.songs[x] {
      assert h.songs[x] == db.songs[x];
    }
  }

  lemma EarlyRows(db: Db, snap: Snapshot, dest: Id, point: Point)
    requires snap.source in db.songs && snap.source < dest && (point.Inserted? || point.Hidden?)
    ensures RowsSaved(db, SavedUpTo(db, snap, dest, point).songs, snap, dest, point)
    ensures RestSaved(db, SavedUpTo(db, snap, dest, point), {}) && GoneAt(db, snap, point) == {}
  {
    hide Due;
  }

  lemma SavedRows(db: Db, snap: Snapshot, dest: Id, point: Point)
    requires Inv(db) && snap.source in db.songs && SnapshotAgrees(db.songs, snap) && snap.source < dest
    requires dest !in db.songs
    ensures RowsSaved(db, SavedUpTo(db, snap, dest, point).songs, snap, dest, point)
  {
    if point.Inserted? || point.Hidden? {
      EarlyRows(db, snap, dest, point);
    } else {
      var h := HiddenDb(db, snap, dest);
      CollectionEmpties(db, snap, dest, point);
      EmptiedRows(db, snap, dest, point, CollectParent(h, snap));
      hide Inv, SnapshotAgrees, Due, CollectParent, CollectsParent, Emptied, GoneAt;
    }
  }

  ghost predicate RestSaved(db: Db, d: Db, gone: set<Id>) {
    && d.files == db.files - gone
    && (forall j :: j in d.jobs <==> j in db.jobs && db.jobs[j].song !in gone)
    && (forall j :: j in d.jobs ==> d.jobs[j] == db.jobs[j])
    && d.users == db.users && d.tasks == db.tasks && d.next == db.next && d.nextUser == db.nextUser
  }

  lemma RestOfCollapse(db: Db, snap: Snapshot, dest: Id, point: Point, gone: set<Id>)
    requires !point.Inserted? && !point.Hidden?
    requires Emptied(HiddenDb(db, snap, dest), CollectParent(HiddenDb(db, snap, dest), snap), gone)
    ensures RestSaved(db, SavedUpTo(db, snap, dest, point), gone)
  {
    hide CollectParent, CollectsParent;
  }

  lemma SavedRest(db: Db, snap: Snapshot, dest: Id, point: Point)
    requires Inv(db) && snap.source in db.songs && SnapshotAgrees(db.songs, snap) && snap.source < dest
    requires dest !in db.songs
    ensures RestSaved(db, SavedUpTo(db, snap, dest, point), GoneAt(db, snap, point))
  {
    if point.Inserted? || point.Hidden? {
      EarlyRows(db, snap, dest, point);
    } else {
      CollectionEmpties(db, snap, dest, point);
      RestOfCollapse(db, snap, dest, point, GoneAt(db, snap, point));
      hide *;
    }
  }

  lemma SavedListing(db: Db, snap: Snapshot, dest: Id, point: Point)
    requires Inv(db) && snap.source in db.songs && SnapshotAgrees(db.songs, snap) && snap.source < dest
    requires dest !in db.songs
    ensures ListedAt(db, SavedUpTo(db, snap, dest, point).lib, snap, dest, point)
  {
    var h := HiddenDb(db, snap, dest);
    if point.Inserted? || point.Hidden? {
      hide Inv, SnapshotAgrees, Due;
    } else {
      CollectionEmpties(db, snap, dest, point);
      assert forall e :: e in db.lib ==> e.1 !in GoneAt(db, snap, point);
      hide Inv, SnapshotAgrees, Due, CollectParent, CollectsParent, GoneAt;
      assert forall e :: e in CollectParent(h, snap).lib <==> e in h.lib;
      assert forall e :: e in h.lib <==> e in db.lib && e != (snap.user, snap.source);
      hide Emptied, HiddenDb;
    }
  }

  // All that is left of a rendered edit once the given commit is made and the task has ended.
  ghost predicate EditLeaves(db: Db, d: Db, job: JobId, snap: Snapshot, dest: Id, point: Point, raised: bool)
    requires snap.source in db.songs
  {
    && RowsSaved(db, d.songs, snap, dest, point)
    && ListedAt(db, d.lib, snap, dest, point)
    && FilesLeft(db, d, snap, dest, point, raised)
    && JobEnds(db, d.jobs, job, GoneAt(db, snap, point), if raised then Failed else Done(dest))
    && d.tasks == db.tasks[job := if raised then Broken(snap, dest) else Saved(snap, dest)]
    && d.users == db.users && d.next == db.next && d.nextUser == db.nextUser
  }

  lemma EndLeaves(db: Db, job: JobId, snap: Snapshot, dest: Id, point: Point, raised: bool)
    requires Inv(db) && snap.source in db.songs && SnapshotAgrees(db.songs, snap) && snap.source < dest
    requires dest !in db.songs
    ensures var t := if raised then Broken(snap, dest) else Saved(snap, dest);
            EditLeaves(db, EndTask(SavedUpTo(db, snap, dest, point), job, t), job, snap, dest, point, raised)
  {
    SavedRows(db, snap, dest, point);
    SavedRest(db, snap, dest, point);
    SavedListing(db, snap, dest, point);
    EndedRest(db, SavedUpTo(db, snap, dest, point), job, snap, dest, GoneAt(db, snap, point), raised);
    hide Inv, SnapshotAgrees, RowsSaved, ListedAt, GoneAt, SavedUpTo, RestSaved, JobEnds, EndTask;
  }

  lemma EndedRest(db: Db, d: Db, job: JobId, snap: Snapshot, dest: Id, gone: set<Id>, raised: bool)
    requires RestSaved(db, d, gone)
    ensures var e := EndTask(d, job, if raised then Broken(snap, dest) else Saved(snap, dest));
            && e.songs == d.songs && e.lib == d.lib
            && e.files == db.files - gone - (if raised then {dest} else {})
            && JobEnds(db, e.jobs, job, gone, if raised then Failed else Done(dest))
            && e.tasks == db.tasks[job := if raised then Broken(snap, dest) else Saved(snap, dest)]
            && e.users == db.users && e.next == db.next && e.nextUser == db.nextUser
  {
  }

  lemma RenderedIsNew(db: Db, job: JobId)
    requires Inv(db) && SourceThere(db, job)
    ensures var snap, dest := db.tasks[job].snap, db.tasks[job].dest;
            SnapshotAgrees(db.songs, snap) && snap.source < dest && dest !in db.songs
  {
    SnapshotFacts(db, job);
    assert DrawnBy(db.tasks, job, db.tasks[job].dest);
  }

  // An edit that raises after a commit leaves what was committed by then, without the file.
  lemma RaiseLeaves(db: Db, job: JobId, point: Point)
    requires Inv(db) && SourceThere(db, job) && (point.Listed? ==> db.tasks[job].snap.user in db.users)
    ensures EditLeaves(db, FinaliseRaises(db, job, point), job, db.tasks[job].snap, db.tasks[job].dest, point, true)
  {
    RenderedIsNew(db, job);
    hide Inv, EditLeaves, SavedUpTo, EndTask, SnapshotAgrees;
    EndLeaves(db, job, db.tasks[job].snap, db.tasks[job].dest, point, true);
  }

  // Without its source or root nothing is saved, and without its user everything but the listing.
  lemma FinaliseLeaves(db: Db, job: JobId)
    requires Inv(db) && job in db.tasks && db.tasks[job].Rendered?
    ensures var snap, dest, d := db.tasks[job].snap, db.tasks[job].dest, Finalise(db, job);
            if snap.source in db.songs && snap.root in db.songs then
              if snap.user in db.users then EditLeaves(db, d, job, snap, dest, Listed, false)
              else EditLeaves(db, d, job, snap, dest, Collapsed, true)
            else
              && d.songs == db.songs && d.lib == db.lib && d.users == db.users && d.files == db.files - {dest}
              && JobEnds(db, d.jobs, job, {}, Failed)
              && d.tasks == db.tasks[job := Stopped(snap.source, snap.user, Some(dest))]
  {
    if SourceThere(db, job) {
      RenderedIsNew(db, job);
      hide Inv, EditLeaves, SavedUpTo, EndTask, SnapshotAgrees;
      if db.tasks[job].snap.user in db.users {
        EndLeaves(db, job, db.tasks[job].snap, db.tasks[job].dest, Listed, false);
      } else {
        EndLeaves(db, job, db.tasks[job].snap, db.tasks[job].dest, Collapsed, true);
      }
    }
  }

  // An edit whose rendering raises leaves no file it drew, and its row, if there, says so.
  lemma FailureLeaves(db: Db, job: JobId)
    requires job in db.tasks && (db.tasks[job].Snapped? || db.tasks[job].Rendered?)
    ensures var t, d := db.tasks[job], RenderFails(db, job);
            && d.songs == db.songs && d.lib == db.lib && d.users == db.users
            && d.files == db.files - (if t.Rendered? then {t.dest} else {})
            && JobEnds(db, d.jobs, job, {}, Failed)
            && d.tasks.Keys == db.tasks.Keys && d.tasks[job].Stopped?
            && d.tasks == db.tasks[job := d.tasks[job]]
  {
  }

  lemma UpToRendering(db: Db, job: JobId, source: Id, user: User)
    requires source in db.songs && user in db.users && job !in db.tasks
    ensures var r := Render(Snap(Request(db, job, source, user), job), job);
            var snap := Snapshot(source, db.songs[source].parent, db.songs[source].root.GetOr(source), user);
            && r.songs == db.songs && r.lib == db.lib && r.users == db.users
            && r.files == db.files + {db.next} && r.next == db.next + 1
            && r.jobs == db.jobs[job := JobRow(source, user, Processing)]
            && r.tasks == db.tasks[job := Rendered(snap, db.next)]
  {
    var q := Request(db, job, source, user);
    assert q.tasks[job] == Waiting(source, user) && q.jobs[job] == JobRow(source, user, Pending);
    var n := Snap(q, job);
    assert n.jobs == db.jobs[job := JobRow(source, user, Processing)];
  }

  lemma RenderingKeepsInv(db: Db, job: JobId, source: Id, user: User)
    requires Inv(db)
    ensures Inv(Render(Snap(Request(db, job, source, user), job), job))
  {
    hide Inv, Request, Snap, Render;
    RequestKeepsInv(db, job, source, user);
    SnapKeepsInv(Request(db, job, source, user), job);
    RenderKeepsInv(Snap(Request(db, job, source, user), job), job);
  }

  // An edit that nothing else comes between: the version is there with its file as a child of its
  // source and under the source's root, listed in the user's library in place of the source; the
  // version before the source goes if it is due, with the source hung under the root instead; the
  // job's row names the version, and all other songs, entries and files are as they were.
  lemma WholeEdit(db: Db, job: JobId, source: Id, user: User)
    requires Inv(db) && source in db.songs && user in db.users && job !in db.tasks
    ensures var d := Finalise(Render(Snap(Request(db, job, source, user), job), job), job);
            var snap := Snapshot(source, db.songs[source].parent, db.songs[source].root.GetOr(source), user);
            && RowsSaved(db, d.songs, snap, db.next, Listed)
            && ListedAt(db, d.lib, snap, db.next, Listed)
            && d.files == db.files + {db.next} - GoneAt(db, snap, Listed)
            && job in d.jobs && d.jobs[job] == JobRow(source, user, Done(db.next))
            && Inv(d)
  {
    var r := Render(Snap(Request(db, job, source, user), job), job);
    var snap := Snapshot(source, db.songs[source].parent, db.songs[source].root.GetOr(source), user);
    UpToRendering(db, job, source, user);
    assert snap.root in db.songs by {
      assert Rooted(db.songs, source);
    }
    assert db.next !in db.songs;
    hide Inv, RowsSaved, ListedAt, GoneAt, Finalise, Render, Request, Snap, EditLeaves;
    RenderingKeepsInv(db, job, source, user);
    FinaliseLeaves(r, job);
    FinaliseKeepsInv(r, job);
    LeftOnRows(db, r, Finalise(r, job), job, snap, db.next);
  }

  lemma LeftOnRows(db: Db, r: Db, d: Db, job: JobId, snap: Snapshot, dest: Id)
    requires snap.source in db.songs && r.songs == db.songs && r.lib == db.lib && dest !in db.songs
    requires r.files == db.files + {dest} && r.jobs == db.jobs[job := JobRow(snap.source, snap.user, Processing)]
    requires EditLeaves(r, d, job, snap, dest, Listed, false)
    ensures RowsSaved(db, d.songs, snap, dest, Listed) && ListedAt(db, d.lib, snap, dest, Listed)
    ensures d.files == db.files + {dest} - GoneAt(db, snap, Listed)
    ensures job in d.jobs && d.jobs[job] == JobRow(snap.source, snap.user, Done(dest))
  {
    SameRows(db, r, d, snap, dest);
    SourceStays(r, snap, d.songs, dest);
    hide RowsSaved, ListedAt, GoneAt;
  }

  lemma SourceStays(db: Db, snap: Snapshot, songs: Songs, dest: Id)
    requires snap.source in db.songs && RowsSaved(db, songs, snap, dest, Listed)
    ensures snap.source == dest || snap.source !in GoneAt(db, snap, Listed)
  {
  }

  lemma SameRows(db: Db, r: Db, d: Db, snap: Snapshot, dest: Id)
    requires r.songs == db.songs && r.lib == db.lib && snap.source in db.songs
    ensures RowsSaved(r, d.songs, snap, dest, Listed) <==> RowsSaved(db, d.songs, snap, dest, Listed)
    ensures ListedAt(r, d.lib, snap, dest, Listed) <==> ListedAt(db, d.lib, snap, dest, Listed)
    ensures GoneAt(r, snap, Listed) == GoneAt(db, snap, Listed)
  {
  }
}
