/** What every interleaving of edits, restores, publishes and deletes keeps of the lineage. */
module LineageInvariant {
  import opened Basics
  import opened Lineage

  type Songs = map<Id, Song>
  type Tasks = map<JobId, Task>

  // ------------------------------------------------ the invariant, part by part

  // A song that is not loose is a root, or it and its parent belong to the same root.
  ghost predicate Rooted(songs: Songs, x: Id)
    requires x in songs
  {
    var s := songs[x];
    && (s.root.None? ==> s.parent.None?)
    && (s.root.Some? ==>
          && s.root.value < x && s.root.value in songs && songs[s.root.value].root.None?
          && (s.parent.Some? ==>
                && s.parent.value < x && s.parent.value in songs
                && (s.parent == s.root || songs[s.parent.value].root == s.root)))
  }

  ghost predicate RootedBut(songs: Songs, loose: set<Id>) {
    forall x :: x in songs ==> Rooted(songs, x) && (x !in loose && songs[x].root.Some? ==> songs[x].parent.Some?)
  }

  ghost predicate DrawnBy(tasks: Tasks, j: JobId, f: Id) {
    j in tasks && tasks[j].Dest() == Some(f)
  }

  // Identifiers are drawn once and in order, and one that was drawn in vain is nobody's.
  ghost predicate TasksSound(songs: Songs, tasks: Tasks, next: Id) {
    && (forall x :: x in songs ==> x < next)
    && (forall j :: j in tasks ==> tasks[j].Source() < next)
    && (forall j: JobId, f: Id :: DrawnBy(tasks, j, f) ==> tasks[j].Source() < f < next)
    && (forall i, j, f :: DrawnBy(tasks, i, f) && DrawnBy(tasks, j, f) ==> i == j)
    && (forall j, f :: DrawnBy(tasks, j, f) && tasks[j].Unsaved() ==> f !in songs && NobodysSource(tasks, f))
  }

  ghost predicate NobodysSource(tasks: Tasks, f: Id) {
    forall i :: i in tasks ==> tasks[i].Source() != f
  }

  ghost predicate RenderedTo(tasks: Tasks, j: JobId, f: Id) {
    j in tasks && tasks[j].Rendered? && tasks[j].dest == f
  }

  ghost predicate BrokeAt(tasks: Tasks, j: JobId, f: Id) {
    j in tasks && tasks[j].Broken? && tasks[j].dest == f
  }

  // The edit that made the song raised after its row had been committed.
  ghost predicate LostFile(tasks: Tasks, f: Id) {
    exists j :: BrokeAt(tasks, j, f)
  }

  ghost predicate FileWanted(songs: Songs, tasks: Tasks, f: Id) {
    (f in songs && !LostFile(tasks, f)) || exists j :: RenderedTo(tasks, j, f)
  }

  ghost predicate FilesAccounted(songs: Songs, tasks: Tasks, files: set<Id>) {
    forall f :: f in files <==> FileWanted(songs, tasks, f)
  }

  // A task in flight agrees with its source about the root as long as the source is there.
  ghost predicate SnapshotsAgree(songs: Songs, tasks: Tasks) {
    forall j :: j in tasks && tasks[j].InFlight() ==> SnapshotAgrees(songs, tasks[j].snap)
  }

  ghost predicate SnapshotAgrees(songs: Songs, snap: Snapshot) {
    && (snap.parent.Some? ==> snap.root != snap.source && snap.parent.value < snap.source)
    && (snap.source in songs ==> songs[snap.source].root.GetOr(snap.source) == snap.root)
  }

  ghost predicate LibrarySound(users: set<User>, songs: Songs, lib: set<(User, Id)>) {
    forall e :: e in lib ==> e.0 in users && e.1 in songs
  }

  function StatusOf(t: Task): Status {
    match t
    case Waiting(_, _) => Pending
    case Snapped(_) => Processing
    case Rendered(_, _) => Processing
    case Saved(_, dest) => Done(dest)
    case Broken(_, _) => Failed
    case Stopped(_, _, _) => Failed
  }

  ghost predicate KeepsRow(users: set<User>, songs: Songs, tasks: Tasks, j: JobId) {
    j in tasks && tasks[j].Source() in songs && tasks[j].Requester() in users
  }

  // A task has a job row exactly as long as its source and its user are there, and the row says
  // how far the task is.
  ghost predicate RowsAgree(users: set<User>, songs: Songs, tasks: Tasks, jobs: map<JobId, JobRow>) {
    && (forall j :: j in jobs <==> KeepsRow(users, songs, tasks, j))
    && (forall j :: j in jobs ==>
          j in tasks && jobs[j] == JobRow(tasks[j].Source(), tasks[j].Requester(), StatusOf(tasks[j])))
  }

  ghost predicate UsersNumbered(users: set<User>, tasks: Tasks, nextUser: User) {
    && (forall u :: u in users ==> u < nextUser)
    && (forall j :: j in tasks ==> tasks[j].Requester() < nextUser)
  }

  ghost predicate InvBut(db: Db, loose: set<Id>) {
    && RootedBut(db.songs, loose)
    && TasksSound(db.songs, db.tasks, db.next)
    && FilesAccounted(db.songs, db.tasks, db.files)
    && SnapshotsAgree(db.songs, db.tasks)
    && LibrarySound(db.users, db.songs, db.lib)
    && RowsAgree(db.users, db.songs, db.tasks, db.jobs)
    && UsersNumbered(db.users, db.tasks, db.nextUser)
  }

  ghost predicate Inv(db: Db) {
    InvBut(db, {})
  }

  lemma InvIsDescending(db: Db, loose: set<Id>)
    requires InvBut(db, loose)
    ensures Descending(db)
  {
    forall x | x in db.songs && db.songs[x].parent.Some?
      ensures db.songs[x].parent.value < x
    {
      assert Rooted(db.songs, x);
    }
  }

  // ------------------------------------------------ following parents reaches the root

  ghost function Climb(db: Db, x: Id): Id
    requires Descending(db)
  {
    if x in db.songs && db.songs[x].parent.Some? then Climb(db, db.songs[x].parent.value) else x
  }

  lemma {:induction false} ClimbReachesRoot(db: Db, x: Id)
    requires Inv(db) && x in db.songs
    ensures Descending(db) && Climb(db, x) == db.songs[x].root.GetOr(x)
    ensures db.songs[x].parent.None? <==> db.songs[x].root.None?
    decreases x
  {
    InvIsDescending(db, {});
    assert Rooted(db.songs, x);
    if db.songs[x].parent.Some? {
      ClimbReachesRoot(db, db.songs[x].parent.value);
    }
  }

  // ------------------------------------------------ deletion

  // Below a root there is always a child that belongs to it.
  lemma {:induction false} RootHasChild(songs: Songs, x: Id) returns (c: Id)
    requires RootedBut(songs, {}) && x in songs && songs[x].root.Some?
    ensures c in songs && songs[c].root == songs[x].root == songs[c].parent
    decreases x
  {
    assert Rooted(songs, x);
    var p := songs[x].parent.value;
    if Some(p) == songs[x].root {
      c := x;
    } else {
      c := RootHasChild(songs, p);
    }
  }

  ghost predicate RootOfNone(songs: Songs, id: Id) {
    forall x :: x in songs ==> songs[x].root != Some(id)
  }

  lemma DeleteKeepsRoots(db: Db, loose: set<Id>, id: Id)
    requires RootedBut(db.songs, loose) && id in db.songs && RootOfNone(db.songs, id)
    requires forall x :: x in db.songs && db.songs[x].parent == Some(id) ==> x in loose
    ensures RootedBut(DeleteSong(db, id).songs, loose)
  {
    var d := DeleteSong(db, id);
    forall x | x in d.songs
      ensures Rooted(d.songs, x) && (x !in loose && d.songs[x].root.Some? ==> d.songs[x].parent.Some?)
    {
      assert Rooted(db.songs, x);
    }
  }

  lemma DeleteKeepsFiles(db: Db, id: Id)
    requires TasksSound(db.songs, db.tasks, db.next) && FilesAccounted(db.songs, db.tasks, db.files) && id in db.songs
    ensures FilesAccounted(DeleteSong(db, id).songs, db.tasks, db.files - {id})
  {
    var d := DeleteSong(db, id);
    forall f ensures f in db.files - {id} <==> FileWanted(d.songs, db.tasks, f) {
      assert f in db.files <==> FileWanted(db.songs, db.tasks, f);
      if j :| RenderedTo(db.tasks, j, id) {
        assert DrawnBy(db.tasks, j, id);
      }
    }
  }

  lemma DeleteKeepsTasks(db: Db, id: Id)
    requires TasksSound(db.songs, db.tasks, db.next) && SnapshotsAgree(db.songs, db.tasks) && RootOfNone(db.songs, id)
    ensures TasksSound(DeleteSong(db, id).songs, db.tasks, db.next) &&
            SnapshotsAgree(DeleteSong(db, id).songs, db.tasks)
  {
    var songs := DeleteSong(db, id).songs;
    assert forall x :: x in songs ==> x in db.songs && songs[x].root == db.songs[x].root;
    hide DeleteSong;
    forall j | j in db.tasks && db.tasks[j].InFlight() ensures SnapshotAgrees(songs, db.tasks[j].snap) {
      assert SnapshotAgrees(db.songs, db.tasks[j].snap);
    }
  }

  lemma DeleteKeepsRows(db: Db, id: Id)
    requires RowsAgree(db.users, db.songs, db.tasks, db.jobs) && LibrarySound(db.users, db.songs, db.lib) &&
             id in db.songs
    ensures RowsAgree(db.users, DeleteSong(db, id).songs, db.tasks, DeleteSong(db, id).jobs)
    ensures LibrarySound(db.users, DeleteSong(db, id).songs, DeleteSong(db, id).lib)
  {
    var d := DeleteSong(db, id);
    assert forall j :: KeepsRow(db.users, d.songs, db.tasks, j) ==> KeepsRow(db.users, db.songs, db.tasks, j);
  }

  // Deleting a song that is nobody's root and only a loose song's parent keeps the invariant.
  lemma DeleteKeepsInv(db: Db, loose: set<Id>, id: Id)
    requires InvBut(db, loose) && id in db.songs && RootOfNone(db.songs, id)
    requires forall x :: x in db.songs && db.songs[x].parent == Some(id) ==> x in loose
    ensures InvBut(DeleteSong(db, id), loose)
  {
    hide RootedBut, FilesAccounted, TasksSound, SnapshotsAgree, RowsAgree, LibrarySound, UsersNumbered, RootOfNone;
    DeleteKeepsRoots(db, loose, id);
    DeleteKeepsFiles(db, id);
    DeleteKeepsTasks(db, id);
    DeleteKeepsRows(db, id);
  }

  // A childless song is nobody's root.
  lemma ChildlessIsNoRoot(db: Db, id: Id)
    requires RootedBut(db.songs, {}) && NoChildren(db, id, None)
    ensures RootOfNone(db.songs, id)
  {
    forall x | x in db.songs ensures db.songs[x].root != Some(id) {
      if db.songs[x].root == Some(id) {
        var c := RootHasChild(db.songs, x);
        assert false;
      }
    }
  }

  // A song below a root is nobody's root.
  lemma VersionIsNoRoot(db: Db, loose: set<Id>, id: Id)
    requires RootedBut(db.songs, loose) && id in db.songs && db.songs[id].root.Some?
    ensures RootOfNone(db.songs, id)
  {
    forall x | x in db.songs ensures db.songs[x].root != Some(id) {
      assert Rooted(db.songs, x);
    }
  }

  lemma ChildlessDeleteKeepsInv(db: Db, id: Id)
    requires Inv(db) && NoChildren(db, id, None)
    ensures Inv(DeleteSong(db, id))
  {
    if id in db.songs {
      ChildlessIsNoRoot(db, id);
      DeleteKeepsInv(db, {}, id);
    }
  }

  // ------------------------------------------------ the walks

  lemma {:induction false} RestoreWalkKeepsInv(db: Db, cur: Option<Id>, stop: Id)
    requires Inv(db)
    ensures Descending(db) && Inv(Walk(db, cur, stop, None))
    decreases if cur.Some? then cur.value + 1 else 0
  {
    InvIsDescending(db, {});
    hide InvBut;
    if cur.Some? && cur.value != stop && cur.value in db.songs {
      var next := db.songs[cur.value].parent;
      if Collectable(db, cur.value, None) {
        ChildlessDeleteKeepsInv(db, cur.value);
        RestoreWalkKeepsInv(DeleteSong(db, cur.value), next, stop);
      } else {
        RestoreWalkKeepsInv(db, next, stop);
      }
    }
  }

  // Where a publish walk stands: at the root, at one of its versions, or at nothing.
  ghost predicate BelowRoot(songs: Songs, cur: Option<Id>, root: Id) {
    cur.Some? && cur.value in songs ==> cur.value == root || songs[cur.value].root == Some(root)
  }

  lemma ParentBelowRoot(songs: Songs, loose: set<Id>, x: Id, root: Id)
    requires RootedBut(songs, loose) && x in songs && songs[x].root == Some(root)
    ensures BelowRoot(songs, songs[x].parent, root)
  {
    assert Rooted(songs, x);
  }

  lemma BelowRootAfterDelete(db: Db, gone: Id, cur: Option<Id>, root: Id)
    requires BelowRoot(db.songs, cur, root) && RootOfNone(db.songs, gone)
    ensures BelowRoot(DeleteSong(db, gone).songs, cur, root)
  {
  }

  // One step of a publish walk that stays below the root.
  lemma PublishStepKeepsInv(db: Db, loose: set<Id>, cur: Id, root: Id, song: Id)
    requires InvBut(db, loose) && song in loose && cur in db.songs && db.songs[cur].root == Some(root)
    ensures BelowRoot(db.songs, db.songs[cur].parent, root)
    ensures NoChildren(db, cur, Some(song)) ==>
              && RootOfNone(db.songs, cur)
              && InvBut(DeleteSong(db, cur), loose)
              && BelowRoot(DeleteSong(db, cur).songs, db.songs[cur].parent, root)
  {
    ParentBelowRoot(db.songs, loose, cur, root);
    VersionIsNoRoot(db, loose, cur);
    BelowRootAfterDelete(db, cur, db.songs[cur].parent, root);
    if NoChildren(db, cur, Some(song)) {
      DeleteKeepsInv(db, loose, cur);
    }
  }

  // A publish walk stays below the root, so only the published song loses its parent.
  lemma {:induction false} PublishWalkKeepsInv(db: Db, loose: set<Id>, cur: Option<Id>, root: Id, song: Id)
    requires InvBut(db, loose) && song in loose && BelowRoot(db.songs, cur, root)
    ensures Descending(db) && InvBut(Walk(db, cur, root, Some(song)), loose)
    decreases if cur.Some? then cur.value + 1 else 0
  {
    InvIsDescending(db, loose);
    hide InvBut;
    if cur.Some? && cur.value != root && cur.value in db.songs {
      var next := db.songs[cur.value].parent;
      PublishStepKeepsInv(db, loose, cur.value, root, song);
      hide BelowRoot;
      if Collectable(db, cur.value, Some(song)) {
        PublishWalkKeepsInv(DeleteSong(db, cur.value), loose, next, root, song);
      } else {
        PublishWalkKeepsInv(db, loose, next, root, song);
      }
    }
  }

  lemma {:induction false} PublishWalksKeepInv(db: Db, loose: set<Id>, songs: seq<Id>)
    requires InvBut(db, loose) && forall s :: s in songs ==> s in loose
    ensures Descending(db) && InvBut(PublishWalks(db, songs), loose)
    decreases |songs|
  {
    InvIsDescending(db, loose);
    if songs != [] {
      var s := songs[0];
      if s in db.songs && db.songs[s].parent.Some? && db.songs[s].root.Some? {
        ParentBelowRoot(db.songs, loose, s, db.songs[s].root.value);
        PublishWalkKeepsInv(db, loose, db.songs[s].parent, db.songs[s].root.value, s);
      }
      hide InvBut;
      PublishWalksKeepInv(PublishWalk(db, s), loose, songs[1..]);
    }
  }
}
