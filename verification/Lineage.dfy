/** Songs, their edit lineage, and the operations that grow, restore, publish and collect it. */
module Lineage {
  import opened Basics

  // Songs and their files, and users, are numbered in the order their identifiers were drawn;
  // a number is never drawn twice.
  type Id = nat
  type JobId = nat
  type User = nat

  datatype Song = Song(parent: Option<Id>, root: Option<Id>, owner: Option<User>)

  // What an edit's task remembers of its source while the audio is rendered.
  datatype Snapshot = Snapshot(source: Id, parent: Option<Id>, root: Id, user: User)

  // The background task that does an edit. It outlives the job's row.
  datatype Task =
    | Waiting(song: Id, requester: User)
    | Snapped(snap: Snapshot)
    | Rendered(snap: Snapshot, dest: Id)
    | Saved(snap: Snapshot, dest: Id)
    | Broken(snap: Snapshot, dest: Id)
    | Stopped(song: Id, requester: User, drawn: Option<Id>)
  {
    function Source(): Id {
      if Waiting? || Stopped? then song else snap.source
    }

    function Requester(): User {
      if Waiting? || Stopped? then requester else snap.user
    }

    // The identifier drawn for the new version, if the task came that far.
    function Dest(): Option<Id> {
      match this
      case Waiting(_, _) => None
      case Snapped(_) => None
      case Stopped(_, _, drawn) => drawn
      case _ => Some(dest)
    }

    predicate InFlight() { Snapped? || Rendered? }

    predicate Unsaved() { Rendered? || Stopped? }
  }

  datatype Status = Pending | Processing | Done(result: Id) | Failed

  // A job's row, which goes with its source song and with its user.
  datatype JobRow = JobRow(song: Id, requester: User, status: Status)

  datatype Db = Db(
    songs: map<Id, Song>, users: set<User>, lib: set<(User, Id)>, files: set<Id>,
    jobs: map<JobId, JobRow>, tasks: map<JobId, Task>, next: Id, nextUser: User)

  // ------------------------------------------------ helpers of crud.py

  predicate NoLibraryRefs(db: Db, id: Id) {
    forall e :: e in db.lib ==> e.1 != id
  }

  predicate NoChildren(db: Db, id: Id, exclude: Option<Id>) {
    forall x :: x in db.songs && db.songs[x].parent == Some(id) ==> exclude == Some(x)
  }

  function Detached(s: Song, id: Id): Song {
    s.(parent := if s.parent == Some(id) then None else s.parent,
       root := if s.root == Some(id) then None else s.root)
  }

  // Deleting a row sets pointers at it to null and takes its library rows, the rows of the
  // jobs that edit it, and its file along.
  function DeleteSong(db: Db, id: Id): Db {
    if id !in db.songs then db
    else db.(songs := (map x | x in db.songs && x != id :: Detached(db.songs[x], id)),
             lib := (set e | e in db.lib && e.1 != id),
             jobs := (map j | j in db.jobs && db.jobs[j].song != id :: db.jobs[j]),
             files := db.files - {id})
  }

  // A user's library and job rows go along; songs only name their owner and stay.
  function DeleteUser(db: Db, user: User): Db {
    db.(users := db.users - {user},
        lib := (set e | e in db.lib && e.0 != user),
        jobs := (map j | j in db.jobs && db.jobs[j].requester != user :: db.jobs[j]))
  }

  // Without a row there is nothing to record the status in.
  function SetStatus(db: Db, job: JobId, status: Status): Db {
    if job in db.jobs then db.(jobs := db.jobs[job := db.jobs[job].(status := status)]) else db
  }

  // ------------------------------------------------ the chain walks

  // Every parent was there before its child, so walks up the chain end.
  ghost predicate Descending(db: Db) {
    forall x :: x in db.songs && db.songs[x].parent.Some? ==> db.songs[x].parent.value < x
  }

  predicate Collectable(db: Db, id: Id, exclude: Option<Id>) {
    NoLibraryRefs(db, id) && NoChildren(db, id, exclude)
  }

  // Walk up from cur to stop, deleting every song nothing refers to; the excluded child
  // does not count as a reference.
  ghost function Walk(db: Db, cur: Option<Id>, stop: Id, exclude: Option<Id>): Db
    requires Descending(db)
    decreases if cur.Some? then cur.value + 1 else 0
  {
    if cur.None? || cur.value == stop || cur.value !in db.songs then db
    else
      var next := db.songs[cur.value].parent;
      Walk(if Collectable(db, cur.value, exclude) then DeleteSong(db, cur.value) else db, next, stop, exclude)
  }

  // The songs a walk visits.
  ghost function Chain(db: Db, cur: Option<Id>, stop: Id): seq<Id>
    requires Descending(db)
    decreases if cur.Some? then cur.value + 1 else 0
  {
    if cur.None? || cur.value == stop || cur.value !in db.songs then []
    else [cur.value] + Chain(db, db.songs[cur.value].parent, stop)
  }

  // ------------------------------------------------ edit jobs

  function Request(db: Db, job: JobId, source: Id, user: User): Db {
    if source !in db.songs || user !in db.users || job in db.tasks then db
    else db.(jobs := db.jobs[job := JobRow(source, user, Pending)], tasks := db.tasks[job := Waiting(source, user)])
  }

  // The task gives up before its version is saved: a file it drew is removed.
  function Stop(db: Db, job: JobId): Db
    requires job in db.tasks
  {
    var t := db.tasks[job];
    SetStatus(db.(tasks := db.tasks[job := Stopped(t.Source(), t.Requester(), t.Dest())],
                  files := if t.Dest().Some? then db.files - {t.Dest().value} else db.files),
              job, Failed)
  }

  function Snap(db: Db, job: JobId): Db {
    if job !in db.tasks || !db.tasks[job].Waiting? then db
    else
      var source, user := db.tasks[job].song, db.tasks[job].requester;
      var d := SetStatus(db, job, Processing);
      if source !in db.songs then Stop(d, job)
      else
        var s := db.songs[source];
        d.(tasks := d.tasks[job := Snapped(Snapshot(source, s.parent, s.root.GetOr(source), user))])
  }

  // The new version's identifier is drawn and its file written.
  function Render(db: Db, job: JobId): Db {
    if job !in db.tasks || !db.tasks[job].Snapped? then db
    else db.(tasks := db.tasks[job := Rendered(db.tasks[job].snap, db.next)],
             files := db.files + {db.next},
             next := db.next + 1)
  }

  // Rendering, tagging or the insertion raised: whatever was written is removed.
  function RenderFails(db: Db, job: JobId): Db {
    if job in db.tasks && db.tasks[job].InFlight() then Stop(db, job) else db
  }

  function InsertVersion(db: Db, snap: Snapshot, dest: Id): Db {
    db.(songs := db.songs[dest := Song(Some(snap.source), Some(snap.root), Some(snap.user))])
  }

  // The source becomes the hidden last save.
  function HideSource(db: Db, snap: Snapshot): Db {
    db.(lib := db.lib - {(snap.user, snap.source)})
  }

  // The version before the last save is due to go, unless it is the root or something refers to it.
  predicate CollectsParent(db: Db, snap: Snapshot) {
    snap.parent.Some? && snap.parent.value != snap.root && Collectable(db, snap.parent.value, Some(snap.source))
  }

  function CollectParent(db: Db, snap: Snapshot): Db {
    if CollectsParent(db, snap) then DeleteSong(db, snap.parent.value) else db
  }

  // The last save is then hung under the root.
  function CollapseGrandparent(db: Db, snap: Snapshot): Db {
    var d := CollectParent(db, snap);
    if CollectsParent(db, snap) && snap.source in d.songs
    then d.(songs := d.songs[snap.source := d.songs[snap.source].(parent := Some(snap.root))])
    else d
  }

  // The task comes to its end after the version's row has been committed.
  function EndTask(db: Db, job: JobId, t: Task): Db
    requires t.Saved? || t.Broken?
  {
    SetStatus(db.(tasks := db.tasks[job := t], files := if t.Broken? then db.files - {t.dest} else db.files),
              job, if t.Broken? then Failed else Done(t.dest))
  }

  // How far the second half has come: each point follows a commit.
  datatype Point = Inserted | Hidden | Collected | Collapsed | Listed

  function SavedUpTo(db: Db, snap: Snapshot, dest: Id, point: Point): Db {
    var inserted := InsertVersion(db, snap, dest);
    var hidden := HideSource(inserted, snap);
    match point
    case Inserted => inserted
    case Hidden => hidden
    case Collected => CollectParent(hidden, snap)
    case Collapsed => CollapseGrandparent(hidden, snap)
    case Listed => var d := CollapseGrandparent(hidden, snap); d.(lib := d.lib + {(snap.user, dest)})
  }

  // The rows the second half needs are still there.
  predicate SourceThere(db: Db, job: JobId) {
    && job in db.tasks && db.tasks[job].Rendered?
    && db.tasks[job].snap.source in db.songs && db.tasks[job].snap.root in db.songs
  }

  // Something raises after the given commit: the file goes and the row stays.
  function FinaliseRaises(db: Db, job: JobId, point: Point): Db {
    if !SourceThere(db, job) || (point.Listed? && db.tasks[job].snap.user !in db.users) then db
    else
      var snap, dest := db.tasks[job].snap, db.tasks[job].dest;
      EndTask(SavedUpTo(db, snap, dest, point), job, Broken(snap, dest))
  }

  // Saving the new version. A missing source or root violates a foreign key before anything is
  // committed, a missing user only when the version is listed, after all else.
  function Finalise(db: Db, job: JobId): Db {
    if job !in db.tasks || !db.tasks[job].Rendered? then db
    else
      var snap, dest := db.tasks[job].snap, db.tasks[job].dest;
      if !SourceThere(db, job) then Stop(db, job)
      else if snap.user !in db.users then FinaliseRaises(db, job, Collapsed)
      else EndTask(SavedUpTo(db, snap, dest, Listed), job, Saved(snap, dest))
  }

  // Either of the two, as something raises or not.
  function FinaliseFaulty(db: Db, job: JobId, fault: Option<Point>): Db {
    if fault.None? || !SourceThere(db, job) || (fault.value.Listed? && db.tasks[job].snap.user !in db.users)
    then Finalise(db, job)
    else FinaliseRaises(db, job, fault.value)
  }

  lemma SavingKeepsTasks(db: Db, snap: Snapshot, dest: Id, point: Point)
    ensures SavedUpTo(db, snap, dest, point).tasks == db.tasks
    ensures forall x :: x in SavedUpTo(db, snap, dest, point).songs ==> x in db.songs || x == dest
  {
  }

  // ------------------------------------------------ library operations

  function AddToLibrary(db: Db, user: User, id: Id): Db {
    if id in db.songs && user in db.users then db.(lib := db.lib + {(user, id)}) else db
  }

  function RemoveFromLibrary(db: Db, user: User, id: Id): Db {
    db.(lib := db.lib - {(user, id)})
  }

  function RestoreSwap(db: Db, user: User, song: Id, target: Id): Db {
    db.(lib := db.lib - {(user, song)} + {(user, target)})
  }

  ghost function Restore(db: Db, user: User, song: Id, target: Id): Db
    requires Descending(db)
  {
    if song !in db.songs || db.songs[song].owner != Some(user) || target !in db.songs then db
    else Walk(RestoreSwap(db, user, song, target), Some(song), target, None)
  }

  ghost function PublishWalk(db: Db, song: Id): (d: Db)
    requires Descending(db)
    ensures Descending(d)
  {
    if song in db.songs && db.songs[song].parent.Some? && db.songs[song].root.Some? then
      WalkKeepsDescending(db, db.songs[song].parent, db.songs[song].root.value, Some(song));
      Walk(db, db.songs[song].parent, db.songs[song].root.value, Some(song))
    else db
  }

  // The publish loop over the user's songs, then one update of all of them.
  ghost function PublishWalks(db: Db, songs: seq<Id>): (d: Db)
    requires Descending(db)
    ensures Descending(d)
    decreases |songs|
  {
    if songs == [] then db else PublishWalks(PublishWalk(db, songs[0]), songs[1..])
  }

  function PublishUpdate(db: Db, ids: set<Id>): Db {
    db.(songs := map x | x in db.songs :: if x in ids then Song(None, None, None) else db.songs[x])
  }

  ghost function Publish(db: Db, songs: seq<Id>): Db
    requires Descending(db)
  {
    PublishUpdate(PublishWalks(db, songs), Elements(songs))
  }

  function Elements(s: seq<Id>): set<Id> {
    set x | x in s
  }

  // The guarded delete of downloads.py: refused while the song has edited versions.
  function AdminDelete(db: Db, id: Id): Db {
    if NoChildren(db, id, None) then DeleteSong(db, id) else db
  }

  // A downloaded or imported song: a root of its own.
  function AddSong(db: Db, owner: Option<User>): Db {
    db.(songs := db.songs[db.next := Song(None, None, owner)], files := db.files + {db.next}, next := db.next + 1)
  }

  function AddUser(db: Db): Db {
    db.(users := db.users + {db.nextUser}, nextUser := db.nextUser + 1)
  }

  // ------------------------------------------------ deletion keeps the order

  lemma DeleteKeepsDescending(db: Db, id: Id)
    requires Descending(db)
    ensures Descending(DeleteSong(db, id))
  {
  }

  lemma {:induction false} WalkKeepsDescending(db: Db, cur: Option<Id>, stop: Id, exclude: Option<Id>)
    requires Descending(db)
    ensures Descending(Walk(db, cur, stop, exclude))
    decreases if cur.Some? then cur.value + 1 else 0
  {
    if cur.Some? && cur.value != stop && cur.value in db.songs {
      var next := db.songs[cur.value].parent;
      DeleteKeepsDescending(db, cur.value);
      WalkKeepsDescending(if Collectable(db, cur.value, exclude) then DeleteSong(db, cur.value) else db, next, stop,
          exclude);
    }
  }
}
