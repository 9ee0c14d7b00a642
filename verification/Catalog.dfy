/** The catalogue as the routers change it: rows, library entries and files, updated in place. */
module Catalog {
  import opened Basics
  import L = Lineage

  datatype Outcome = Accepted | NotFound | Conflict

  class Store {
    var songs: map<L.Id, L.Song>
    var users: set<L.User>
    var lib: set<(L.User, L.Id)>
    var files: set<L.Id>
    var jobs: map<L.JobId, L.JobRow>
    var tasks: map<L.JobId, L.Task>
    var next: L.Id
    var nextUser: L.User

    constructor ()
      ensures State() == L.Db(map[], {}, {}, {}, map[], map[], 0, 0)
    {
      songs, users, lib, files := map[], {}, {}, {};
      jobs, tasks, next, nextUser := map[], map[], 0, 0;
    }

    ghost function State(): L.Db
      reads this
    {
      L.Db(songs, users, lib, files, jobs, tasks, next, nextUser)
    }

    method LibraryRefCount(id: L.Id) returns (n: nat)
      ensures n == 0 <==> L.NoLibraryRefs(State(), id)
    {
      var refs := set e | e in lib && e.1 == id;
      n := |refs|;
      if e :| e in lib && e.1 == id {
        assert e in refs;
      } else {
        assert refs == {};
      }
    }

    method ChildRefCount(id: L.Id, exclude: Option<L.Id>) returns (n: nat)
      ensures n == 0 <==> L.NoChildren(State(), id, exclude)
    {
      var refs := set x | x in songs && songs[x].parent == Some(id) && exclude != Some(x);
      n := |refs|;
      if x :| x in songs && songs[x].parent == Some(id) && exclude != Some(x) {
        assert x in refs;
      } else {
        assert refs == {};
      }
    }

    method DeleteSong(id: L.Id)
      modifies this
      ensures State() == L.DeleteSong(old(State()), id)
    {
      if id !in songs {
        return;
      }
      songs := map x | x in songs && x != id :: L.Detached(songs[x], id);
      lib := set e | e in lib && e.1 != id;
      jobs := map j | j in jobs && jobs[j].song != id :: jobs[j];
      files := files - {id};
    }

    method DeleteUser(user: L.User) returns (deleted: bool)
      modifies this
      ensures State() == L.DeleteUser(old(State()), user)
      ensures deleted <==> user in old(users)
    {
      deleted := user in users;
      users := users - {user};
      lib := set e | e in lib && e.0 != user;
      jobs := map j | j in jobs && jobs[j].requester != user :: jobs[j];
    }

    // Without a row there is nothing to update.
    method UpdateEditJob(job: L.JobId, status: L.Status)
      modifies this`jobs
      ensures State() == L.SetStatus(old(State()), job, status)
    {
      if job !in jobs {
        return;
      }
      jobs := jobs[job := jobs[job].(status := status)];
    }

    // The walk shared by restore and publish: collect what nothing refers to any more.
    method CollectChain(start: Option<L.Id>, stop: L.Id, exclude: Option<L.Id>)
      requires L.Descending(State())
      modifies this
      ensures State() == L.Walk(old(State()), start, stop, exclude)
    {
      ghost var goal := L.Walk(State(), start, stop, exclude);
      var cur := start;
      while cur.Some? && cur.value != stop
        invariant L.Descending(State())
        invariant L.Walk(State(), cur, stop, exclude) == goal
        decreases if cur.Some? then cur.value + 1 else 0
      {
        if cur.value !in songs {
          break;
        }
        var nextId := songs[cur.value].parent;
        var libraryRefs := LibraryRefCount(cur.value);
        if libraryRefs == 0 {
          var childRefs := ChildRefCount(cur.value, exclude);
          if childRefs == 0 {
            L.DeleteKeepsDescending(State(), cur.value);
            DeleteSong(cur.value);
          }
        }
        cur := nextId;
      }
    }

    method RestoreSong(user: L.User, song: L.Id, target: L.Id) returns (r: Outcome)
      requires L.Descending(State())
      modifies this
      ensures State() == L.Restore(old(State()), user, song, target)
      ensures r == NotFound <==> song !in old(songs) || old(songs)[song].owner != Some(user) || target !in old(songs)
      ensures r != NotFound ==> r == Accepted
    {
      if song !in songs || songs[song].owner != Some(user) || target !in songs {
        return NotFound;
      }
      lib := lib - {(user, song)};
      lib := lib + {(user, target)};
      CollectChain(Some(song), target, None);
      return Accepted;
    }

    // The songs are the ones among those asked for that the user owns.
    method PublishSongs(owned: seq<L.Id>) returns (published: nat)
      requires L.Descending(State())
      modifies this
      ensures State() == L.Publish(old(State()), owned)
      ensures published == |owned|
    {
      ghost var goal := L.PublishWalks(State(), owned);
      for i := 0 to |owned|
        invariant L.Descending(State())
        invariant L.PublishWalks(State(), owned[i..]) == goal
      {
        var song := owned[i];
        assert owned[i..][1..] == owned[i + 1..];
        if song in songs && songs[song].parent.Some? && songs[song].root.Some? {
          CollectChain(songs[song].parent, songs[song].root.value, Some(song));
        }
      }
      songs := map x | x in songs :: if x in owned then L.Song(None, None, None) else songs[x];
      return |owned|;
    }

    method DeleteDownload(id: L.Id) returns (r: Outcome)
      modifies this
      ensures State() == L.AdminDelete(old(State()), id)
      ensures r == Conflict <==> !L.NoChildren(old(State()), id, None)
    {
      var children := ChildRefCount(id, None);
      if children > 0 {
        return Conflict;
      }
      DeleteSong(id);
      return Accepted;
    }

    method CreateEditJob(job: L.JobId, source: L.Id, user: L.User) returns (r: Outcome)
      requires job !in tasks && user in users
      modifies this`jobs, this`tasks
      ensures State() == L.Request(old(State()), job, source, user)
      ensures r == if source in songs then Accepted else NotFound
    {
      if source !in songs {
        return NotFound;
      }
      jobs := jobs[job := L.JobRow(source, user, L.Pending)];
      tasks := tasks[job := L.Waiting(source, user)];
      return Accepted;
    }

    // First half of an edit's task: read the source and remember what rendering needs.
    method SnapshotEdit(job: L.JobId)
      requires job in tasks && tasks[job].Waiting?
      modifies this`jobs, this`tasks, this`files
      ensures State() == L.Snap(old(State()), job)
    {
      var source, user := tasks[job].song, tasks[job].requester;
      UpdateEditJob(job, L.Processing);
      if source !in songs {
        tasks := tasks[job := L.Stopped(source, user, None)];
        UpdateEditJob(job, L.Failed);
        return;
      }
      var s := songs[source];
      tasks := tasks[job := L.Snapped(L.Snapshot(source, s.parent, s.root.GetOr(source), user))];
    }

    // Between the halves: draw the new identifier and write the rendered file.
    method RenderEdit(job: L.JobId)
      requires job in tasks && tasks[job].Snapped?
      modifies this`tasks, this`files, this`next
      ensures State() == L.Render(old(State()), job)
    {
      files := files + {next};
      tasks := tasks[job := L.Rendered(tasks[job].snap, next)];
      next := next + 1;
    }

    // The handler for whatever raises once the identifier is drawn: the file goes in any case.
    method EditFailed(job: L.JobId, end: L.Task)
      requires job in tasks && tasks[job].Rendered?
      modifies this`jobs, this`tasks, this`files
      ensures State() == L.SetStatus(
                old(State()).(tasks := old(tasks)[job := end], files := old(files) - {old(tasks)[job].dest}),
                job, L.Failed)
    {
      files := files - {tasks[job].dest};
      tasks := tasks[job := end];
      UpdateEditJob(job, L.Failed);
    }

    // The version before the last save is deleted when nothing refers to it any more.
    method CollectGrandparent(snap: L.Snapshot) returns (collected: bool)
      modifies this
      ensures State() == L.CollectParent(old(State()), snap)
      ensures collected <==> L.CollectsParent(old(State()), snap)
    {
      if snap.parent.None? || snap.parent.value == snap.root {
        return false;
      }
      var libraryRefs := LibraryRefCount(snap.parent.value);
      if libraryRefs != 0 {
        return false;
      }
      var childRefs := ChildRefCount(snap.parent.value, Some(snap.source));
      if childRefs != 0 {
        return false;
      }
      DeleteSong(snap.parent.value);
      return true;
    }

    // The commits of the second half, one after the other up to the given one.
    method SaveVersion(snap: L.Snapshot, dest: L.Id, last: L.Point)
      modifies this
      ensures State() == L.SavedUpTo(old(State()), snap, dest, last)
    {
      hide L.CollectParent, L.CollectsParent;
      songs := songs[dest := L.Song(Some(snap.source), Some(snap.root), Some(snap.user))];
      if last.Inserted? {
        return;
      }
      lib := lib - {(snap.user, snap.source)};
      if last.Hidden? {
        return;
      }
      var collected := CollectGrandparent(snap);
      if last.Collected? {
        return;
      }
      if collected && snap.source in songs {
        songs := songs[snap.source := songs[snap.source].(parent := Some(snap.root))];
      }
      if last.Listed? {
        lib := lib + {(snap.user, dest)};
      }
    }

    // Second half: save the version and close the job. Something may raise after any commit, and
    // listing the version for a user who is gone always does.
    method FinaliseEdit(job: L.JobId, fault: Option<L.Point>)
      requires job in tasks && tasks[job].Rendered?
      modifies this
      ensures State() == L.FinaliseFaulty(old(State()), job, fault)
    {
      hide L.SavedUpTo;
      var snap, dest := tasks[job].snap, tasks[job].dest;
      if snap.source !in songs || snap.root !in songs {
        EditFailed(job, L.Stopped(snap.source, snap.user, Some(dest)));
        return;
      }
      var raised := if snap.user !in users && (fault.None? || fault.value.Listed?) then Some(L.Collapsed) else fault;
      L.SavingKeepsTasks(State(), snap, dest, raised.GetOr(L.Listed));
      SaveVersion(snap, dest, raised.GetOr(L.Listed));
      if raised.Some? {
        EditFailed(job, L.Broken(snap, dest));
        return;
      }
      tasks := tasks[job := L.Saved(snap, dest)];
      UpdateEditJob(job, L.Done(dest));
    }
  }
}
