/** The import job's steps as the code takes them, on rows and files updated in place. */
module ImportDesk {
  import opened Basics
  import I = ImportJobs

  class Desk {
    var jobs: map<I.Id, I.Job>
    var rows: set<I.Id>
    var songs: map<I.Id, I.Song>
    var lib: set<(I.User, I.Id)>
    var files: set<I.Id>
    var removed: set<I.User>

    constructor ()
      ensures State() == I.START
    {
      jobs, rows, songs, lib, files, removed := map[], {}, map[], {}, {}, {};
    }

    ghost function State(): I.State
      reads this
    {
      I.State(jobs, rows, songs, lib, files, removed)
    }

    method SetPhase(id: I.Id, phase: I.Phase)
      requires id in jobs
      modifies this`jobs
      ensures jobs == old(jobs)[id := old(jobs)[id].(phase := phase)]
    {
      jobs := jobs[id := jobs[id].(phase := phase)];
    }

    // Enter the guarded part if one of the slots is free, else wait.
    method Acquire(id: I.Id) returns (entered: bool)
      requires id in jobs && jobs[id].phase.Waiting?
      modifies this`jobs
      ensures entered <==> I.Enabled(old(State()), I.Acquire(id))
      ensures entered <==> |I.InsideJobs(old(State()))| < 5
      ensures State() == if entered then I.Step(old(State()), I.Acquire(id)) else old(State())
    {
      var inside := set j | j in jobs && I.Inside(jobs[j].phase);
      assert inside == I.InsideJobs(State());
      entered := |inside| < I.SLOTS;
      if entered {
        SetPhase(id, I.Started);
      }
    }

    method ReadTags(id: I.Id, found: I.Tags)
      requires I.Enabled(State(), I.Tag(id, found))
      modifies this`jobs
      ensures State() == I.Step(old(State()), I.Tag(id, found))
    {
      var tags := found;
      if I.IsBlank(tags.track) {
        var stem := jobs[id].stem;
        if stem == "" {
          SetPhase(id, I.NoTitle);
          return;
        }
        tags := tags.(track := stem);
      }
      SetPhase(id, I.Tagged(tags));
    }

    // Whichever matching song the query returns first is the one reported.
    method CheckDuplicate(id: I.Id) returns (pick: I.Id)
      requires id in jobs && jobs[id].phase.Tagged?
      modifies this`jobs, this`files
      ensures I.Enabled(old(State()), I.Check(id, pick))
      ensures State() == I.Step(old(State()), I.Check(id, pick))
    {
      var tags := jobs[id].phase.tags;
      pick := id;
      ghost var was := State();
      if x :| x in songs && songs[x].track == tags.track && songs[x].artist == tags.artist {
        pick := x;
        assert I.SameTrack(was, x, tags);
        if tags.track != "" && tags.artist != "" {
          files := files - {id};
          SetPhase(id, I.Duplicate(x));
          return;
        }
      } else {
        assert forall x :: !I.SameTrack(was, x, tags);
      }
      SetPhase(id, I.Unique(tags));
    }

    method InsertRow(id: I.Id)
      requires I.Enabled(State(), I.Insert(id))
      modifies this`jobs, this`songs
      ensures State() == I.Step(old(State()), I.Insert(id))
    {
      var job := jobs[id];
      var t := job.phase.tags;
      var eligible := t.track != "" && t.artist != "" && t.collection != "" && t.genre != "" &&
          (t.artworkUrl || t.artworkBytes);
      var owner: Option<I.User>, source;
      if job.asOriginal && eligible {
        owner, source := None, I.NoSource;
      } else if job.asOriginal && !eligible {
        owner, source := Some(job.user), I.NoSource;
      } else if eligible {
        owner, source := None, I.Community;
      } else {
        owner, source := Some(job.user), I.NoSource;
      }
      songs := songs[id := I.Song(t.track, t.artist, owner, source)];
      SetPhase(id, I.Inserted);
    }

    method AddToLibrary(id: I.Id)
      requires I.Enabled(State(), I.List(id))
      modifies this`jobs, this`lib
      ensures State() == I.Step(old(State()), I.List(id))
    {
      lib := lib + {(jobs[id].user, id)};
      SetPhase(id, I.Listed);
    }

    method Finish(id: I.Id)
      requires I.Enabled(State(), I.Finish(id))
      modifies this`jobs
      ensures State() == I.Step(old(State()), I.Finish(id))
    {
      SetPhase(id, I.Done);
    }

    // The handler for whatever the guarded part raises.
    method Fail(id: I.Id)
      requires I.Enabled(State(), I.Fault(id))
      modifies this`jobs, this`files
      ensures State() == I.Step(old(State()), I.Fault(id))
    {
      var committed := jobs[id].phase.Inserted? || jobs[id].phase.Listed?;
      if id in files {
        files := files - {id};
      }
      SetPhase(id, I.Raised(committed));
    }

    // An imported song deleted by somebody: row, library entries and file.
    method DeleteSong(id: I.Id)
      requires id in songs
      modifies this`songs, this`lib, this`files
      ensures State() == I.Step(old(State()), I.Delete(id))
    {
      songs := songs - {id};
      lib := set e | e in lib && e.1 != id;
      files := files - {id};
    }

    // A user goes, and with the user the library entries and the rows of the jobs.
    method RemoveUser(user: I.User)
      modifies this`rows, this`lib, this`removed
      ensures State() == I.Step(old(State()), I.RemoveUser(user))
    {
      rows := set j | j in rows && j in jobs && jobs[j].user != user;
      lib := set e | e in lib && e.0 != user;
      removed := removed + {user};
    }

    // The next step of a job inside, or the handler's if it raises.
    method OneStep(id: I.Id, found: I.Tags, raises: bool) returns (ghost e: I.Event)
      requires id in jobs && I.Inside(jobs[id].phase) && (jobs[id].phase.Inserted? ==> id in songs)
      modifies this`jobs, this`songs, this`lib, this`files
      ensures I.Enabled(old(State()), e) && State() == I.Step(old(State()), e)
      ensures I.OfOneInside(e) && e.id == id && (e.Tag? ==> e.found == found)
      ensures e.Fault? ==> raises || old(jobs)[id].user in removed
    {
      hide I.Step, I.Enabled;
      ghost var before := State();
      if raises || (jobs[id].phase.Inserted? && jobs[id].user in removed) {
        e := I.Fault(id);
        MayStep(before, e);
        Fail(id);
      } else if jobs[id].phase.Started? {
        e := I.Tag(id, found);
        MayStep(before, e);
        ReadTags(id, found);
      } else if jobs[id].phase.Tagged? {
        var pick := CheckDuplicate(id);
        e := I.Check(id, pick);
      } else if jobs[id].phase.Unique? {
        e := I.Insert(id);
        MayStep(before, e);
        InsertRow(id);
      } else if jobs[id].phase.Inserted? {
        e := I.List(id);
        MayStep(before, e);
        AddToLibrary(id);
      } else {
        e := I.Finish(id);
        MayStep(before, e);
        Finish(id);
      }
    }

    // One job from waiting to its end, with nothing in between; something may raise before any of
    // its steps, and listing the song for a user who is gone always does. It is a run of the state
    // machine, so all that holds of runs holds of it.
    method RunImport(id: I.Id, found: I.Tags, fault: Option<nat>) returns (ghost events: seq<I.Event>)
      requires id in jobs && jobs[id].phase.Waiting? && id !in songs
      modifies this
      ensures I.Run(old(State()), events, State())
      ensures forall e :: e in events ==> I.OfOneInside(e) && e.id == id && (e.Tag? ==> e.found == found)
      ensures id in jobs && removed == old(removed)
      ensures jobs[id].phase.Raised? ==> fault.Some? || jobs[id].user in removed
      ensures if |I.InsideJobs(old(State()))| < I.SLOTS then I.Terminal(jobs[id].phase) else State() == old(State())
    {
      hide I.Run, I.Step, I.Enabled, I.InsideJobs;
      ghost var was := State();
      I.RunNothing(was);
      events := [];
      var entered := Acquire(id);
      Enters(was, id);
      if !entered {
        return;
      }
      events := Extend(was, events, was, I.Acquire(id), State());
      var step := 0;
      while I.Inside(jobs[id].phase)
        invariant I.Run(was, events, State()) && id in jobs && !jobs[id].phase.Waiting?
        invariant forall e :: e in events ==> I.OfOneInside(e) && e.id == id && (e.Tag? ==> e.found == found)
        invariant removed == old(removed)
        invariant jobs[id].phase.Raised? ==> fault.Some? || jobs[id].user in removed
        invariant id in songs <==> jobs[id].phase.Inserted? || jobs[id].phase.Listed? || jobs[id].phase.Done? ||
                                   (jobs[id].phase.Raised? && jobs[id].phase.afterInsert)
        decreases ToGo(jobs[id].phase)
      {
        ghost var before := State();
        ghost var e := OneStep(id, found, fault == Some(step));
        Goes(before, e);
        events := Extend(was, events, before, e, State());
        step := step + 1;
      }
    }
  }

  // How many steps a job inside has left at most.
  function ToGo(p: I.Phase): nat {
    match p
    case Started => 5
    case Tagged(_) => 4
    case Unique(_) => 3
    case Inserted => 2
    case Listed => 1
    case _ => 0
  }

  lemma Enters(s: I.State, id: I.Id)
    requires id in s.jobs && s.jobs[id].phase.Waiting?
    ensures I.Enabled(s, I.Acquire(id)) <==> |I.InsideJobs(s)| < I.SLOTS
    ensures I.Enabled(s, I.Acquire(id)) ==>
              var t := I.Step(s, I.Acquire(id)); id in t.jobs && t.jobs[id].phase.Started? && t.songs == s.songs
  {
  }

  lemma MayStep(s: I.State, e: I.Event)
    requires I.OfOneInside(e) && e.id in s.jobs && I.Inside(s.jobs[e.id].phase)
    ensures e.Fault? ==> I.Enabled(s, e)
    ensures e.Tag? && s.jobs[e.id].phase.Started? ==> I.Enabled(s, e)
    ensures e.Insert? && s.jobs[e.id].phase.Unique? ==> I.Enabled(s, e)
    ensures e.List? && s.jobs[e.id].phase.Inserted? && e.id in s.songs && s.jobs[e.id].user !in s.removed ==>
              I.Enabled(s, e)
    ensures e.Finish? && s.jobs[e.id].phase.Listed? ==> I.Enabled(s, e)
  {
  }

  // Every step inside brings the job nearer its end, and only an insertion brings its song.
  lemma Goes(s: I.State, e: I.Event)
    requires I.Enabled(s, e) && I.OfOneInside(e) && e.id in s.jobs && I.Inside(s.jobs[e.id].phase)
    ensures var t := I.Step(s, e);
            && e.id in t.jobs && !t.jobs[e.id].phase.Waiting? && t.jobs[e.id].user == s.jobs[e.id].user
            && ToGo(t.jobs[e.id].phase) < ToGo(s.jobs[e.id].phase)
            && (e.id in t.songs <==> e.id in s.songs || e.Insert?)
            && (t.jobs[e.id].phase.Inserted? <==> e.Insert?) && (t.jobs[e.id].phase.Listed? <==> e.List?)
            && (t.jobs[e.id].phase.Done? <==> e.Finish?)
            && (t.jobs[e.id].phase.Raised? <==> e.Fault?)
            && (e.Fault? ==> (t.jobs[e.id].phase.afterInsert <==>
                   s.jobs[e.id].phase.Inserted? || s.jobs[e.id].phase.Listed?))
            && (e.List? ==> s.jobs[e.id].phase.Inserted?) && (e.Finish? ==> s.jobs[e.id].phase.Listed?)
            && (s.jobs[e.id].phase.Inserted? || s.jobs[e.id].phase.Listed? ==> e.List? || e.Finish? || e.Fault?)
  {
  }

  lemma Extend(s: I.State, events: seq<I.Event>, u: I.State, e: I.Event, t: I.State) returns (more: seq<I.Event>)
    requires I.Run(s, events, u) && I.Next(u, e, t)
    ensures more == events + [e] && I.Run(s, more, t)
  {
    more := events + [e];
    assert more[..|more| - 1] == events;
  }
}
