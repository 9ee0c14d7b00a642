/** Import jobs stepping side by side behind a semaphore of five. */
module ImportJobs {
  import opened Basics

  // A job's identifier also names its file and the song it may become; none is drawn twice.
  type Id = nat
  type User = nat

  const SLOTS := 5

  // What the tag reader found; unreadable tags are no tags.
  datatype Tags = Tags(track: string, artist: string, collection: string, genre: string, artworkUrl: bool,
      artworkBytes: bool)

  datatype Source = Community | NoSource

  datatype Song = Song(track: string, artist: string, owner: Option<User>, source: Source)

  datatype Phase =
    | Waiting
    | Started
    | Tagged(tags: Tags)
    | Unique(tags: Tags)
    | Inserted
    | Listed
    | Done
    | Duplicate(of: Id)
    | NoTitle
    | Raised(afterInsert: bool)

  predicate Inside(p: Phase) {
    p.Started? || p.Tagged? || p.Unique? || p.Inserted? || p.Listed?
  }

  predicate Terminal(p: Phase) {
    p.Done? || p.Duplicate? || p.NoTitle? || p.Raised?
  }

  datatype Job = Job(user: User, stem: string, asOriginal: bool, phase: Phase)

  // The rows are those of the jobs that can still be looked up: a job's row goes with its user,
  // the job itself goes on.
  datatype State = State(
    jobs: map<Id, Job>, rows: set<Id>, songs: map<Id, Song>, lib: set<(User, Id)>, files: set<Id>, removed: set<User>)

  // ------------------------------------------------ one job's steps

  predicate IsBlank(s: string) {
    forall i :: 0 <= i < |s| ==> s[i] in {' ', '\t', '\n', '\r'}
  }

  function WithPhase(s: State, j: Id, p: Phase): State
    requires j in s.jobs
  {
    s.(jobs := s.jobs[j := s.jobs[j].(phase := p)])
  }

  // Fall back to the uploaded file's stem when the title is blank; without either, give up.
  function ReadTags(s: State, j: Id, found: Tags): State
    requires j in s.jobs
  {
    if !IsBlank(found.track) then WithPhase(s, j, Tagged(found))
    else if s.jobs[j].stem == "" then WithPhase(s, j, NoTitle)
    else WithPhase(s, j, Tagged(found.(track := s.jobs[j].stem)))
  }

  ghost predicate SameTrack(s: State, id: Id, tags: Tags) {
    id in s.songs && s.songs[id].track == tags.track && s.songs[id].artist == tags.artist
  }

  // Look for the same track by the same artist; `pick` is the one the query returns first.
  ghost function CheckDuplicate(s: State, j: Id, pick: Id): State
    requires j in s.jobs && s.jobs[j].phase.Tagged?
  {
    var tags := s.jobs[j].phase.tags;
    if tags.track != "" && tags.artist != "" && SameTrack(s, pick, tags)
    then WithPhase(s, j, Duplicate(pick)).(files := s.files - {j})
    else WithPhase(s, j, Unique(tags))
  }

  predicate Eligible(t: Tags) {
    t.track != "" && t.artist != "" && t.collection != "" && t.genre != "" && (t.artworkUrl || t.artworkBytes)
  }

  function InsertRow(s: State, j: Id): State
    requires j in s.jobs && s.jobs[j].phase.Unique?
  {
    var job, t := s.jobs[j], s.jobs[j].phase.tags;
    var owner := if Eligible(t) then None else Some(job.user);
    var source := if Eligible(t) && !job.asOriginal then Community else NoSource;
    WithPhase(s, j, Inserted).(songs := s.songs[j := Song(t.track, t.artist, owner, source)])
  }

  function ListSong(s: State, j: Id): State
    requires j in s.jobs
  {
    WithPhase(s, j, Listed).(lib := s.lib + {(s.jobs[j].user, j)})
  }

  // An exception anywhere in the guarded part: the file goes, whatever has been committed stays.
  function Raise(s: State, j: Id): State
    requires j in s.jobs
  {
    WithPhase(s, j, Raised(s.jobs[j].phase.Inserted? || s.jobs[j].phase.Listed?)).(files := s.files - {j})
  }

  // Somebody deletes an imported song: its row, library entries and file go, its job's row stays.
  function DeleteSong(s: State, id: Id): State {
    s.(songs := s.songs - {id}, lib := (set e | e in s.lib && e.1 != id), files := s.files - {id})
  }

  function RemoveUserRows(s: State, user: User): State {
    s.(rows := (set j | j in s.rows && j in s.jobs && s.jobs[j].user != user),
       lib := (set e | e in s.lib && e.0 != user), removed := s.removed + {user})
  }

  // ------------------------------------------------ interleavings

  datatype Event =
    | Upload(id: Id, user: User, stem: string, asOriginal: bool)
    | Acquire(id: Id)
    | Tag(id: Id, found: Tags)
    | Check(id: Id, pick: Id)
    | Insert(id: Id)
    | List(id: Id)
    | Finish(id: Id)
    | Fault(id: Id)
    | Delete(id: Id)
    | Unlist(id: Id, user: User)
    | RemoveUser(user: User)

  function InsideJobs(s: State): set<Id> {
    set j | j in s.jobs && Inside(s.jobs[j].phase)
  }

  ghost predicate Enabled(s: State, e: Event) {
    match e
    case Upload(id, user, _, _) => id !in s.jobs && id !in s.songs && id !in s.files && user !in s.removed
    case Acquire(id) => id in s.jobs && s.jobs[id].phase.Waiting? && |InsideJobs(s)| < SLOTS
    case Tag(id, _) => id in s.jobs && s.jobs[id].phase.Started?
    case Check(id, pick) =>
      id in s.jobs && s.jobs[id].phase.Tagged? &&
      ((exists x :: SameTrack(s, x, s.jobs[id].phase.tags)) ==> SameTrack(s, pick, s.jobs[id].phase.tags))
    case Insert(id) => id in s.jobs && s.jobs[id].phase.Unique?
    case List(id) =>
      id in s.jobs && s.jobs[id].phase.Inserted? && id in s.songs && s.jobs[id].user !in s.removed
    case Finish(id) => id in s.jobs && s.jobs[id].phase.Listed?
    case Fault(id) => id in s.jobs && Inside(s.jobs[id].phase)
    case Delete(id) => id in s.songs
    case Unlist(_, _) => true
    case RemoveUser(_) => true
  }

  ghost function Step(s: State, e: Event): State
    requires Enabled(s, e)
  {
    match e
    case Upload(id, user, stem, asOriginal) =>
      s.(jobs := s.jobs[id := Job(user, stem, asOriginal, Waiting)], rows := s.rows + {id}, files := s.files + {id})
    case Acquire(id) => WithPhase(s, id, Started)
    case Tag(id, found) => ReadTags(s, id, found)
    case Check(id, pick) => CheckDuplicate(s, id, pick)
    case Insert(id) => InsertRow(s, id)
    case List(id) => ListSong(s, id)
    case Finish(id) => WithPhase(s, id, Done)
    case Fault(id) => Raise(s, id)
    case Delete(id) => DeleteSong(s, id)
    case Unlist(id, user) => s.(lib := s.lib - {(user, id)})
    case RemoveUser(user) => RemoveUserRows(s, user)
  }

  // ------------------------------------------------ what every interleaving keeps

  predicate KeepsFile(p: Phase) { !p.Duplicate? && !p.Raised? }

  predicate HasRow(p: Phase) { p.Inserted? || p.Listed? || p.Done? || (p.Raised? && p.afterInsert) }

  // What a job's phase says of its file, its row and its library entry after the given events.
  ghost predicate JobSound(events: seq<Event>, s: State, j: Id)
    requires j in s.jobs
  {
    var job := s.jobs[j];
    && (j in s.files <==> KeepsFile(job.phase) && Delete(j) !in events)
    && (j in s.songs <==> HasRow(job.phase) && Delete(j) !in events)
    && (job.phase.Listed? || job.phase.Done? ==>
          (job.user, j) in s.lib || Delete(j) in events || Unlist(j, job.user) in events || job.user in s.removed)
    && (j in s.rows <==> job.user !in s.removed)
    && (job.phase.Duplicate? ==> job.phase.of != j && (job.phase.of in s.songs || Delete(job.phase.of) in events))
    && (HasRow(job.phase) <==> Insert(j) in events)
    && (Delete(j) in events ==> Insert(j) in events)
  }

  ghost predicate Inv(events: seq<Event>, s: State) {
    && (forall j :: j in s.jobs ==> JobSound(events, s, j))
    && (forall x :: x in s.songs || x in s.files ==> x in s.jobs)
    && (forall e :: e in events ==> (e.Insert? || e.Delete? ==> e.id in s.jobs))
    && (forall u :: u in s.removed <==> RemoveUser(u) in events)
  }

  lemma InsideAfter(s: State, j: Id, t: State)
    requires j in s.jobs && t.jobs.Keys == s.jobs.Keys && forall x :: x in s.jobs && x != j ==>
               t.jobs[x].phase == s.jobs[x].phase
    ensures InsideJobs(t) == if Inside(t.jobs[j].phase) then InsideJobs(s) + {j} else InsideJobs(s) - {j}
  {
  }

  // A step of a job, or at a song, touches that job, its file and its rows only.
  lemma StepIsLocal(s: State, e: Event)
    requires Enabled(s, e) && !e.RemoveUser?
    ensures var t := Step(s, e);
            && (forall x :: x in s.jobs && x != e.id ==> x in t.jobs && t.jobs[x] == s.jobs[x])
            && (forall f :: f != e.id ==> (f in t.files <==> f in s.files))
            && (forall x :: x != e.id ==>
                   (x in t.songs <==> x in s.songs) && (x in s.songs ==> t.songs[x] == s.songs[x]))
            && (forall u, x :: x != e.id ==> ((u, x) in t.lib <==> (u, x) in s.lib))
            && (forall x :: x != e.id ==> (x in t.rows <==> x in s.rows))
            && t.removed == s.removed
            && t.jobs.Keys == (if e.Delete? || e.Unlist? then s.jobs.Keys else s.jobs.Keys + {e.id})
  {
  }

  // The event is one of a job that enters or is inside.
  predicate OfOneInside(e: Event) {
    !e.Upload? && !e.Delete? && !e.Unlist? && !e.RemoveUser?
  }

  // An uploaded file waits outside, a job enters when there is room, and only jobs inside go on.
  lemma PhaseMoves(s: State, e: Event)
    requires Enabled(s, e) && OfOneInside(e)
    ensures e.id in s.jobs && Step(s, e).jobs.Keys == s.jobs.Keys
    ensures e.Acquire? ==> |InsideJobs(s)| < SLOTS
    ensures !e.Acquire? ==> e.id in InsideJobs(s)
  {
  }

  lemma SameInside(s: State, e: Event)
    requires Enabled(s, e) && !OfOneInside(e)
    ensures InsideJobs(Step(s, e)) == InsideJobs(s)
  {
  }

  lemma OneMoreOrLess(inside: set<Id>, j: Id)
    ensures |inside + {j}| <= |inside| + 1
    ensures |inside - {j}| <= |inside|
    ensures j in inside ==> inside + {j} == inside
  {
    if j in inside {
      assert inside + {j} == inside;
      assert inside == (inside - {j}) + {j};
    } else {
      assert inside - {j} == inside;
    }
  }

  // Only entering takes a slot, and only when one is free.
  lemma StepKeepsSlots(s: State, e: Event)
    requires Enabled(s, e) && |InsideJobs(s)| <= SLOTS
    ensures |InsideJobs(Step(s, e))| <= SLOTS
  {
    if !OfOneInside(e) {
      SameInside(s, e);
    } else {
      PhaseMoves(s, e);
      StepIsLocal(s, e);
      hide Step, Enabled;
      InsideAfter(s, e.id, Step(s, e));
      hide InsideJobs;
      OneMoreOrLess(InsideJobs(s), e.id);
    }
  }

  // A job that the event is not about.
  lemma OtherJobSound(events: seq<Event>, s: State, e: Event, j: Id)
    requires Enabled(s, e) && Inv(events, s) && j in s.jobs && !e.RemoveUser? && j != e.id
    ensures JobSound(events + [e], Step(s, e), j)
  {
    var t, more := Step(s, e), events + [e];
    StepIsLocal(s, e);
    hide Step, Enabled;
    assert JobSound(events, s, j);
    assert Insert(j) in more <==> Insert(j) in events;
    assert Delete(j) in more <==> Delete(j) in events;
    assert forall u :: Unlist(j, u) in events ==> Unlist(j, u) in more;
    if s.jobs[j].phase.Duplicate? {
      var of := s.jobs[j].phase.of;
      assert Delete(of) in more <==> Delete(of) in events || e == Delete(of);
      if of in s.songs {
        DuplicateOfStays(s, e, of);
      }
    }
  }

  // A song goes only by being deleted.
  lemma DuplicateOfStays(s: State, e: Event, of: Id)
    requires Enabled(s, e) && of in s.songs
    ensures of in Step(s, e).songs || e == Delete(of)
  {
  }

  // The job that the event is about, when its song comes or goes.
  lemma OwnSongSound(events: seq<Event>, s: State, e: Event)
    requires Enabled(s, e) && Inv(events, s) && (e.Insert? || e.Delete?) && e.id in s.jobs
    ensures JobSound(events + [e], Step(s, e), e.id)
  {
    var j, more := e.id, events + [e];
    assert Insert(j) in more <==> Insert(j) in events || e == Insert(j);
    assert Delete(j) in more <==> Delete(j) in events || e == Delete(j);
    assert JobSound(events, s, j);
  }

  lemma UnlistedJobSound(events: seq<Event>, s: State, e: Event)
    requires Enabled(s, e) && Inv(events, s) && e.Unlist? && e.id in s.jobs
    ensures JobSound(events + [e], Step(s, e), e.id)
  {
    var j, more := e.id, events + [e];
    assert Insert(j) in more <==> Insert(j) in events;
    assert forall x :: Delete(x) in more <==> Delete(x) in events;
    assert forall u :: Unlist(j, u) in events || e == Unlist(j, u) ==> Unlist(j, u) in more;
    assert JobSound(events, s, j);
  }

  lemma NewJobSound(events: seq<Event>, s: State, e: Event)
    requires Enabled(s, e) && Inv(events, s) && e.Upload?
    ensures JobSound(events + [e], Step(s, e), e.id)
  {
    var j, more := e.id, events + [e];
    assert Insert(j).id == j && Delete(j).id == j;
    assert Insert(j) !in more && Delete(j) !in more;
  }

  // And when it does not.
  lemma OwnJobSound(events: seq<Event>, s: State, e: Event)
    requires Enabled(s, e) && Inv(events, s) && OfOneInside(e) && !e.Insert?
    ensures JobSound(events + [e], Step(s, e), e.id)
  {
    var j, more := e.id, events + [e];
    assert Insert(j) in more <==> Insert(j) in events;
    assert Delete(j) in more <==> Delete(j) in events;
    assert forall u :: Unlist(j, u) in events ==> Unlist(j, u) in more;
    assert JobSound(events, s, j);
    if e.Check? {
      assert e.pick in s.songs ==> e.pick in s.jobs;
    }
    hide InsideJobs, IsBlank;
  }

  lemma RemoveUserKeepsInv(events: seq<Event>, s: State, user: User)
    requires Inv(events, s)
    ensures Inv(events + [RemoveUser(user)], RemoveUserRows(s, user))
  {
    var t, more := RemoveUserRows(s, user), events + [RemoveUser(user)];
    forall j | j in t.jobs ensures JobSound(more, t, j) {
      assert JobSound(events, s, j);
      assert Insert(j) in more <==> Insert(j) in events;
      assert forall x :: Delete(x) in more <==> Delete(x) in events;
      assert forall u :: Unlist(j, u) in more <==> Unlist(j, u) in events;
    }
    assert forall u :: RemoveUser(u) in more <==> RemoveUser(u) in events || u == user;
  }

  lemma StepKeepsInv(events: seq<Event>, s: State, e: Event)
    requires Inv(events, s) && Enabled(s, e)
    ensures Inv(events + [e], Step(s, e))
  {
    if e.RemoveUser? {
      RemoveUserKeepsInv(events, s, e.user);
    } else {
      JobStepKeepsInv(events, s, e);
    }
  }

  lemma JobStepKeepsInv(events: seq<Event>, s: State, e: Event)
    requires Inv(events, s) && Enabled(s, e) && !e.RemoveUser?
    ensures Inv(events + [e], Step(s, e))
  {
    var t, more := Step(s, e), events + [e];
    StepIsLocal(s, e);
    assert forall u :: RemoveUser(u) in more <==> RemoveUser(u) in events;
    assert e.Insert? || e.Delete? ==> e.id in s.jobs;
    if e.Insert? || e.Delete? {
      OwnSongSound(events, s, e);
    } else if e.Upload? {
      NewJobSound(events, s, e);
    } else if e.Unlist? {
      if e.id in s.jobs {
        UnlistedJobSound(events, s, e);
      }
    } else {
      OwnJobSound(events, s, e);
    }
    hide Step, Enabled, JobSound;
    forall j | j in t.jobs ensures JobSound(more, t, j) {
      if j != e.id {
        OtherJobSound(events, s, e, j);
      }
    }
  }

  ghost predicate Next(s: State, e: Event, t: State) {
    Enabled(s, e) && t == Step(s, e)
  }

  // What some interleaving makes of a state.
  ghost predicate Run(s: State, events: seq<Event>, t: State)
    decreases |events|
  {
    if events == [] then t == s
    else
      var front, last := events[..|events| - 1], events[|events| - 1];
      exists u :: Run(s, front, u) && Next(u, last, t)
  }

  lemma RunNothing(s: State)
    ensures Run(s, [], s)
  {
  }

  const START := State(map[], {}, map[], {}, {}, {})

  // The states some interleaving of jobs reaches from nothing.
  ghost predicate Reaches(events: seq<Event>, s: State) {
    Run(START, events, s)
  }

  lemma {:induction false} RunIsSound(before: seq<Event>, s: State, events: seq<Event>, t: State)
    requires Inv(before, s) && |InsideJobs(s)| <= SLOTS && Run(s, events, t)
    ensures Inv(before + events, t) && |InsideJobs(t)| <= SLOTS
    decreases |events|
  {
    hide Inv, InsideJobs, Enabled, Step;
    if events == [] {
      assert before + events == before;
    } else {
      var front, e := events[..|events| - 1], events[|events| - 1];
      var u :| Run(s, front, u) && Next(u, e, t);
      RunIsSound(before, s, front, u);
      StepKeepsInv(before + front, u, e);
      StepKeepsSlots(u, e);
      assert before + events == (before + front) + [e];
    }
  }

  lemma ReachedIsSound(events: seq<Event>, s: State)
    requires Reaches(events, s)
    ensures Inv(events, s) && |InsideJobs(s)| <= SLOTS
  {
    assert InsideJobs(START) == {};
    RunIsSound([], START, events, s);
    assert [] + events == events;
  }

  // Under any interleaving at most five jobs are in the guarded part. A finished import has its
  // row and file unless its song was deleted since, and its library entry unless that was taken
  // out or went with the song or the user; a duplicate has no file and points at another song
  // that is there or was deleted since; a job that failed on a missing title still has its file;
  // one that raised has none, and has its row if and only if that was committed and not deleted
  // since. A job can be looked up as long as its user is there.
  lemma EveryInterleaving(events: seq<Event>, s: State)
    requires Reaches(events, s)
    ensures |InsideJobs(s)| <= 5
    ensures forall x :: x in s.songs <==> Insert(x) in events && Delete(x) !in events
    ensures forall j :: j in s.jobs ==>
              var phase, user, deleted := s.jobs[j].phase, s.jobs[j].user, Delete(j) in events;
              && (phase.Done? && !deleted ==>
                    && j in s.songs && j in s.files
                    && ((user, j) in s.lib || Unlist(j, user) in events || RemoveUser(user) in events))
              && (deleted ==> j !in s.songs && j !in s.files)
              && (phase.Duplicate? ==>
                    && j !in s.files && j !in s.songs && phase.of != j
                    && (phase.of in s.songs || Delete(phase.of) in events))
              && (phase.NoTitle? ==> j in s.files && j !in s.songs)
              && (phase.Raised? ==> j !in s.files && (j in s.songs <==> phase.afterInsert && !deleted))
              && (j in s.rows <==> RemoveUser(user) !in events)
  {
    ReachedIsSound(events, s);
    forall j | j in s.jobs ensures JobSound(events, s, j) {
    }
    forall x ensures x in s.songs <==> Insert(x) in events && Delete(x) !in events {
      assert Insert(x).id == x;
      if x in s.jobs {
        assert JobSound(events, s, x);
      }
    }
  }

  // ------------------------------------------------ after the end

  // What belongs to a job, apart from library entries: its phase, its file and its song.
  ghost predicate SameThings(s: State, t: State, j: Id) {
    && j in s.jobs && j in t.jobs && t.jobs[j] == s.jobs[j]
    && (j in t.files <==> j in s.files) && (j in t.songs <==> j in s.songs)
    && (j in s.songs ==> t.songs[j] == s.songs[j])
  }

  lemma TerminalIsFinal(s: State, e: Event, j: Id)
    requires Enabled(s, e) && j in s.jobs && Terminal(s.jobs[j].phase)
    ensures var t := Step(s, e);
            && j in t.jobs && t.jobs[j] == s.jobs[j]
            && (e != Delete(j) ==>
                  && SameThings(s, t, j)
                  && forall u: User :: e != Unlist(j, u) && e != RemoveUser(u) ==>
                       ((u, j) in t.lib <==> (u, j) in s.lib))
  {
  }

  // However a run goes on after a job has its final status, the job keeps it; its file and its song
  // stay as they are until the song is deleted, and each library entry until it is taken out or
  // its user goes as well.
  lemma {:induction false} FinalForever(s: State, more: seq<Event>, t: State, j: Id)
    requires j in s.jobs && Terminal(s.jobs[j].phase) && Run(s, more, t)
    ensures j in t.jobs && t.jobs[j] == s.jobs[j]
    ensures Delete(j) !in more ==>
              && SameThings(s, t, j)
              && forall u: User :: Unlist(j, u) !in more && RemoveUser(u) !in more ==>
                   ((u, j) in t.lib <==> (u, j) in s.lib)
    decreases |more|
  {
    if more != [] {
      var front, e := more[..|more| - 1], more[|more| - 1];
      var u :| Run(s, front, u) && Next(u, e, t);
      FinalForever(s, front, u, j);
      TerminalIsFinal(u, e, j);
      hide Step, Enabled;
      assert e in more && forall x :: x in front ==> x in more;
    }
  }

  lemma OtherStepLeavesAlone(s: State, e: Event, j: Id)
    requires Enabled(s, e) && j in s.jobs && (!e.RemoveUser? ==> e.id != j)
    ensures var t := Step(s, e);
            && SameThings(s, t, j)
            && forall u: User :: e != RemoveUser(u) ==> ((u, j) in t.lib <==> (u, j) in s.lib)
  {
    if !e.RemoveUser? {
      StepIsLocal(s, e);
    }
  }

  // Other jobs' events, however many, leave a job, its file and its song alone, and its library
  // entries but for those of users that go.
  lemma {:induction false} OthersLeaveAlone(s: State, more: seq<Event>, t: State, j: Id)
    requires j in s.jobs && Run(s, more, t) && forall e :: e in more && !e.RemoveUser? ==> e.id != j
    ensures SameThings(s, t, j)
    ensures forall u: User :: RemoveUser(u) !in more ==> ((u, j) in t.lib <==> (u, j) in s.lib)
    decreases |more|
  {
    if more != [] {
      var front, e := more[..|more| - 1], more[|more| - 1];
      var u :| Run(s, front, u) && Next(u, e, t);
      assert e in more && forall x :: x in front ==> x in more;
      OthersLeaveAlone(s, front, u, j);
      OtherStepLeavesAlone(u, e, j);
      hide Step, Enabled;
    }
  }
}
