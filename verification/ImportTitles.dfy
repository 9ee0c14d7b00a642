/** Which title, owner and source an import ends with, over every interleaving. */
module ImportTitles {
  import opened Basics
  import opened ImportJobs

  ghost predicate Blank(t: string) {
    forall c :: c in t ==> c == ' ' || c == '\t' || c == '\n' || c == '\r'
  }

  // The file's stem stands in for a blank title.
  ghost function Title(stem: string, found: Tags): string {
    if Blank(found.track) then stem else found.track
  }

  // Everything the catalogue asks for is there.
  ghost predicate Complete(stem: string, found: Tags) {
    && Title(stem, found) != "" && found.artist != "" && found.collection != "" && found.genre != ""
    && (found.artworkUrl || found.artworkBytes)
  }

  // The song a job's tags call for: everybody's if complete, else its user's; and the community's
  // if complete and not uploaded as an original.
  ghost predicate CalledFor(song: Song, user: User, stem: string, asOriginal: bool, found: Tags) {
    && song.track == Title(stem, found) && song.artist == found.artist
    && (song.owner.None? <==> Complete(stem, found))
    && (song.owner.Some? ==> song.owner.value == user)
    && (song.source.Community? <==> Complete(stem, found) && !asOriginal)
  }

  // ------------------------------------------------ what the state knows of uploads and tags

  ghost predicate UploadsAgree(events: seq<Event>, s: State) {
    forall j, user: User, stem, asOriginal :: Upload(j, user, stem, asOriginal) in events ==>
      j in s.jobs && s.jobs[j] == Job(user, stem, asOriginal, s.jobs[j].phase)
  }

  // What a job has come to that found the tags.
  ghost predicate TagsTaken(s: State, j: Id, found: Tags) {
    && j in s.jobs
    && var job := s.jobs[j];
       && !job.phase.Waiting? && !job.phase.Started?
       && (job.phase.NoTitle? <==> Blank(found.track) && job.stem == "")
       && (job.phase.Tagged? || job.phase.Unique? ==> job.phase.tags == found.(track := Title(job.stem, found)))
       && (j in s.songs ==> CalledFor(s.songs[j], job.user, job.stem, job.asOriginal, found))
  }

  predicate OnTags(p: Phase) { p.Tagged? || p.Unique? || p.NoTitle? }

  ghost predicate HasTags(events: seq<Event>, j: Id) {
    exists found :: Tag(j, found) in events
  }

  ghost predicate TagsAgree(events: seq<Event>, s: State) {
    && (forall j, found :: Tag(j, found) in events ==> TagsTaken(s, j, found))
    && (forall j :: j in s.jobs && OnTags(s.jobs[j].phase) ==> HasTags(events, j))
    && (forall x :: x in s.songs ==> HasTags(events, x))
  }

  lemma StepKeepsUploads(events: seq<Event>, s: State, e: Event)
    requires Enabled(s, e) && UploadsAgree(events, s)
    ensures UploadsAgree(events + [e], Step(s, e))
  {
    hide IsBlank, InsideJobs;
  }

  lemma BlankIs(t: string)
    ensures IsBlank(t) <==> Blank(t)
  {
    assert forall i :: 0 <= i < |t| ==> t[i] in t;
    if IsBlank(t) {
      forall c | c in t ensures c == ' ' || c == '\t' || c == '\n' || c == '\r' {
        var i :| 0 <= i < |t| && t[i] == c;
        assert t[i] in {' ', '\t', '\n', '\r'};
      }
    }
  }

  // The step that finds the tags.
  lemma TakesTags(events: seq<Event>, s: State, j: Id, found: Tags)
    requires Inv(events, s) && Enabled(s, Tag(j, found))
    ensures TagsTaken(Step(s, Tag(j, found)), j, found)
  {
    assert JobSound(events, s, j);
    BlankIs(found.track);
    hide IsBlank, Blank, InsideJobs, Inv;
  }

  // Any other step.
  lemma KeepsTags(s: State, e: Event, j: Id, found: Tags)
    requires Enabled(s, e) && TagsTaken(s, j, found)
    ensures TagsTaken(Step(s, e), j, found)
  {
    hide IsBlank, Blank, InsideJobs;
  }

  lemma MoreTags(events: seq<Event>, e: Event)
    ensures forall j :: HasTags(events, j) ==> HasTags(events + [e], j)
    ensures e.Tag? ==> HasTags(events + [e], e.id)
  {
    var more := events + [e];
    forall j | HasTags(events, j) ensures HasTags(more, j) {
      var found :| Tag(j, found) in events;
      assert Tag(j, found) in more;
    }
    if e.Tag? {
      assert Tag(e.id, e.found) in more;
    }
  }

  // A phase that follows on tags comes from such a phase or from the tags themselves.
  lemma TagsCameBefore(s: State, e: Event)
    requires Enabled(s, e)
    ensures var t := Step(s, e);
            && (forall j :: j in t.jobs && OnTags(t.jobs[j].phase) ==>
                  (e.Tag? && e.id == j) || (j in s.jobs && OnTags(s.jobs[j].phase)))
            && (forall x :: x in t.songs ==> x in s.songs || (x in s.jobs && s.jobs[x].phase.Unique?))
  {
    hide IsBlank, InsideJobs;
  }

  lemma StepKeepsTags(events: seq<Event>, s: State, e: Event)
    requires Inv(events, s) && TagsAgree(events, s) && Enabled(s, e)
    ensures TagsAgree(events + [e], Step(s, e))
  {
    var t, more := Step(s, e), events + [e];
    MoreTags(events, e);
    TagsCameBefore(s, e);
    if e.Tag? {
      TakesTags(events, s, e.id, e.found);
    }
    hide Inv, Step, Enabled, TagsTaken, HasTags;
    forall j, found | Tag(j, found) in more ensures TagsTaken(t, j, found) {
      if e != Tag(j, found) {
        assert Tag(j, found) in events;
        KeepsTags(s, e, j, found);
      }
    }
  }

  lemma {:induction false} ReachedAgrees(events: seq<Event>, s: State)
    requires Reaches(events, s)
    ensures UploadsAgree(events, s) && TagsAgree(events, s)
    decreases |events|
  {
    if events != [] {
      var front, e := events[..|events| - 1], events[|events| - 1];
      var u :| Run(START, front, u) && Next(u, e, s);
      assert events == front + [e];
      ReachedIsSound(front, u);
      hide Inv, InsideJobs, UploadsAgree, TagsAgree, Step, Enabled;
      ReachedAgrees(front, u);
      StepKeepsUploads(front, u, e);
      StepKeepsTags(front, u, e);
    }
  }

  // ------------------------------------------------ main results

  // Once its tags are read, a job fails on the title if and only if the title found is blank and
  // its file's stem is empty; a song it imports has that title, or the stem for a blank one, and
  // the artist found; it has no owner if and only if its required tags and an artwork are there,
  // else its uploader; and it is the community's if and only if, besides, it was not uploaded as
  // an original.
  lemma TagsDecide(
      events: seq<Event>, s: State, j: Id, user: User, stem: string, asOriginal: bool, found: Tags)
    requires Reaches(events, s) && Upload(j, user, stem, asOriginal) in events && Tag(j, found) in events
    ensures j in s.jobs && (s.jobs[j].phase.NoTitle? <==> Blank(found.track) && stem == "")
    ensures j in s.songs ==> CalledFor(s.songs[j], user, stem, asOriginal, found)
  {
    hide Reaches, CalledFor, Blank;
    ReachedAgrees(events, s);
  }

  // Every song and every job without a title got there by tags.
  lemma NothingWithoutTags(events: seq<Event>, s: State)
    requires Reaches(events, s)
    ensures forall j :: j in s.jobs && s.jobs[j].phase.NoTitle? ==> HasTags(events, j)
    ensures forall x :: x in s.songs ==> HasTags(events, x)
  {
    hide Reaches;
    ReachedAgrees(events, s);
  }

  // A check ends a job as a duplicate, without its file, if and only if its title and artist are
  // both there and some song has both; else the job goes on with the same tags.
  lemma DuplicateIff(s: State, j: Id, pick: Id)
    requires Enabled(s, Check(j, pick))
    ensures var t, tags := Step(s, Check(j, pick)), s.jobs[j].phase.tags;
            var found := tags.track != "" && tags.artist != "" &&
                exists x :: x in s.songs && s.songs[x].track == tags.track && s.songs[x].artist == tags.artist;
            && t.jobs[j].phase == (if found then Duplicate(pick) else Unique(tags))
            && (found ==> pick in s.songs && s.songs[pick].track == tags.track && s.songs[pick].artist == tags.artist)
            && t.files == (if found then s.files - {j} else s.files)
            && t.songs == s.songs && t.lib == s.lib
  {
    hide InsideJobs;
    var tags := s.jobs[j].phase.tags;
    if x :| x in s.songs && s.songs[x].track == tags.track && s.songs[x].artist == tags.artist {
      assert SameTrack(s, x, tags);
    } else {
      assert !SameTrack(s, pick, tags);
    }
  }

  // ------------------------------------------------ library entries

  ghost predicate EntriesSound(s: State) {
    forall e :: e in s.lib ==> e.0 !in s.removed && e.1 in s.songs
  }

  lemma StepKeepsEntries(s: State, e: Event)
    requires Enabled(s, e) && EntriesSound(s)
    ensures EntriesSound(Step(s, e))
  {
    hide IsBlank, InsideJobs;
  }

  // Every library entry is of a song that is there and of a user who is: a song takes its entries
  // along, and so does a user.
  lemma EntriesAreSound(events: seq<Event>, s: State)
    requires Reaches(events, s)
    ensures forall user: User, x :: (user, x) in s.lib ==> x in s.songs && RemoveUser(user) !in events
  {
    EntriesKept(events, s);
    ReachedIsSound(events, s);
    hide Reaches, InsideJobs;
    forall user: User, x | (user, x) in s.lib ensures x in s.songs && RemoveUser(user) !in events {
      assert (user, x).0 == user && (user, x).1 == x;
    }
  }

  lemma {:induction false} EntriesKept(events: seq<Event>, s: State)
    requires Reaches(events, s)
    ensures EntriesSound(s)
    decreases |events|
  {
    if events != [] {
      var front, e := events[..|events| - 1], events[|events| - 1];
      var u :| Run(START, front, u) && Next(u, e, s);
      EntriesKept(front, u);
      StepKeepsEntries(u, e);
    }
  }
}
