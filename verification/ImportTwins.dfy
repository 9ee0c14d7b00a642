/** When the duplicate check keeps tracks unique: exactly while no insertion slips in behind it. */
module ImportTwins {
  import opened Basics
  import opened ImportJobs

  type Track = (string, string)

  predicate Titled(t: Track) { t.0 != "" && t.1 != "" }

  function TrackIn(song: Song): Track { (song.track, song.artist) }

  function TagTrack(tags: Tags): Track { (tags.track, tags.artist) }

  // No two songs with a title and an artist have both in common.
  ghost predicate NoTwins(s: State) {
    forall x, y :: x in s.songs && y in s.songs && x != y && Titled(TrackIn(s.songs[x])) ==>
      TrackIn(s.songs[x]) != TrackIn(s.songs[y])
  }

  // ------------------------------------------------ what the events alone say

  function StemOf(events: seq<Event>, j: Id): string {
    if events == [] then ""
    else
      var last := events[|events| - 1];
      if last.Upload? && last.id == j then last.stem else StemOf(events[..|events| - 1], j)
  }

  // The track a job is about: what its tags say, the file's stem standing in for a blank title.
  function TrackOf(events: seq<Event>, j: Id): Track {
    if events == [] then ("", "")
    else
      var front, last := events[..|events| - 1], events[|events| - 1];
      if last.Tag? && last.id == j
      then (if IsBlank(last.found.track) then StemOf(front, j) else last.found.track, last.found.artist)
      else TrackOf(front, j)
  }

  ghost predicate Checked(events: seq<Event>, j: Id) {
    exists a :: 0 <= a < |events| && events[a].Check? && events[a].id == j
  }

  ghost predicate CheckedThenInserted(events: seq<Event>, j: Id, x: Id) {
    exists a, b :: 0 <= a < b < |events| && events[a].Check? && events[a].id == j && events[b] == Insert(x)
  }

  // The other job inserts between this one's check and this one's insertion.
  ghost predicate SlipsIn(events: seq<Event>, x: Id, j: Id) {
    exists a, b, c :: 0 <= a < b < c < |events| &&
      events[a].Check? && events[a].id == j && events[b] == Insert(x) && events[c] == Insert(j)
  }

  // It does so with the same track.
  ghost predicate Overtakes(events: seq<Event>, x: Id, j: Id) {
    x != j && Titled(TrackOf(events, j)) && TrackOf(events, x) == TrackOf(events, j) && SlipsIn(events, x, j)
  }

  // ------------------------------------------------ events only ever add up

  lemma MoreEvents(events: seq<Event>, e: Event)
    ensures forall j :: Checked(events, j) ==> Checked(events + [e], j)
    ensures forall j, x :: CheckedThenInserted(events, j, x) ==> CheckedThenInserted(events + [e], j, x)
    ensures forall x, j :: SlipsIn(events, x, j) ==> SlipsIn(events + [e], x, j)
  {
    var more := events + [e];
    forall j | Checked(events, j) ensures Checked(more, j) {
      var a :| 0 <= a < |events| && events[a].Check? && events[a].id == j;
      assert more[a] == events[a];
    }
    forall j, x | CheckedThenInserted(events, j, x) ensures CheckedThenInserted(more, j, x) {
      var a, b :| 0 <= a < b < |events| && events[a].Check? && events[a].id == j && events[b] == Insert(x);
      assert more[a] == events[a] && more[b] == events[b];
    }
    forall x, j | SlipsIn(events, x, j) ensures SlipsIn(more, x, j) {
      var a, b, c :| 0 <= a < b < c < |events| &&
        events[a].Check? && events[a].id == j && events[b] == Insert(x) && events[c] == Insert(j);
      assert more[a] == events[a] && more[b] == events[b] && more[c] == events[c];
    }
  }

  lemma NewEvent(events: seq<Event>, e: Event)
    ensures e.Check? ==> Checked(events + [e], e.id)
    ensures e.Insert? ==> forall j :: Checked(events, j) ==> CheckedThenInserted(events + [e], j, e.id)
    ensures e.Insert? ==> forall x :: CheckedThenInserted(events, e.id, x) ==> SlipsIn(events + [e], x, e.id)
  {
    var more, n := events + [e], |events|;
    assert more[n] == e;
    if e.Insert? {
      forall j | Checked(events, j) ensures CheckedThenInserted(more, j, e.id) {
        var a :| 0 <= a < |events| && events[a].Check? && events[a].id == j;
        assert more[a] == events[a] && more[n] == Insert(e.id);
      }
      forall x | CheckedThenInserted(events, e.id, x) ensures SlipsIn(more, x, e.id) {
        var a, b :| 0 <= a < b < |events| && events[a].Check? && events[a].id == e.id && events[b] == Insert(x);
        assert more[a] == events[a] && more[b] == events[b] && more[n] == Insert(e.id);
      }
    }
  }

  lemma TrackOneMore(events: seq<Event>, e: Event)
    ensures forall j :: StemOf(events + [e], j) == if e.Upload? && e.id == j then e.stem else StemOf(events, j)
    ensures forall j :: !(e.Tag? && e.id == j) ==> TrackOf(events + [e], j) == TrackOf(events, j)
    ensures e.Tag? ==>
              var title := if IsBlank(e.found.track) then StemOf(events, e.id) else e.found.track;
              TrackOf(events + [e], e.id) == (title, e.found.artist)
  {
    assert (events + [e])[..|events|] == events;
  }

  // ------------------------------------------------ what the state knows of the events

  // A job and its song carry the track that the events gave them.
  ghost predicate TracksAgree(events: seq<Event>, s: State) {
    && (forall j :: j in s.jobs ==> s.jobs[j].stem == StemOf(events, j))
    && (forall j :: j in s.jobs && (s.jobs[j].phase.Tagged? || s.jobs[j].phase.Unique?) ==>
          TagTrack(s.jobs[j].phase.tags) == TrackOf(events, j))
    && (forall x :: x in s.songs ==> TrackIn(s.songs[x]) == TrackOf(events, x))
  }

  // A job past its check has been checked, and whatever carries its track now was inserted since.
  ghost predicate ChecksAgree(events: seq<Event>, s: State) {
    forall j :: j in s.jobs && s.jobs[j].phase.Unique? ==>
      && Checked(events, j)
      && forall x :: x in s.songs && Titled(TrackOf(events, j)) && TrackOf(events, x) == TrackOf(events, j) ==>
           CheckedThenInserted(events, j, x)
  }

  ghost predicate TwinsOvertook(events: seq<Event>, s: State) {
    forall x, y ::
      && x in s.songs && y in s.songs && x != y
      && Titled(TrackOf(events, x)) && TrackOf(events, x) == TrackOf(events, y) ==>
      Overtakes(events, x, y) || Overtakes(events, y, x)
  }

  lemma SongsPastTagging(events: seq<Event>, s: State, e: Event)
    requires Enabled(s, e) && Inv(events, s)
    ensures forall x :: x in s.songs ==> !((e.Tag? || e.Insert?) && e.id == x)
  {
    if e.Tag? || e.Insert? {
      assert JobSound(events, s, e.id);
    }
  }

  // Where the step's job got its stem, its tags and its song from.
  lemma OwnTrack(s: State, e: Event)
    requires Enabled(s, e) && !e.RemoveUser? && e.id in Step(s, e).jobs
    ensures var job := Step(s, e).jobs[e.id];
            && (e.Upload? ==> job.stem == e.stem && job.phase.Waiting?)
            && (!e.Upload? && e.id in s.jobs ==> job.stem == s.jobs[e.id].stem)
            && (e.Tag? && job.phase.Tagged? ==>
                  job.phase.tags == e.found.(track := if IsBlank(e.found.track) then job.stem else e.found.track))
            && (e.Tag? ==> !job.phase.Unique?)
            && (!e.Upload? && !e.Tag? && (job.phase.Tagged? || job.phase.Unique?) ==>
                  var was := s.jobs[e.id].phase; (was.Tagged? || was.Unique?) && was.tags == job.phase.tags)
  {
  }

  lemma OwnSong(s: State, e: Event, x: Id)
    requires Enabled(s, e) && x in Step(s, e).songs
    ensures (x in s.songs && Step(s, e).songs[x] == s.songs[x]) ||
            (e == Insert(x) && s.jobs[x].phase.Unique? &&
                TrackIn(Step(s, e).songs[x]) == TagTrack(s.jobs[x].phase.tags))
  {
  }

  lemma SongsKeepTracks(events: seq<Event>, s: State, e: Event)
    requires Enabled(s, e) && Inv(events, s) && TracksAgree(events, s)
    ensures forall x :: x in Step(s, e).songs ==> TrackIn(Step(s, e).songs[x]) == TrackOf(events + [e], x)
  {
    SongsPastTagging(events, s, e);
    TrackOneMore(events, e);
    hide Inv, Step, Enabled, StemOf, TrackOf, IsBlank;
    forall x | x in Step(s, e).songs ensures TrackIn(Step(s, e).songs[x]) == TrackOf(events + [e], x) {
      OwnSong(s, e, x);
    }
  }

  lemma StepKeepsTracks(events: seq<Event>, s: State, e: Event)
    requires Enabled(s, e) && Inv(events, s) && TracksAgree(events, s)
    ensures TracksAgree(events + [e], Step(s, e))
    ensures forall x :: x in s.songs ==> TrackOf(events + [e], x) == TrackOf(events, x)
  {
    var t, more := Step(s, e), events + [e];
    SongsPastTagging(events, s, e);
    TrackOneMore(events, e);
    SongsKeepTracks(events, s, e);
    if e.RemoveUser? {
      assert t.jobs == s.jobs;
    } else {
      StepIsLocal(s, e);
      if e.id in t.jobs {
        OwnTrack(s, e);
      }
    }
    assert !e.Upload? && !e.RemoveUser? ==> e.id in s.jobs || e.Delete? || e.Unlist?;
    hide Inv, Step, Enabled, StemOf, TrackOf, IsBlank;
    forall j | j in t.jobs
      ensures t.jobs[j].stem == StemOf(more, j)
      ensures t.jobs[j].phase.Tagged? || t.jobs[j].phase.Unique? ==> TagTrack(t.jobs[j].phase.tags) == TrackOf(more, j)
    {
      if e.RemoveUser? || j != e.id {
        assert j in s.jobs && t.jobs[j] == s.jobs[j];
      }
    }
  }

  lemma StepKeepsChecks(events: seq<Event>, s: State, e: Event)
    requires Enabled(s, e) && Inv(events, s) && TracksAgree(events, s) && ChecksAgree(events, s)
    ensures ChecksAgree(events + [e], Step(s, e))
  {
    var t, more := Step(s, e), events + [e];
    StepKeepsTracks(events, s, e);
    TrackOneMore(events, e);
    MoreEvents(events, e);
    NewEvent(events, e);
    hide Checked, CheckedThenInserted, SlipsIn, TrackOf, StemOf, Inv;
    forall j | j in t.jobs && t.jobs[j].phase.Unique?
      ensures Checked(more, j)
      ensures forall x :: x in t.songs && Titled(TrackOf(more, j)) && TrackOf(more, x) == TrackOf(more, j) ==>
                CheckedThenInserted(more, j, x)
    {
      if e.Check? && e.id == j {
        CheckFindsNothing(s, e);
      } else {
        UniqueBefore(s, e, j);
        hide Step, Enabled;
        SongsAfter(s, e);
      }
    }
  }

  lemma SongsAfter(s: State, e: Event)
    requires Enabled(s, e)
    ensures forall x :: x in Step(s, e).songs ==> x in s.songs || e == Insert(x)
  {
  }

  lemma UniqueBefore(s: State, e: Event, j: Id)
    requires Enabled(s, e) && j in Step(s, e).jobs && Step(s, e).jobs[j].phase.Unique? && !(e.Check? && e.id == j)
    ensures j in s.jobs && s.jobs[j] == Step(s, e).jobs[j] && !(e.Tag? && e.id == j)
  {
  }

  lemma CheckFindsNothing(s: State, e: Event)
    requires Enabled(s, e) && e.Check? && Step(s, e).jobs[e.id].phase.Unique?
    ensures Step(s, e).songs == s.songs && s.jobs[e.id].phase.Tagged? &&
            s.jobs[e.id].phase.tags == Step(s, e).jobs[e.id].phase.tags
    ensures var track := TagTrack(s.jobs[e.id].phase.tags);
            Titled(track) ==> forall x :: x in s.songs ==> TrackIn(s.songs[x]) != track
  {
    var tags := s.jobs[e.id].phase.tags;
    forall x | x in s.songs && Titled(TagTrack(tags)) ensures TrackIn(s.songs[x]) != TagTrack(tags) {
      assert !SameTrack(s, x, tags);
    }
  }

  lemma StillOvertakes(events: seq<Event>, e: Event, x: Id, y: Id)
    requires Overtakes(events, x, y) && !(e.Tag? && (e.id == x || e.id == y))
    ensures Overtakes(events + [e], x, y)
  {
    MoreEvents(events, e);
    TrackOneMore(events, e);
  }

  // A song inserted behind one of its track overtakes nothing, it is overtaken.
  lemma InsertedBehind(events: seq<Event>, s: State, y: Id, x: Id)
    requires ChecksAgree(events, s) && y in s.jobs && s.jobs[y].phase.Unique? && x in s.songs && x != y
    requires Titled(TrackOf(events, y)) && TrackOf(events, x) == TrackOf(events, y)
    ensures Overtakes(events + [Insert(y)], x, y)
  {
    NewEvent(events, Insert(y));
    TrackOneMore(events, Insert(y));
  }

  lemma StepKeepsOvertook(events: seq<Event>, s: State, e: Event)
    requires Enabled(s, e) && Inv(events, s) && ChecksAgree(events, s) && TwinsOvertook(events, s)
    ensures TwinsOvertook(events + [e], Step(s, e))
  {
    var t, more := Step(s, e), events + [e];
    SongsPastTagging(events, s, e);
    TrackOneMore(events, e);
    SongsAfter(s, e);
    assert e.Insert? ==> e.id in s.jobs && s.jobs[e.id].phase.Unique?;
    hide Inv, Step, Enabled, Overtakes, TrackOf, StemOf, ChecksAgree;
    forall x, y | x in t.songs && y in t.songs && x != y && Titled(TrackOf(more, x)) &&
        TrackOf(more, x) == TrackOf(more, y)
      ensures Overtakes(more, x, y) || Overtakes(more, y, x)
    {
      if e == Insert(y) {
        InsertedBehind(events, s, y, x);
      } else if e == Insert(x) {
        InsertedBehind(events, s, x, y);
      } else if Overtakes(events, x, y) {
        StillOvertakes(events, e, x, y);
      } else {
        StillOvertakes(events, e, y, x);
      }
    }
  }

  // ------------------------------------------------ main results

  ghost predicate History(events: seq<Event>, s: State) {
    Inv(events, s) && TracksAgree(events, s) && ChecksAgree(events, s) && TwinsOvertook(events, s)
  }

  lemma NoHistory()
    ensures History([], START)
  {
  }

  lemma StepKeepsHistory(events: seq<Event>, s: State, e: Event, t: State)
    requires History(events, s) && Next(s, e, t)
    ensures History(events + [e], t)
  {
    hide Inv, TracksAgree, ChecksAgree, TwinsOvertook, Step, Enabled;
    StepKeepsInv(events, s, e);
    StepKeepsTracks(events, s, e);
    StepKeepsChecks(events, s, e);
    StepKeepsOvertook(events, s, e);
  }

  lemma {:induction false} ReachedHasHistory(events: seq<Event>, s: State)
    requires Reaches(events, s)
    ensures History(events, s)
    decreases |events|
  {
    hide History, Next;
    if events == [] {
      NoHistory();
    } else {
      var front, e := events[..|events| - 1], events[|events| - 1];
      var u :| Run(START, front, u) && Next(u, e, s);
      ReachedHasHistory(front, u);
      StepKeepsHistory(front, u, e, s);
      assert events == front + [e];
    }
  }

  lemma BothInsert(events: seq<Event>, x: Id, j: Id)
    ensures SlipsIn(events, x, j) ==> Insert(x) in events && Insert(j) in events
  {
  }

  // Two songs carry the same title and artist if and only if, of two jobs for that track whose
  // songs are still there, one inserted between the other's check and the other's insertion.
  lemma TwinsIff(events: seq<Event>, s: State)
    requires Reaches(events, s)
    ensures NoTwins(s) <==>
            forall x, j :: Overtakes(events, x, j) ==> Delete(x) in events || Delete(j) in events
  {
    hide Reaches, Inv, TrackOf, InsideJobs, SlipsIn, ChecksAgree;
    ReachedHasHistory(events, s);
    EveryInterleaving(events, s);
    forall x, j | Overtakes(events, x, j) ensures Insert(x) in events && Insert(j) in events {
      BothInsert(events, x, j);
    }
  }

  lemma OvertakersAreJobs(events: seq<Event>, s: State, x: Id, j: Id)
    requires Inv(events, s)
    ensures SlipsIn(events, x, j) ==> x in s.jobs && j in s.jobs
  {
    BothInsert(events, x, j);
    assert Insert(x).id == x && Insert(j).id == j;
  }

  // Jobs whose titled tracks are all different import no twins, however they interleave.
  lemma DifferentTracksHaveNoTwins(events: seq<Event>, s: State)
    requires Reaches(events, s)
    requires forall i, j :: i in s.jobs && j in s.jobs && i != j && Titled(TrackOf(events, i)) ==>
               TrackOf(events, i) != TrackOf(events, j)
    ensures NoTwins(s)
  {
    TwinsIff(events, s);
    ReachedIsSound(events, s);
    hide TrackOf, Reaches, Inv, SlipsIn;
    forall x, j ensures !Overtakes(events, x, j) {
      OvertakersAreJobs(events, s, x, j);
    }
  }

  // ------------------------------------------------ one at a time

  // No more than one job is in the guarded part at any point of the run.
  ghost predicate OneAtATime(events: seq<Event>, s: State)
    decreases |events|
  {
    && |InsideJobs(s)| <= 1
    && if events == [] then s == START
       else
         var front, last := events[..|events| - 1], events[|events| - 1];
         exists t :: OneAtATime(front, t) && Next(t, last, s)
  }

  lemma OnlyOneInside(s: State, i: Id, j: Id)
    requires |InsideJobs(s)| <= 1 && i in InsideJobs(s) && j in InsideJobs(s)
    ensures i == j
  {
    PairSize(i, j);
    assert InsideJobs(s) == {i, j} + (InsideJobs(s) - {i, j});
  }

  lemma PairSize(i: Id, j: Id)
    ensures |{i, j}| == if i == j then 1 else 2
  {
    assert i == j ==> {i, j} == {i};
  }

  // What was checked still holds when the row is inserted.
  ghost predicate ChecksHold(s: State) {
    forall j, x :: j in s.jobs && s.jobs[j].phase.Unique? && x in s.songs && Titled(TagTrack(s.jobs[j].phase.tags)) ==>
      TrackIn(s.songs[x]) != TagTrack(s.jobs[j].phase.tags)
  }

  // With one job inside, no other is waiting to insert.
  lemma AloneAtInsertion(s: State, e: Event)
    requires |InsideJobs(s)| <= 1 && Enabled(s, e) && e.Insert?
    ensures forall i :: i in Step(s, e).jobs ==> !Step(s, e).jobs[i].phase.Unique?
  {
    var t := Step(s, e);
    forall i | i in t.jobs ensures !t.jobs[i].phase.Unique? {
      if i in InsideJobs(s) {
        OnlyOneInside(s, i, e.id);
      }
    }
  }

  lemma StepKeepsChecksHold(s: State, e: Event)
    requires NoTwins(s) && ChecksHold(s) && |InsideJobs(s)| <= 1 && Enabled(s, e)
    ensures NoTwins(Step(s, e)) && ChecksHold(Step(s, e))
  {
    var t := Step(s, e);
    forall x | x in t.songs
      ensures (x in s.songs && t.songs[x] == s.songs[x]) ||
              (e == Insert(x) && x in s.jobs && s.jobs[x].phase.Unique? &&
                  TrackIn(t.songs[x]) == TagTrack(s.jobs[x].phase.tags))
    {
      OwnSong(s, e, x);
    }
    if e.Insert? {
      AloneAtInsertion(s, e);
    } else if e.Check? && t.jobs[e.id].phase.Unique? {
      CheckFindsNothing(s, e);
    }
    forall j | j in t.jobs && t.jobs[j].phase.Unique? && !(e.Check? && e.id == j)
      ensures j in s.jobs && s.jobs[j] == t.jobs[j]
    {
      UniqueBefore(s, e, j);
    }
    hide Step, Enabled, InsideJobs;
  }

  // One job at a time never imports a track that is already there.
  lemma {:induction false} OneAtATimeHasNoTwins(events: seq<Event>, s: State)
    requires OneAtATime(events, s)
    ensures Reaches(events, s) && NoTwins(s) && ChecksHold(s)
    decreases |events|
  {
    if events != [] {
      var front, e := events[..|events| - 1], events[|events| - 1];
      var t :| OneAtATime(front, t) && Next(t, e, s);
      OneAtATimeHasNoTwins(front, t);
      StepKeepsChecksHold(t, e);
    }
  }

  // ------------------------------------------------ a run with twins

  const TAGS := Tags("t", "a", "", "", false, false)

  // Two uploads, each in the given phase, and the songs imported so far.
  function Pair(p: Phase, q: Phase, songs: map<Id, Song>): State {
    State(map[0 := Job(7, "x", false, p), 1 := Job(8, "y", false, q)], {0, 1}, songs, {}, {0, 1}, {})
  }

  function Imported(owner: User): Song { Song("t", "a", Some(owner), NoSource) }

  lemma PairInside(p: Phase, q: Phase, songs: map<Id, Song>)
    ensures |InsideJobs(Pair(p, q, songs))| <= 2
  {
    var inside := InsideJobs(Pair(p, q, songs));
    PairSize(0, 1);
    assert {0, 1} == inside + ({0, 1} - inside);
  }

  lemma Extend(events: seq<Event>, s: State, e: Event, t: State) returns (more: seq<Event>)
    requires Reaches(events, s) && Next(s, e, t)
    ensures Reaches(more, t) && |more| == |events| + 1
  {
    more := events + [e];
    assert more[..|more| - 1] == events;
  }

  lemma BothUploaded() returns (events: seq<Event>)
    ensures |events| == 2 && Reaches(events, Pair(Waiting, Waiting, map[]))
  {
    var one := Step(START, Upload(0, 7, "x", false));
    events := Extend([], START, Upload(0, 7, "x", false), one);
    events := Extend(events, one, Upload(1, 8, "y", false), Pair(Waiting, Waiting, map[]));
  }

  lemma BothTagged() returns (events: seq<Event>)
    ensures |events| == 6 && Reaches(events, Pair(Tagged(TAGS), Tagged(TAGS), map[]))
  {
    hide Reaches;
    events := BothUploaded();
    PairInside(Waiting, Waiting, map[]);
    events := Extend(events, Pair(Waiting, Waiting, map[]), Acquire(0), Pair(Started, Waiting, map[]));
    PairInside(Started, Waiting, map[]);
    events := Extend(events, Pair(Started, Waiting, map[]), Acquire(1), Pair(Started, Started, map[]));
    assert TAGS.track[0] == 't';
    events := Extend(events, Pair(Started, Started, map[]), Tag(0, TAGS), Pair(Tagged(TAGS), Started, map[]));
    events := Extend(events, Pair(Tagged(TAGS), Started, map[]), Tag(1, TAGS), Pair(Tagged(TAGS), Tagged(TAGS), map[]));
  }

  // Two jobs whose checks both come before either insertion both import the track.
  lemma TwoAtOnceCanTwin() returns (events: seq<Event>, s: State)
    ensures Reaches(events, s) && |events| == 10 && !NoTwins(s)
    ensures s.songs == map[0 := Imported(7), 1 := Imported(8)]
  {
    hide Reaches;
    var one, both := map[0 := Imported(7)], map[0 := Imported(7), 1 := Imported(8)];
    events := BothTagged();
    events := Extend(events, Pair(Tagged(TAGS), Tagged(TAGS), map[]), Check(0, 0),
        Pair(Unique(TAGS), Tagged(TAGS), map[]));
    events := Extend(events, Pair(Unique(TAGS), Tagged(TAGS), map[]), Check(1, 0),
        Pair(Unique(TAGS), Unique(TAGS), map[]));
    events := Extend(events, Pair(Unique(TAGS), Unique(TAGS), map[]), Insert(0), Pair(Inserted, Unique(TAGS), one));
    events := Extend(events, Pair(Inserted, Unique(TAGS), one), Insert(1), Pair(Inserted, Inserted, both));
    s := Pair(Inserted, Inserted, both);
    assert TrackIn(s.songs[0]) == TrackIn(s.songs[1]) && Titled(TrackIn(s.songs[0]));
  }
}
