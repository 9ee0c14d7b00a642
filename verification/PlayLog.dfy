/** Recording plays: a play is recorded unless one of the last five minutes is found. */
module PlayLog {

  type SongId = nat
  type User = nat

  // Times in microseconds.
  const WINDOW := 300000000

  datatype Play = Play(song: SongId, user: User, playedAt: int)

  datatype Answer = Recorded | AlreadyPlayed | MultipleRows

  // One request: the song, the user, the clock reading that the look-up is made with, and the
  // stamp a recorded play gets. The stamp is the start of the request's transaction, which the
  // look-up of the user has begun before the clock is read.
  datatype Request = Request(song: SongId, user: User, asked: int, stored: int) {
    function Lag(): int { asked - stored }
  }

  predicate SamePlay(a: Play, b: Play) { a.song == b.song && a.user == b.user }

  predicate Matches(p: Play, song: SongId, user: User, cutoff: int) {
    p.song == song && p.user == user && p.playedAt >= cutoff
  }

  function Matching(plays: seq<Play>, song: SongId, user: User, cutoff: int): seq<Play> {
    if plays == [] then []
    else (if Matches(plays[0], song, user, cutoff) then [plays[0]] else []) + Matching(plays[1..], song, user, cutoff)
  }

  // A play of this song by this user is recorded, no older than the cutoff.
  ghost predicate HasRecent(plays: seq<Play>, song: SongId, user: User, cutoff: int) {
    exists i :: 0 <= i < |plays| && Matches(plays[i], song, user, cutoff)
  }

  lemma {:induction false} MatchingFinds(plays: seq<Play>, song: SongId, user: User, cutoff: int)
    ensures Matching(plays, song, user, cutoff) == [] <==> !HasRecent(plays, song, user, cutoff)
    ensures forall p :: p in Matching(plays, song, user, cutoff) ==> p in plays && Matches(p, song, user, cutoff)
  {
    if plays != [] {
      MatchingFinds(plays[1..], song, user, cutoff);
      assert plays == [plays[0]] + plays[1..];
      assert HasRecent(plays[1..], song, user, cutoff) ==> HasRecent(plays, song, user, cutoff) by {
        if i :| 0 <= i < |plays[1..]| && Matches(plays[1..][i], song, user, cutoff) {
          assert Matches(plays[i + 1], song, user, cutoff);
        }
      }
      if i :| 0 < i < |plays| && Matches(plays[i], song, user, cutoff) {
        assert plays[1..][i - 1] == plays[i];
      }
    }
  }

  // Of two plays of one song by one user, the one recorded earlier has left the window.
  ghost predicate Settled(plays: seq<Play>, now: int) {
    forall i, j :: 0 <= i < j < |plays| && SamePlay(plays[i], plays[j]) ==> plays[i].playedAt + WINDOW < now
  }

  // Then the look-up finds at most one row.
  lemma {:induction false} AtMostOneMatch(plays: seq<Play>, song: SongId, user: User, now: int)
    requires Settled(plays, now)
    ensures |Matching(plays, song, user, now - WINDOW)| <= 1
  {
    if plays != [] {
      AtMostOneMatch(plays[1..], song, user, now);
      if Matches(plays[0], song, user, now - WINDOW) {
        forall k | 0 <= k < |plays[1..]| ensures !Matches(plays[1..][k], song, user, now - WINDOW) {
          assert plays[1..][k] == plays[k + 1];
        }
        MatchingFinds(plays[1..], song, user, now - WINDOW);
      }
    }
  }

  // ------------------------------------------------ one request

  class Log {
    var plays: seq<Play>

    constructor ()
      ensures plays == []
    {
      plays := [];
    }

    method RecordPlay(r: Request) returns (answer: Answer)
      modifies this
      ensures answer == Recorded <==> !HasRecent(old(plays), r.song, r.user, r.asked - 300000000)
      ensures answer == MultipleRows <==> |Matching(old(plays), r.song, r.user, r.asked - 300000000)| > 1
      ensures plays == if answer == Recorded then old(plays) + [Play(r.song, r.user, r.stored)] else old(plays)
      ensures plays == Served(old(plays), r)
      ensures Settled(old(plays), r.asked) ==> answer != MultipleRows && Settled(plays, r.asked)
    {
      var existing := Matching(plays, r.song, r.user, r.asked - WINDOW);
      MatchingFinds(plays, r.song, r.user, r.asked - WINDOW);
      ServedSettles(plays, r);
      if |existing| > 1 {
        return MultipleRows;
      }
      if |existing| == 1 {
        return AlreadyPlayed;
      }
      plays := plays + [Play(r.song, r.user, r.stored)];
      return Recorded;
    }
  }

  function Served(plays: seq<Play>, r: Request): seq<Play> {
    if Matching(plays, r.song, r.user, r.asked - WINDOW) == [] then plays + [Play(r.song, r.user, r.stored)] else plays
  }

  lemma ServedSettles(plays: seq<Play>, r: Request)
    ensures Settled(plays, r.asked) ==> Settled(Served(plays, r), r.asked)
    ensures Settled(plays, r.asked) ==> |Matching(plays, r.song, r.user, r.asked - WINDOW)| <= 1
  {
    hide Matching;
    MatchingFinds(plays, r.song, r.user, r.asked - WINDOW);
    if Settled(plays, r.asked) {
      AtMostOneMatch(plays, r.song, r.user, r.asked);
      var next := Served(plays, r);
      forall i, j | 0 <= i < j < |next| && SamePlay(next[i], next[j]) ensures next[i].playedAt + WINDOW < r.asked {
        assert next[i] == plays[i];
        if j == |plays| {
          assert !Matches(plays[i], r.song, r.user, r.asked - WINDOW);
        } else {
          assert next[j] == plays[j];
        }
      }
    }
  }

  // ------------------------------------------------ whole runs

  function ServedAll(requests: seq<Request>): seq<Play> {
    if requests == [] then [] else Served(ServedAll(requests[..|requests| - 1]), requests[|requests| - 1])
  }

  // The requests whose plays were recorded.
  function Kept(requests: seq<Request>): seq<Request> {
    if requests == [] then []
    else
      var before, r := requests[..|requests| - 1], requests[|requests| - 1];
      Kept(before) + if Matching(ServedAll(before), r.song, r.user, r.asked - WINDOW) == [] then [r] else []
  }

  lemma {:induction false} KeptArePlays(requests: seq<Request>)
    ensures |ServedAll(requests)| == |Kept(requests)|
    ensures forall k :: 0 <= k < |Kept(requests)| ==>
              var r := Kept(requests)[k];
              r in requests && ServedAll(requests)[k] == Play(r.song, r.user, r.stored)
    decreases |requests|
  {
    hide Matching;
    if requests != [] {
      KeptArePlays(requests[..|requests| - 1]);
    }
  }

  // Over any run, whatever the clocks: between a play's stamp and the reading of a later request
  // that is recorded for the same song and user lie more than five minutes. Stamp to stamp it
  // is more than five minutes less the later request's lag.
  lemma {:induction false} RunIsSpaced(requests: seq<Request>)
    ensures |ServedAll(requests)| == |Kept(requests)|
    ensures forall i, j :: 0 <= i < j < |Kept(requests)| && SamePlay(ServedAll(requests)[i], ServedAll(requests)[j]) ==>
              && ServedAll(requests)[i].playedAt + 300000000 < Kept(requests)[j].asked
              && ServedAll(requests)[i].playedAt + 300000000 - Kept(requests)[j].Lag() < ServedAll(requests)[j].playedAt
    decreases |requests|
  {
    KeptArePlays(requests);
    hide Matching;
    if requests != [] {
      var before, r := requests[..|requests| - 1], requests[|requests| - 1];
      RunIsSpaced(before);
      KeptArePlays(before);
      MatchingFinds(ServedAll(before), r.song, r.user, r.asked - WINDOW);
      var was := ServedAll(before);
      forall i | 0 <= i < |was| && was[i].song == r.song && was[i].user == r.user &&
                 !HasRecent(was, r.song, r.user, r.asked - WINDOW)
        ensures was[i].playedAt + WINDOW < r.asked
      {
        assert !Matches(was[i], r.song, r.user, r.asked - WINDOW);
      }
    }
  }

  // So the look-up of the next request finds at most one row and cannot fail.
  lemma LookUpNeverFails(requests: seq<Request>, song: SongId, user: User, now: int)
    requires forall r :: r in requests ==> r.asked <= now
    ensures Settled(ServedAll(requests), now)
    ensures |Matching(ServedAll(requests), song, user, now - WINDOW)| <= 1
  {
    RunIsSpaced(requests);
    KeptArePlays(requests);
    hide Matching;
    AtMostOneMatch(ServedAll(requests), song, user, now);
  }

  // A served request has found a play of its song and user in the window, or left its own.
  lemma RequestLeavesRecent(requests: seq<Request>, r: Request)
    ensures var cutoff := if r.stored < r.asked - WINDOW then r.stored else r.asked - WINDOW;
            HasRecent(ServedAll(requests + [r]), r.song, r.user, cutoff)
  {
    var plays := ServedAll(requests);
    var next := Served(plays, r);
    assert (requests + [r])[..|requests|] == requests;
    var cutoff := if r.stored < r.asked - WINDOW then r.stored else r.asked - WINDOW;
    hide Matching;
    MatchingFinds(plays, r.song, r.user, r.asked - WINDOW);
    if HasRecent(plays, r.song, r.user, r.asked - WINDOW) {
      var i :| 0 <= i < |plays| && Matches(plays[i], r.song, r.user, r.asked - WINDOW);
      assert Matches(next[i], r.song, r.user, cutoff);
    } else {
      assert Matches(next[|plays|], r.song, r.user, cutoff);
    }
  }

  // ------------------------------------------------ five minutes between stamps

  // Two recorded plays of one song by one user are more than the window apart.
  ghost predicate Spaced(plays: seq<Play>) {
    forall i, j :: 0 <= i < j < |plays| && SamePlay(plays[i], plays[j]) ==>
      plays[i].playedAt + WINDOW < plays[j].playedAt
  }

  // A play is in the window before the request's stamp, but no longer in the one before its reading.
  ghost predicate FallsInLag(plays: seq<Play>, r: Request) {
    !HasRecent(plays, r.song, r.user, r.asked - WINDOW) && HasRecent(plays, r.song, r.user, r.stored - WINDOW)
  }

  lemma ServedSpacedIff(plays: seq<Play>, r: Request)
    ensures Spaced(Served(plays, r)) <==> Spaced(plays) && !FallsInLag(plays, r)
  {
    hide Matching;
    MatchingFinds(plays, r.song, r.user, r.asked - WINDOW);
    var next, n := Served(plays, r), |plays|;
    assert forall i :: 0 <= i < n ==> next[i] == plays[i];
    if FallsInLag(plays, r) {
      var i :| 0 <= i < n && Matches(plays[i], r.song, r.user, r.stored - WINDOW);
      assert SamePlay(next[i], next[n]);
    }
    if Spaced(plays) && !FallsInLag(plays, r) {
      forall i, j | 0 <= i < j < |next| && SamePlay(next[i], next[j])
        ensures next[i].playedAt + WINDOW < next[j].playedAt
      {
        if j == n {
          assert !Matches(plays[i], r.song, r.user, r.stored - WINDOW);
        }
      }
    }
    if Spaced(next) {
      forall i, j | 0 <= i < j < n && SamePlay(plays[i], plays[j])
        ensures plays[i].playedAt + WINDOW < plays[j].playedAt
      {
        assert next[i] == plays[i] && next[j] == plays[j];
      }
    }
  }

  ghost predicate NoneFallsInLag(requests: seq<Request>)
    decreases |requests|
  {
    requests == [] ||
    (var before, r := requests[..|requests| - 1], requests[|requests| - 1];
     NoneFallsInLag(before) && !FallsInLag(ServedAll(before), r))
  }

  // Over a run all plays of a song by a user are more than five minutes apart if and only if no
  // request comes when the last play is more than five minutes before its reading but not
  // before its stamp.
  lemma {:induction false} RunSpacedIff(requests: seq<Request>)
    ensures Spaced(ServedAll(requests)) <==> NoneFallsInLag(requests)
    decreases |requests|
  {
    hide Matching, FallsInLag;
    if requests != [] {
      var before, r := requests[..|requests| - 1], requests[|requests| - 1];
      RunSpacedIff(before);
      ServedSpacedIff(ServedAll(before), r);
    }
  }

  // One request after the other on one clock: each stamp before its reading, each reading before
  // the next stamp.
  ghost predicate OneAfterTheOther(requests: seq<Request>) {
    && (forall i :: 0 <= i < |requests| ==> requests[i].stored <= requests[i].asked)
    && (forall i, j :: 0 <= i < j < |requests| ==> requests[i].asked <= requests[j].stored)
  }

  lemma ServedTwice(a: Request, b: Request)
    requires a.song == b.song && a.user == b.user && a.stored + WINDOW < b.asked
    ensures ServedAll([a, b]) == [Play(a.song, a.user, a.stored), Play(b.song, b.user, b.stored)]
  {
    assert [a, b][..1] == [a] && [a][..0] == [];
    assert ServedAll([]) == [];
    var first := Play(a.song, a.user, a.stored);
    assert ServedAll([a]) == Served([], a) == [first];
    assert [first][1..] == [];
    assert Matching([first], b.song, b.user, b.asked - WINDOW) == [];
    assert ServedAll([a, b]) == Served([first], b);
  }

  // Every lag up to the window can eat that much of the five minutes: the bound is tight.
  lemma LagIsTight(lag: int)
    requires 0 <= lag <= WINDOW + 1
    ensures var a, b := Request(1, 1, 0, 0), Request(1, 1, WINDOW + 1, WINDOW + 1 - lag);
            && OneAfterTheOther([a, b]) && b.Lag() == lag
            && ServedAll([a, b]) == [Play(1, 1, 0), Play(1, 1, WINDOW + 1 - lag)]
  {
    ServedTwice(Request(1, 1, 0, 0), Request(1, 1, WINDOW + 1, WINDOW + 1 - lag));
  }

  // Ten microseconds between stamp and reading are enough for two plays within five minutes.
  lemma PlaysCanBeCloser()
    ensures var a, b := Request(1, 1, 10, 0), Request(1, 1, 300000005, 299999995);
            && OneAfterTheOther([a, b])
            && ServedAll([a, b]) == [Play(1, 1, 0), Play(1, 1, 299999995)]
            && !Spaced(ServedAll([a, b]))
  {
    var a, b := Request(1, 1, 10, 0), Request(1, 1, 300000005, 299999995);
    ServedTwice(a, b);
    var plays := ServedAll([a, b]);
    assert SamePlay(plays[0], plays[1]);
  }
}
