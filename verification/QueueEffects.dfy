/** What single commands do to the player's queue, written out on its lists. */
module QueueEffects {
  import opened Basics
  import opened PlayQueue
  import opened QueueTheorems

  // When the current song is removed, the song right behind it becomes current, or, if there is
  // none behind it, the song before it.
  lemma CurrentRemoved(p: Player)
    requires WellFormed(p) && InRange(p) && |p.queue| >= 2
    ensures var q, i := RemoveSong(p, Current(p)), p.queueIndex;
            && InRange(q)
            && Current(q) == if i + 1 < |p.queue| then p.queue[i + 1] else p.queue[i - 1]
  {
    hide Without, CloseGap, PositionAfterRemoval;
    UniquePlace(p.queue, p.queueIndex);
  }

  lemma RemovedBehind<T>(s: seq<T>, at: nat)
    requires at < |s|
    ensures |RemoveAt(s, at)| == |s| - 1
    ensures at + 1 < |s| ==> RemoveAt(s, at)[at] == s[at + 1]
  {
  }

  // When the song at the shuffle position is removed, the position stays and the song that
  // plays next is found there; if it played last, the position is left one past the order.
  lemma ShuffledRemoved(p: Player)
    requires WellFormed(p) && Shuffling(p) && 0 <= p.shufflePosition < |p.queue|
    ensures var q, i := RemoveSong(p, AtShufflePosition(p)), p.shufflePosition;
            && WellFormed(q) && |q.queue| == |p.queue| - 1 && q.shufflePosition == i
            && (i + 1 < |p.queue| ==> AtShufflePosition(q) == PlayOrder(p)[i + 1])
  {
    var song, i := AtShufflePosition(p), p.shufflePosition;
    PlayOrderElements(p, song);
    assert PlayOrder(p)[i] == song;
    UniquePlace(PlayOrder(p), i);
    RemovedFrom(p, song);
    PositionFollows(p, song);
    ShuffledRemoveRefines(p, song);
    hide WellFormed, RemoveSong, RemoveAt, IndexOf, PlayOrder;
    RemovedBehind(PlayOrder(p), i);
    assert |RemoveSong(p, song).queue| == |PlayOrder(RemoveSong(p, song))|;
  }

  // A position asked for, brought between the two ends of a list.
  function Within(i: int, n: nat): (r: nat)
    ensures r == i || (i < 0 && r == 0) || (i > n && r == n)
    ensures r <= n
  {
    if i < 0 then 0 else if i > n then n else i
  }

  // A new song stands in the queue right before the song at the position asked for, or at the
  // end; with shuffle on it plays last. Its source is recorded if one is given.
  lemma InsertLands(p: Player, song: SongId, position: Option<int>, source: Option<Source>)
    requires WellFormed(p) && song !in p.queue
    ensures var q, k := InsertSong(p, song, position, source), Within(position.GetOr(|p.queue|), |p.queue|);
            && q.queue == p.queue[..k] + [song] + p.queue[k..]
            && WellFormed(q) && (Shuffling(p) ==> Shuffling(q) && PlayOrder(q) == PlayOrder(p) + [song])
            && q.sources == (match source case Some(x) => p.sources[song := x] case None => p.sources)
            && q.manualNext == p.manualNext && q.currentSong == p.currentSong && q.shufflePosition == p.shufflePosition
  {
    InsertRefines(p, song, position, source);
    PlayOrderElements(p, song);
    InsertAtEnd(PlayOrder(p), song);
    hide MakeRoom, WellFormed, PlayOrder;
  }

  // A removed song leaves the queue, its source and its first place in the manual list; all
  // other songs keep their order and their sources.
  lemma RemoveClears(p: Player, song: SongId)
    requires WellFormed(p) && song in p.queue
    ensures var q := RemoveSong(p, song);
            && (exists i :: 0 <= i < |p.queue| && p.queue[i] == song && q.queue == p.queue[..i] + p.queue[i + 1..])
            && q.sources.Keys == p.sources.Keys - {song}
            && (forall x :: x in q.sources ==> q.sources[x] == p.sources[x])
            && (song !in p.manualNext ==> q.manualNext == p.manualNext)
            && (song in p.manualNext ==>
                 exists i :: 0 <= i < |p.manualNext| && p.manualNext[i] == song && song !in p.manualNext[..i] &&
                   q.manualNext == p.manualNext[..i] + p.manualNext[i + 1..])
  {
    hide Without, CloseGap, PositionAfterRemoval, IndexAfterRemoval, WellFormed;
    var q := RemoveSong(p, song);
    var i := IndexOf(p.queue, song);
    assert p.queue[i] == song && q.queue == p.queue[..i] + p.queue[i + 1..];
    if song in p.manualNext {
      var m := IndexOf(p.manualNext, song);
      assert p.manualNext[m] == song && song !in p.manualNext[..m];
      assert q.manualNext == p.manualNext[..m] + p.manualNext[m + 1..];
    }
  }

  // A reordered song lands right before the one that stood at the target, or at the end; all
  // others keep their order.
  lemma ReorderLands(p: Player, from: int, to: int)
    requires WellFormed(p) && 0 <= from < |p.queue|
    ensures WellFormed(Reorder(p, from, to))
    ensures var s, t := PlayOrder(p), Within(to, |p.queue|);
            PlayOrder(Reorder(p, from, to)) ==
              if from < t then s[..from] + s[from + 1..t] + [s[from]] + s[t..]
              else s[..t] + [s[from]] + s[t..from] + s[from + 1..]
  {
    ReorderRefines(p, from, to);
    hide WellFormed, PlayOrder, Reorder;
    ListLands(PlayOrder(p), from, to);
  }

  lemma MoveDown<T>(s: seq<T>, from: nat, t: nat)
    requires from < t <= |s|
    ensures Move(s, from, t - 1) == s[..from] + s[from + 1..t] + [s[from]] + s[t..]
  {
    var rest := RemoveAt(s, from);
    assert rest[..t - 1] == s[..from] + s[from + 1..t];
    assert rest[t - 1..] == s[t..];
  }

  lemma MoveUp<T>(s: seq<T>, from: nat, t: nat)
    requires t <= from < |s|
    ensures Move(s, from, t) == s[..t] + [s[from]] + s[t..from] + s[from + 1..]
  {
    var rest := RemoveAt(s, from);
    assert rest[..t] == s[..t];
    assert rest[t..] == s[t..from] + s[from + 1..];
  }

  lemma ListLands(s: seq<SongId>, from: nat, to: int)
    requires from < |s|
    ensures var t := Within(to, |s|);
            (if from == to || from == to - 1 then s else Move(s, from, Landing(from, to, |s|))) ==
              if from < t then s[..from] + s[from + 1..t] + [s[from]] + s[t..]
              else s[..t] + [s[from]] + s[t..from] + s[from + 1..]
  {
    hide Move;
    var t := Within(to, |s|);
    if from == to || from == to - 1 {
      assert s == s[..from] + [s[from]] + s[from + 1..];
    } else if from < t {
      MoveDown(s, from, t);
    } else {
      MoveUp(s, from, t);
    }
  }

  // With shuffle on a reorder touches nothing but the order and the position, and the position
  // only while the current song is queued.
  lemma ShuffledReorderKeeps(p: Player, from: int, to: int)
    requires Shuffling(p)
    ensures var q := Reorder(p, from, to);
            && q.shuffleOrder.Some?
            && q == p.(shuffleOrder := q.shuffleOrder, shufflePosition := q.shufflePosition)
            && (p.currentSong.None? || p.currentSong.value !in p.queue ==> q.shufflePosition == p.shufflePosition)
  {
    hide Move;
  }

  // An index before the queue stays where it is, and one past its end stays as far past it.
  lemma IndexOutside(p: Player, c: Command)
    requires WellFormed(p)
    ensures p.queueIndex < 0 ==> Apply(p, c).queueIndex == p.queueIndex
    ensures p.queueIndex >= |p.queue| ==>
              Apply(p, c).queueIndex - |Apply(p, c).queue| == p.queueIndex - |p.queue|
  {
    hide Without, CloseGap, PositionAfterRemoval, MakeRoom;
    if c.Shift? {
      ReorderRefines(p, c.from, c.to);
      hide Move, PlayOrder;
    }
  }

  // A command that names nothing in the queue, or has nothing to move, changes nothing.
  lemma NothingToDo(p: Player, c: Command)
    requires match c
             case Insert(song, _, _) => song in p.queue
             case Remove(song) => song !in p.queue
             case Shift(from, to) =>
               from == to || from == to - 1 || from < 0 ||
               from >= if Shuffling(p) then |p.shuffleOrder.value| else |p.queue|
    ensures Apply(p, c) == p
  {
  }
}
