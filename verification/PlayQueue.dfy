/** The player's queue: a stored row, and the plain list of songs it stands for. */
module PlayQueue {
  import opened Basics

  type SongId = nat

  datatype Source = Source(id: string, text: string, href: string)

  // The row: a queue, an index into it, and, when shuffling, an order over its indices.
  datatype Player = Player(
    shuffle: bool, queue: seq<SongId>, queueIndex: int, shuffleOrder: Option<seq<int>>, shufflePosition: int,
    manualNext: seq<SongId>, currentSong: Option<SongId>, sources: map<SongId, Source>)

  // ------------------------------------------------ list operations

  function Clamp(i: int, hi: nat): (r: nat)
    ensures r <= hi
  {
    if i < 0 then 0 else if i > hi then hi else i
  }

  function InsertAt<T>(s: seq<T>, i: nat, x: T): seq<T>
    requires i <= |s|
  {
    s[..i] + [x] + s[i..]
  }

  function RemoveAt<T>(s: seq<T>, i: nat): seq<T>
    requires i < |s|
  {
    s[..i] + s[i + 1..]
  }

  // Take the element out and put it back where it is to be found afterwards.
  function Move<T>(s: seq<T>, from: nat, to: nat): seq<T>
    requires from < |s| && to < |s|
  {
    InsertAt(RemoveAt(s, from), to, s[from])
  }

  function IndexOf<T(==)>(s: seq<T>, x: T): (i: nat)
    requires x in s
    ensures i < |s| && s[i] == x && x !in s[..i]
  {
    if s[0] == x then 0 else 1 + IndexOf(s[1..], x)
  }

  function MakeRoom(order: seq<int>, pos: nat): (r: seq<int>)
    ensures |r| == |order|
    ensures forall i :: 0 <= i < |order| ==> r[i] == if order[i] >= pos then order[i] + 1 else order[i]
  {
    seq(|order|, i requires 0 <= i < |order| => if order[i] >= pos then order[i] + 1 else order[i])
  }

  function CloseGap(order: seq<int>, index: nat): (r: seq<int>)
    ensures |r| == |order|
    ensures forall i :: 0 <= i < |order| ==> r[i] == if order[i] > index then order[i] - 1 else order[i]
  {
    seq(|order|, i requires 0 <= i < |order| => if order[i] > index then order[i] - 1 else order[i])
  }

  function Without(order: seq<int>, index: int): seq<int> {
    if order == [] then []
    else (if order[0] != index then [order[0]] else []) + Without(order[1..], index)
  }

  // ------------------------------------------------ the three operations

  function Shuffling(p: Player): bool {
    p.shuffle && p.shuffleOrder.Some?
  }

  function InsertSong(p: Player, song: SongId, position: Option<int>, source: Option<Source>): Player {
    if song in p.queue then p
    else
      var pos := Clamp(position.GetOr(|p.queue|), |p.queue|);
      p.(queue := InsertAt(p.queue, pos, song),
         shuffleOrder := if Shuffling(p) then Some(MakeRoom(p.shuffleOrder.value, pos) + [pos]) else p.shuffleOrder,
         queueIndex := if pos <= p.queueIndex then p.queueIndex + 1 else p.queueIndex,
         sources := if source.Some? then p.sources[song := source.value] else p.sources)
  }

  function PositionAfterRemoval(order: seq<int>, index: int, position: int): int {
    if index in order && IndexOf(order, index) < position
    then (if position - 1 < 0 then 0 else position - 1)
    else position
  }

  function IndexAfterRemoval(current: int, index: int, left: nat): int {
    if index < current then current - 1
    else if index == current
    then (var last := if left == 0 then 0 else left - 1; if current < last then current else last)
    else current
  }

  function RemoveSong(p: Player, song: SongId): Player {
    if song !in p.queue then p
    else
      var index := IndexOf(p.queue, song);
      var queue := RemoveAt(p.queue, index);
      p.(queue := queue,
         shuffleOrder :=
           if Shuffling(p) then Some(CloseGap(Without(p.shuffleOrder.value, index), index)) else p.shuffleOrder,
         shufflePosition :=
           if Shuffling(p)
           then PositionAfterRemoval(p.shuffleOrder.value, index, p.shufflePosition)
           else p.shufflePosition,
         queueIndex := IndexAfterRemoval(p.queueIndex, index, |queue|),
         manualNext :=
           if song in p.manualNext then RemoveAt(p.manualNext, IndexOf(p.manualNext, song)) else p.manualNext,
         sources := p.sources - {song})
  }

  // Where a reorder puts the element back, in a list of the given length.
  function Landing(from: int, to: int, length: nat): nat
    requires length > 0
  {
    Clamp(if to > from then to - 1 else to, length - 1)
  }

  function Reorder(p: Player, from: int, to: int): Player {
    if from == to || from == to - 1 then p
    else if Shuffling(p) then
      var order := p.shuffleOrder.value;
      if from < 0 || from >= |order| then p
      else
        var moved := Move(order, from, Landing(from, to, |order|));
        p.(shuffleOrder := Some(moved),
           shufflePosition :=
             if p.currentSong.Some? && p.currentSong.value in p.queue && IndexOf(p.queue, p.currentSong.value) in moved
             then IndexOf(moved, IndexOf(p.queue, p.currentSong.value)) else p.shufflePosition)
    else if from < 0 || from >= |p.queue| then p
    else
      var at := Landing(from, to, |p.queue|);
      p.(queue := Move(p.queue, from, at),
         queueIndex :=
           if from == p.queueIndex then at
           else if from < p.queueIndex <= at then p.queueIndex - 1
           else if at <= p.queueIndex < from then p.queueIndex + 1
           else p.queueIndex)
  }

  // Search for the first place that holds the index.
  method FindPosition(order: seq<int>, index: int) returns (pos: Option<nat>)
    ensures pos.Some? <==> index in order
    ensures pos.Some? ==> pos.value == IndexOf(order, index)
  {
    for i := 0 to |order|
      invariant index !in order[..i]
    {
      if order[i] == index {
        FirstIsIndexOf(order, index, i);
        return Some(i);
      }
    }
    assert order[..|order|] == order;
    return None;
  }

  // Take one element out and put it back; a target behind it has moved up by one.
  method PopAndInsert<T>(s: seq<T>, from: int, to: int) returns (r: seq<T>, insertAt: nat)
    requires 0 <= from < |s|
    ensures insertAt == Landing(from, to, |s|) && r == Move(s, from, insertAt)
  {
    var moved, rest := s[from], RemoveAt(s, from);
    insertAt := Clamp(if to > from then to - 1 else to, |rest|);
    r := InsertAt(rest, insertAt, moved);
  }

  // ------------------------------------------------ the row, updated in place

  class PlayerRow {
    var shuffle: bool
    var queue: seq<SongId>
    var queueIndex: int
    var shuffleOrder: Option<seq<int>>
    var shufflePosition: int
    var manualNext: seq<SongId>
    var currentSong: Option<SongId>
    var sources: map<SongId, Source>

    // The whole row is replaced as given; nothing about it is checked.
    constructor Upsert(p: Player)
      ensures State() == p
    {
      shuffle, queue, queueIndex, shuffleOrder := p.shuffle, p.queue, p.queueIndex, p.shuffleOrder;
      shufflePosition, manualNext, currentSong, sources := p.shufflePosition, p.manualNext, p.currentSong, p.sources;
    }

    ghost function State(): Player
      reads this
    {
      Player(shuffle, queue, queueIndex, shuffleOrder, shufflePosition, manualNext, currentSong, sources)
    }

    method QueueInsert(song: SongId, position: Option<int>, source: Option<Source>)
      modifies this
      ensures State() == InsertSong(old(State()), song, position, source)
    {
      if song in queue {
        return;
      }
      var pos := if position.Some? then position.value else |queue|;
      pos := Clamp(pos, |queue|);
      queue := queue[..pos] + [song] + queue[pos..];
      if shuffle && shuffleOrder.Some? {
        var order := MakeRoom(shuffleOrder.value, pos);
        order := order + [pos];
        shuffleOrder := Some(order);
      }
      if pos <= queueIndex {
        queueIndex := queueIndex + 1;
      }
      if source.Some? {
        sources := sources[song := source.value];
      }
    }

    // The shuffle order and position without one queue index.
    method DropFromShuffle(index: nat)
      modifies this`shuffleOrder, this`shufflePosition
      ensures shuffleOrder == if shuffle && old(shuffleOrder).Some?
                              then Some(CloseGap(Without(old(shuffleOrder).value, index), index))
                              else old(shuffleOrder)
      ensures shufflePosition == if shuffle && old(shuffleOrder).Some?
                                 then PositionAfterRemoval(old(shuffleOrder).value, index, old(shufflePosition))
                                 else old(shufflePosition)
    {
      hide IndexOf, Without, CloseGap;
      if shuffle && shuffleOrder.Some? {
        var removedPos := FindPosition(shuffleOrder.value, index);
        var order := Without(shuffleOrder.value, index);
        order := CloseGap(order, index);
        shuffleOrder := Some(order);
        if removedPos.Some? && removedPos.value < shufflePosition {
          shufflePosition := if shufflePosition - 1 < 0 then 0 else shufflePosition - 1;
        }
      }
    }

    method QueueRemove(song: SongId)
      modifies this
      ensures State() == RemoveSong(old(State()), song)
    {
      hide IndexOf, Without, CloseGap, RemoveAt, PositionAfterRemoval;
      if song !in queue {
        return;
      }
      var index := IndexOf(queue, song);
      queue := RemoveAt(queue, index);
      DropFromShuffle(index);
      if index < queueIndex {
        queueIndex := queueIndex - 1;
      } else if index == queueIndex {
        var last := if |queue| == 0 then 0 else |queue| - 1;
        queueIndex := if queueIndex < last then queueIndex else last;
      }
      if song in manualNext {
        manualNext := RemoveAt(manualNext, IndexOf(manualNext, song));
      }
      sources := sources - {song};
    }

    method QueueReorder(from: int, to: int)
      modifies this
      ensures State() == Reorder(old(State()), from, to)
    {
      hide Move, Landing, IndexOf;
      if from == to || from == to - 1 {
        return;
      }
      if shuffle && shuffleOrder.Some? {
        var order := shuffleOrder.value;
        if from < 0 || from >= |order| {
          return;
        }
        var insertAt;
        order, insertAt := PopAndInsert(order, from, to);
        shuffleOrder := Some(order);
        if currentSong.Some? && currentSong.value in queue {
          var qi := IndexOf(queue, currentSong.value);
          if qi in order {
            shufflePosition := IndexOf(order, qi);
          }
        }
      } else {
        if from < 0 || from >= |queue| {
          return;
        }
        var insertAt;
        queue, insertAt := PopAndInsert(queue, from, to);
        if from == queueIndex {
          queueIndex := insertAt;
        } else if from < queueIndex <= insertAt {
          queueIndex := queueIndex - 1;
        } else if insertAt <= queueIndex < from {
          queueIndex := queueIndex + 1;
        }
      }
    }
  }

  lemma {:induction false} FirstIsIndexOf<T>(s: seq<T>, x: T, i: nat)
    requires i < |s| && s[i] == x && x !in s[..i]
    ensures IndexOf(s, x) == i
  {
    var j := IndexOf(s, x);
    assert forall k :: 0 <= k < i ==> s[k] in s[..i];
    assert forall k :: 0 <= k < j ==> s[k] in s[..j];
  }
}
