/** The stored row refines a plain list of what plays when, over every run of commands. */
module QueueTheorems {
  import opened Basics
  import opened PlayQueue

  ghost predicate NoDuplicates<T>(s: seq<T>) {
    forall i, j :: 0 <= i < j < |s| ==> s[i] != s[j]
  }

  ghost predicate Indices(order: seq<int>, n: nat) {
    forall i :: 0 <= i < |order| ==> 0 <= order[i] < n
  }

  // A permutation of the indices 0 .. n-1.
  ghost predicate Permutation(order: seq<int>, n: nat) {
    && |order| == n && NoDuplicates(order)
    && Indices(order, n)
    && (forall k :: 0 <= k < n ==> k in order)
  }

  ghost predicate WellFormed(p: Player) {
    NoDuplicates(p.queue) && (Shuffling(p) ==> Permutation(p.shuffleOrder.value, |p.queue|))
  }

  // The weak bounds that every run keeps.
  ghost predicate Bounded(p: Player) {
    && -1 <= p.queueIndex <= |p.queue|
    && 0 <= p.shufflePosition && (Shuffling(p) ==> p.shufflePosition <= |p.shuffleOrder.value|)
  }

  ghost predicate InRange(p: Player) {
    0 <= p.queueIndex < |p.queue|
  }

  // What plays, in order.
  ghost function PlayOrder(p: Player): (s: seq<SongId>)
    requires WellFormed(p)
    ensures |s| == |p.queue|
  {
    if Shuffling(p) then Played(p.queue, p.shuffleOrder.value) else p.queue
  }

  // A queue read in the given order of its indices.
  ghost function Played(queue: seq<SongId>, order: seq<int>): (s: seq<SongId>)
    requires Indices(order, |queue|)
    ensures |s| == |order| && forall i :: 0 <= i < |s| ==> s[i] == queue[order[i]]
  {
    seq(|order|, i requires 0 <= i < |order| => queue[order[i]])
  }

  // ------------------------------------------------ commands, on the row and on the list

  datatype Command =
    | Insert(song: SongId, position: Option<int>, source: Option<Source>)
    | Remove(song: SongId)
    | Shift(from: int, to: int)

  function Apply(p: Player, c: Command): Player {
    match c
    case Insert(song, position, source) => InsertSong(p, song, position, source)
    case Remove(song) => RemoveSong(p, song)
    case Shift(from, to) => Reorder(p, from, to)
  }

  // The same commands on a plain list: a shuffled list only ever grows at its end.
  function ApplyToList(s: seq<SongId>, shuffled: bool, c: Command): seq<SongId> {
    match c
    case Insert(song, position, _) =>
      if song in s then s
      else InsertAt(s, if shuffled then |s| else Clamp(position.GetOr(|s|), |s|), song)
    case Remove(song) =>
      if song in s then RemoveAt(s, IndexOf(s, song)) else s
    case Shift(from, to) =>
      if from == to || from == to - 1 || from < 0 || from >= |s| then s
      else Move(s, from, Landing(from, to, |s|))
  }

  function Run(p: Player, commands: seq<Command>): Player
    decreases |commands|
  {
    if commands == [] then p else Run(Apply(p, commands[0]), commands[1..])
  }

  function RunOnList(s: seq<SongId>, shuffled: bool, commands: seq<Command>): seq<SongId>
    decreases |commands|
  {
    if commands == [] then s else RunOnList(ApplyToList(s, shuffled, commands[0]), shuffled, commands[1..])
  }

  // ------------------------------------------------ moving one element

  // Where the element at k is found after a move.
  function NewPlace(k: int, from: int, to: int): int {
    if k == from then to
    else if from < k <= to then k - 1
    else if to <= k < from then k + 1
    else k
  }

  lemma MovedTo<T>(s: seq<T>, from: nat, to: nat, k: nat)
    requires from < |s| && to < |s| && k < |s|
    ensures 0 <= NewPlace(k, from, to) < |s| && Move(s, from, to)[NewPlace(k, from, to)] == s[k]
  {
  }

  // Moving back restores the list.
  lemma MoveBack<T>(s: seq<T>, from: nat, to: nat)
    requires from < |s| && to < |s|
    ensures |Move(s, from, to)| == |s| && Move(Move(s, from, to), to, from) == s
  {
    var m := Move(s, from, to);
    assert RemoveAt(m, to) == RemoveAt(s, from);
  }

  lemma MoveKeepsElements<T(!new)>(s: seq<T>, from: nat, to: nat)
    requires from < |s| && to < |s|
    ensures forall x :: x in Move(s, from, to) <==> x in s
    ensures NoDuplicates(s) ==> NoDuplicates(Move(s, from, to))
  {
    var m := Move(s, from, to);
    forall x | x in s ensures x in m {
      var k :| 0 <= k < |s| && s[k] == x;
      MovedTo(s, from, to, k);
    }
    forall i | 0 <= i < |m| ensures m[i] == s[NewPlace(i, to, from)] {
      MovedTo(s, from, to, NewPlace(i, to, from));
    }
  }

  lemma {:induction false} UniquePlace<T(!new)>(s: seq<T>, i: nat)
    requires i < |s| && NoDuplicates(s)
    ensures IndexOf(s, s[i]) == i
  {
  }

  lemma RemoveCons(x: int, s: seq<int>, i: nat)
    requires i < |s|
    ensures RemoveAt([x] + s, i + 1) == [x] + RemoveAt(s, i)
  {
  }

  lemma RemoveHead(x: int, s: seq<int>)
    ensures RemoveAt([x] + s, 0) == s
  {
  }

  lemma TailUnique(s: seq<int>)
    requires NoDuplicates(s) && s != []
    ensures NoDuplicates(s[1..]) && s[0] !in s[1..]
  {
  }

  lemma {:induction false} WithoutAbsent(order: seq<int>, index: int)
    requires index !in order
    ensures Without(order, index) == order
  {
    if order != [] {
      WithoutAbsent(order[1..], index);
    }
  }

  lemma {:induction false} WithoutPresent(order: seq<int>, index: int)
    requires NoDuplicates(order) && index in order
    ensures Without(order, index) == RemoveAt(order, IndexOf(order, index))
  {
    var x, rest := order[0], order[1..];
    TailUnique(order);
    hide RemoveAt, NoDuplicates;
    assert order == [x] + rest;
    if x == index {
      WithoutAbsent(rest, index);
      RemoveHead(x, rest);
      assert IndexOf(order, index) == 0;
    } else {
      WithoutPresent(rest, index);
      assert IndexOf(order, index) == 1 + IndexOf(rest, index);
      RemoveCons(x, rest, IndexOf(rest, index));
    }
  }

  // Filtering an index out of an order removes its one occurrence.
  lemma WithoutIsRemoval(order: seq<int>, index: int)
    requires NoDuplicates(order)
    ensures index !in order ==> Without(order, index) == order
    ensures index in order ==> Without(order, index) == RemoveAt(order, IndexOf(order, index))
  {
    if index in order {
      WithoutPresent(order, index);
    } else {
      WithoutAbsent(order, index);
    }
  }

  // ------------------------------------------------ insert

  lemma InsertUnique(s: seq<SongId>, i: nat, x: SongId)
    requires i <= |s| && NoDuplicates(s) && x !in s
    ensures NoDuplicates(InsertAt(s, i, x))
  {
  }

  lemma RoomIsPermutation(order: seq<int>, pos: nat)
    requires Permutation(order, |order|) && pos <= |order|
    ensures Permutation(MakeRoom(order, pos) + [pos], |order| + 1)
  {
    var r := MakeRoom(order, pos) + [pos];
    forall k | 0 <= k < |order| + 1 ensures k in r {
      if k != pos {
        var was := if k > pos then k - 1 else k;
        assert was in order;
        var i :| 0 <= i < |order| && order[i] == was;
        assert r[i] == k;
      } else {
        assert r[|order|] == pos;
      }
    }
  }

  lemma InsertPlayed(queue: seq<SongId>, order: seq<int>, pos: nat, song: SongId)
    requires Permutation(order, |queue|) && pos <= |queue|
    ensures Permutation(MakeRoom(order, pos) + [pos], |queue| + 1)
    ensures Played(InsertAt(queue, pos, song), MakeRoom(order, pos) + [pos]) == Played(queue, order) + [song]
  {
    RoomIsPermutation(order, pos);
  }

  lemma InsertRefines(p: Player, song: SongId, position: Option<int>, source: Option<Source>)
    requires WellFormed(p)
    ensures WellFormed(InsertSong(p, song, position, source))
    ensures PlayOrder(InsertSong(p, song, position, source)) ==
              ApplyToList(PlayOrder(p), Shuffling(p), Insert(song, position, source))
  {
    hide MakeRoom, NoDuplicates, Permutation;
    PlayOrderElements(p, song);
    if song !in p.queue {
      var pos := Clamp(position.GetOr(|p.queue|), |p.queue|);
      InsertUnique(p.queue, pos, song);
      if Shuffling(p) {
        InsertPlayed(p.queue, p.shuffleOrder.value, pos, song);
        InsertAtEnd(PlayOrder(p), song);
      }
    }
  }

  lemma InsertAtEnd(s: seq<SongId>, x: SongId)
    ensures InsertAt(s, |s|, x) == s + [x]
  {
  }

  lemma PlayOrderElements(p: Player, song: SongId)
    requires WellFormed(p)
    ensures song in PlayOrder(p) <==> song in p.queue
    ensures NoDuplicates(PlayOrder(p))
  {
    if Shuffling(p) && song in p.queue {
      var k := IndexOf(p.queue, song);
      assert k in p.shuffleOrder.value;
      var i := IndexOf(p.shuffleOrder.value, k);
      assert PlayOrder(p)[i] == song;
    }
    forall i, j | 0 <= i < j < |p.queue| ensures PlayOrder(p)[i] != PlayOrder(p)[j] {
      if Shuffling(p) {
        var a, b := p.shuffleOrder.value[i], p.shuffleOrder.value[j];
        assert a < b || b < a;
      }
    }
  }

  // ------------------------------------------------ remove

  // Everything but one element of a list without duplicates.
  lemma RestOf(order: seq<int>, at: nat)
    requires at < |order| && NoDuplicates(order)
    ensures NoDuplicates(RemoveAt(order, at)) && order[at] !in RemoveAt(order, at)
    ensures forall x :: x in order && x != order[at] ==> x in RemoveAt(order, at)
    ensures forall x :: x in RemoveAt(order, at) ==> x in order
  {
    var rest := RemoveAt(order, at);
    assert forall i :: 0 <= i < |rest| ==> rest[i] == order[if i < at then i else i + 1];
    forall x | x in order && x != order[at] ensures x in rest {
      var i :| 0 <= i < |order| && order[i] == x;
      assert rest[if i < at then i else i - 1] == x;
    }
  }

  lemma GapCloses(rest: seq<int>, index: nat, n: nat)
    requires |rest| == n && index <= n && NoDuplicates(rest) && index !in rest
    requires forall x :: x in rest ==> 0 <= x <= n
    requires forall k :: 0 <= k <= n && k != index ==> k in rest
    ensures Permutation(CloseGap(rest, index), n)
  {
    var r := CloseGap(rest, index);
    forall i | 0 <= i < |r| ensures 0 <= r[i] < n {
      assert rest[i] in rest;
    }
    forall k | 0 <= k < n ensures k in r {
      var was := if k >= index then k + 1 else k;
      assert was in rest;
      var i :| 0 <= i < |rest| && rest[i] == was;
      assert r[i] == k;
    }
    forall i, j | 0 <= i < j < |r| ensures r[i] != r[j] {
      assert rest[i] in rest && rest[j] in rest && rest[i] != rest[j];
    }
  }

  lemma GapIsPermutation(order: seq<int>, index: nat)
    requires Permutation(order, |order|) && index < |order|
    ensures index in order
    ensures Permutation(CloseGap(RemoveAt(order, IndexOf(order, index)), index), |order| - 1)
  {
    assert index in order;
    var at := IndexOf(order, index);
    var rest := RemoveAt(order, at);
    RestOf(order, at);
    GapCloses(rest, index, |order| - 1);
  }

  // Reading the shortened queue at a closed-up index gives what the longer queue had there.
  lemma ClosedUp(queue: seq<SongId>, index: nat, o: int)
    requires index < |queue| && 0 <= o < |queue| && o != index
    ensures RemoveAt(queue, index)[if o > index then o - 1 else o] == queue[o]
  {
  }

  lemma GapPlayed(queue: seq<SongId>, order: seq<int>, index: nat, at: nat)
    requires index < |queue| && at < |order| && Indices(order, |queue|)
    requires index !in RemoveAt(order, at) && Indices(CloseGap(RemoveAt(order, at), index), |queue| - 1)
    ensures Played(RemoveAt(queue, index), CloseGap(RemoveAt(order, at), index)) == RemoveAt(Played(queue, order), at)
  {
    var rest := RemoveAt(order, at);
    var played, played' := RemoveAt(Played(queue, order), at), Played(RemoveAt(queue, index), CloseGap(rest, index));
    forall i | 0 <= i < |rest| ensures played'[i] == played[i] {
      var was := if i < at then i else i + 1;
      assert rest[i] == order[was] && rest[i] in rest;
      assert played[i] == Played(queue, order)[was];
      ClosedUp(queue, index, rest[i]);
    }
  }

  lemma RemovePlayed(queue: seq<SongId>, order: seq<int>, index: nat)
    requires Permutation(order, |queue|) && index < |queue|
    ensures index in order
    ensures var at := IndexOf(order, index);
            && Permutation(CloseGap(RemoveAt(order, at), index), |queue| - 1)
            && Played(RemoveAt(queue, index), CloseGap(RemoveAt(order, at), index)) ==
                   RemoveAt(Played(queue, order), at)
  {
    GapIsPermutation(order, index);
    var at := IndexOf(order, index);
    RestOf(order, at);
    hide NoDuplicates, RemoveAt, Indices;
    GapPlayed(queue, order, index, at);
  }

  lemma RemoveUnique(s: seq<SongId>, i: nat)
    requires i < |s| && NoDuplicates(s)
    ensures NoDuplicates(RemoveAt(s, i))
  {
  }

  // Where a song stands in the shuffle order is where it plays.
  lemma RemovedFrom(p: Player, song: SongId)
    requires WellFormed(p) && Shuffling(p) && song in p.queue
    ensures var order, index := p.shuffleOrder.value, IndexOf(p.queue, song);
            && index in order
            && Without(order, index) == RemoveAt(order, IndexOf(order, index))
            && PlayOrder(p)[IndexOf(order, index)] == song
            && song in PlayOrder(p) && IndexOf(PlayOrder(p), song) == IndexOf(order, index)
  {
    var order, index := p.shuffleOrder.value, IndexOf(p.queue, song);
    PlayOrderElements(p, song);
    WithoutIsRemoval(order, index);
    assert index in order;
    var at := IndexOf(order, index);
    hide NoDuplicates, Without, RemoveAt;
    assert PlayOrder(p)[at] == song;
    UniquePlace(PlayOrder(p), at);
  }

  lemma ShuffledRemoveRefines(p: Player, song: SongId)
    requires WellFormed(p) && Shuffling(p) && song in p.queue
    ensures WellFormed(RemoveSong(p, song))
    ensures PlayOrder(RemoveSong(p, song)) == RemoveAt(PlayOrder(p), IndexOf(PlayOrder(p), song))
    ensures song in PlayOrder(p)
  {
    var order, index := p.shuffleOrder.value, IndexOf(p.queue, song);
    RemovedFrom(p, song);
    RemoveUnique(p.queue, index);
    RemovePlayed(p.queue, order, index);
    hide CloseGap, Without, IndexAfterRemoval, PositionAfterRemoval, NoDuplicates, Permutation;
  }

  lemma RemoveRefines(p: Player, song: SongId)
    requires WellFormed(p)
    ensures WellFormed(RemoveSong(p, song))
    ensures PlayOrder(RemoveSong(p, song)) == ApplyToList(PlayOrder(p), Shuffling(p), Remove(song))
  {
    PlayOrderElements(p, song);
    if song in p.queue {
      if Shuffling(p) {
        hide WellFormed, RemoveSong, PlayOrder, RemoveAt, IndexOf;
        ShuffledRemoveRefines(p, song);
      } else {
        hide CloseGap, Without, IndexAfterRemoval, PositionAfterRemoval;
        RemoveUnique(p.queue, IndexOf(p.queue, song));
      }
    }
  }

  // ------------------------------------------------ reorder

  lemma MovePlayed(queue: seq<SongId>, order: seq<int>, from: nat, to: nat)
    requires Permutation(order, |queue|) && from < |queue| && to < |queue|
    ensures Permutation(Move(order, from, to), |queue|)
    ensures Played(queue, Move(order, from, to)) == Move(Played(queue, order), from, to)
  {
    MoveKeepsElements(order, from, to);
    var moved := Move(order, from, to);
    forall i | 0 <= i < |moved| ensures 0 <= moved[i] < |queue| {
      assert moved[i] in moved;
    }
  }

  lemma ReorderRefines(p: Player, from: int, to: int)
    requires WellFormed(p)
    ensures WellFormed(Reorder(p, from, to))
    ensures PlayOrder(Reorder(p, from, to)) == ApplyToList(PlayOrder(p), Shuffling(p), Shift(from, to))
    ensures Shuffling(p) ==> Reorder(p, from, to).queue == p.queue
  {
    hide Move, NoDuplicates;
    if from != to && from != to - 1 && 0 <= from < |p.queue| {
      var at := Landing(from, to, |p.queue|);
      if Shuffling(p) {
        MovePlayed(p.queue, p.shuffleOrder.value, from, at);
      } else {
        MoveKeepsElements(p.queue, from, at);
        MoveBack(p.queue, from, at);
      }
    }
  }

  // ------------------------------------------------ whole runs

  lemma ApplyRefines(p: Player, c: Command)
    requires WellFormed(p)
    ensures WellFormed(Apply(p, c)) && Shuffling(Apply(p, c)) == Shuffling(p)
    ensures PlayOrder(Apply(p, c)) == ApplyToList(PlayOrder(p), Shuffling(p), c)
  {
    match c
    case Insert(song, position, source) => InsertRefines(p, song, position, source);
    case Remove(song) => RemoveRefines(p, song);
    case Shift(from, to) => ReorderRefines(p, from, to);
  }

  // However the row is edited, the shuffle order stays a permutation of the queue's indices and
  // what plays is what the same commands make of a plain list.
  lemma {:induction false} RunRefines(p: Player, commands: seq<Command>)
    requires WellFormed(p)
    ensures WellFormed(Run(p, commands))
    ensures PlayOrder(Run(p, commands)) == RunOnList(PlayOrder(p), Shuffling(p), commands)
    decreases |commands|
  {
    if commands != [] {
      ApplyRefines(p, commands[0]);
      RunRefines(Apply(p, commands[0]), commands[1..]);
    }
  }

  lemma ApplyBounded(p: Player, c: Command)
    requires WellFormed(p) && Bounded(p)
    ensures Bounded(Apply(p, c))
  {
    match c
    case Insert(song, position, source) =>
    case Remove(song) =>
      if song in p.queue && Shuffling(p) {
        var order, index := p.shuffleOrder.value, IndexOf(p.queue, song);
        WithoutIsRemoval(order, index);
        assert index in order;
      }
    case Shift(from, to) =>
  }

  // The bounds hold in every state a run reaches.
  lemma {:induction false} RunBounded(p: Player, commands: seq<Command>)
    requires WellFormed(p) && Bounded(p)
    ensures Bounded(Run(p, commands))
    decreases |commands|
  {
    if commands != [] {
      ApplyBounded(p, commands[0]);
      ApplyRefines(p, commands[0]);
      RunBounded(Apply(p, commands[0]), commands[1..]);
    }
  }

  // ------------------------------------------------ the current song

  ghost function Current(p: Player): SongId
    requires InRange(p)
  {
    p.queue[p.queueIndex]
  }

  lemma InsertFollows(p: Player, song: SongId, position: Option<int>, source: Option<Source>)
    requires InRange(p)
    ensures var q := InsertSong(p, song, position, source); InRange(q) && Current(q) == Current(p)
  {
    hide MakeRoom;
  }

  lemma RemoveFollows(p: Player, song: SongId)
    requires InRange(p)
    ensures var q := RemoveSong(p, song);
            && (InRange(q) <==> p.queue != [song])
            && (song != Current(p) ==> InRange(q) && Current(q) == Current(p))
  {
    hide Without, CloseGap, PositionAfterRemoval;
  }

  lemma ReorderFollows(p: Player, from: int, to: int)
    requires InRange(p)
    ensures var q := Reorder(p, from, to); InRange(q) && Current(q) == Current(p)
  {
    hide Move;
    if !Shuffling(p) && from != to && from != to - 1 && 0 <= from < |p.queue| {
      var at := Landing(from, to, |p.queue|);
      MovedTo(p.queue, from, at, p.queueIndex);
      MoveBack(p.queue, from, at);
    }
  }

  // The command takes the one song that is left.
  predicate TakesLast(p: Player, c: Command) {
    c.Remove? && p.queue == [c.song]
  }

  // Without a removal of the current song itself the index follows it; the index stays in
  // range if and only if the command does not take the last song.
  lemma CurrentFollows(p: Player, c: Command)
    requires InRange(p)
    ensures InRange(Apply(p, c)) <==> !TakesLast(p, c)
    ensures c != Remove(Current(p)) ==> InRange(Apply(p, c)) && Current(Apply(p, c)) == Current(p)
  {
    match c
    case Insert(song, position, source) =>
      InsertFollows(p, song, position, source);
    case Remove(song) =>
      RemoveFollows(p, song);
    case Shift(from, to) =>
      ReorderFollows(p, from, to);
  }

  ghost predicate NeverTakesLast(p: Player, commands: seq<Command>)
    decreases |commands|
  {
    commands == [] || (!TakesLast(p, commands[0]) && NeverTakesLast(Apply(p, commands[0]), commands[1..]))
  }

  ghost predicate EverInRange(p: Player, commands: seq<Command>)
    decreases |commands|
  {
    InRange(p) && (commands == [] || EverInRange(Apply(p, commands[0]), commands[1..]))
  }

  // Over a whole run the index is in range at every moment if and only if the last song is
  // never taken.
  lemma {:induction false} InRangeIff(p: Player, commands: seq<Command>)
    requires InRange(p)
    ensures EverInRange(p, commands) <==> NeverTakesLast(p, commands)
    decreases |commands|
  {
    if commands != [] {
      CurrentFollows(p, commands[0]);
      if !TakesLast(p, commands[0]) {
        InRangeIff(Apply(p, commands[0]), commands[1..]);
      }
    }
  }

  // The song is current at every moment of the run.
  ghost predicate StaysCurrent(p: Player, song: SongId, commands: seq<Command>)
    decreases |commands|
  {
    && InRange(p) && Current(p) == song
    && (commands == [] || StaysCurrent(Apply(p, commands[0]), song, commands[1..]))
  }

  lemma RemovedIsNotCurrent(p: Player, song: SongId)
    requires WellFormed(p)
    ensures song !in RemoveSong(p, song).queue
  {
    if song in p.queue {
      var i := IndexOf(p.queue, song);
      assert forall k :: 0 <= k < |p.queue| && k != i ==> p.queue[k] != song;
    }
  }

  // Over whole runs the current song stays current if and only if it is never removed.
  lemma {:induction false} StaysCurrentIff(p: Player, commands: seq<Command>)
    requires WellFormed(p) && InRange(p)
    ensures StaysCurrent(p, Current(p), commands) <==> Remove(Current(p)) !in commands
    decreases |commands|
  {
    if commands != [] {
      var c, rest := commands[0], commands[1..];
      assert commands == [c] + rest;
      ApplyRefines(p, c);
      CurrentFollows(p, c);
      if c == Remove(Current(p)) {
        RemovedIsNotCurrent(p, Current(p));
      } else {
        hide WellFormed, InRange, Current, Apply;
        StaysCurrentIff(Apply(p, c), rest);
      }
    }
  }

  // So a run that never removes it ends with it current.
  lemma {:induction false} CurrentSurvivesRun(p: Player, commands: seq<Command>)
    requires WellFormed(p) && InRange(p) && Remove(Current(p)) !in commands
    ensures InRange(Run(p, commands)) && Current(Run(p, commands)) == Current(p)
    decreases |commands|
  {
    if commands != [] {
      ApplyRefines(p, commands[0]);
      CurrentFollows(p, commands[0]);
      CurrentSurvivesRun(Apply(p, commands[0]), commands[1..]);
    }
  }

  // Removing the last song and inserting another leaves the index one past the queue.
  lemma EmptiedQueueOverruns(song: SongId, other: SongId)
    requires song != other
    ensures var p := Player(false, [song], 0, None, 0, [], None, map[]);
            var q := Run(p, [Remove(song), Insert(other, None, None)]);
            InRange(p) && !InRange(q) && Bounded(q) && q.queue == [other] && q.queueIndex == 1
  {
    var p := Player(false, [song], 0, None, 0, [], None, map[]);
    var cs := [Remove(song), Insert(other, None, None)];
    assert cs[1..] == [Insert(other, None, None)];
    var a := RemoveSong(p, song);
    assert IndexOf(p.queue, song) == 0;
    assert a.queue == [] && a.queueIndex == 0;
    var b := InsertSong(a, other, None, None);
    assert b.queue == [other];
    assert Run(a, cs[1..]) == Run(b, []);
  }

  ghost function AtShufflePosition(p: Player): SongId
    requires WellFormed(p) && 0 <= p.shufflePosition < |p.queue|
  {
    PlayOrder(p)[p.shufflePosition]
  }

  lemma ShuffledInsertFollows(p: Player, song: SongId, position: Option<int>, source: Option<Source>)
    requires WellFormed(p) && Shuffling(p) && 0 <= p.shufflePosition < |p.queue|
    ensures var q := InsertSong(p, song, position, source);
            WellFormed(q) && q.shufflePosition < |q.queue| && AtShufflePosition(q) == AtShufflePosition(p)
  {
    InsertRefines(p, song, position, source);
    hide NoDuplicates, Permutation, MakeRoom;
  }

  // What stands at another place is found after a removal, one place earlier if behind it.
  lemma PlaceAfterRemoval<T>(s: seq<T>, at: nat, pos: nat)
    requires at < |s| && pos < |s| && at != pos
    ensures var now := if at < pos then pos - 1 else pos;
            |RemoveAt(s, at)| == |s| - 1 && now < |s| - 1 && RemoveAt(s, at)[now] == s[pos]
  {
  }

  lemma PositionFollows(p: Player, song: SongId)
    requires WellFormed(p) && Shuffling(p) && song in p.queue
    ensures var order, index := p.shuffleOrder.value, IndexOf(p.queue, song);
            && index in order
            && RemoveSong(p, song).shufflePosition == PositionAfterRemoval(order, index, p.shufflePosition)
  {
    RemovedFrom(p, song);
    hide CloseGap, Without, IndexAfterRemoval, PositionAfterRemoval, IndexOf, RemoveAt;
  }

  lemma QueuedRemoveFollows(p: Player, song: SongId)
    requires WellFormed(p) && Shuffling(p) && 0 <= p.shufflePosition < |p.queue| && song != AtShufflePosition(p)
    requires song in p.queue
    ensures var q := RemoveSong(p, song);
            WellFormed(q) && 0 <= q.shufflePosition < |q.queue| && AtShufflePosition(q) == AtShufflePosition(p)
  {
    hide WellFormed, RemoveSong, RemoveAt, IndexOf, PlayOrder, InRange;
    RemovedFrom(p, song);
    PositionFollows(p, song);
    ShuffledRemoveRefines(p, song);
    var at, pos := IndexOf(p.shuffleOrder.value, IndexOf(p.queue, song)), p.shufflePosition;
    PlaceAfterRemoval(PlayOrder(p), at, pos);
    var q := RemoveSong(p, song);
    assert q.shufflePosition == if at < pos then pos - 1 else pos;
    assert |q.queue| == |PlayOrder(q)|;
  }

  lemma ShuffledRemoveFollows(p: Player, song: SongId)
    requires WellFormed(p) && Shuffling(p) && 0 <= p.shufflePosition < |p.queue| && song != AtShufflePosition(p)
    ensures var q := RemoveSong(p, song);
            WellFormed(q) && 0 <= q.shufflePosition < |q.queue| && AtShufflePosition(q) == AtShufflePosition(p)
  {
    if song in p.queue {
      hide WellFormed, RemoveSong, AtShufflePosition;
      QueuedRemoveFollows(p, song);
    } else {
      assert RemoveSong(p, song) == p;
    }
  }

  // The reorder is one that moves something.
  predicate Moves(from: int, to: int, length: nat) {
    from != to && from != to - 1 && 0 <= from < length
  }

  lemma ShuffledReorderFollows(p: Player, from: int, to: int)
    requires WellFormed(p) && Shuffling(p) && 0 <= p.shufflePosition < |p.queue|
    requires p.currentSong.Some? && p.currentSong.value in p.queue && Moves(from, to, |p.queue|)
    ensures var q := Reorder(p, from, to);
            WellFormed(q) && 0 <= q.shufflePosition < |q.queue| && AtShufflePosition(q) == p.currentSong.value
  {
    ReorderRefines(p, from, to);
    var order, qi := p.shuffleOrder.value, IndexOf(p.queue, p.currentSong.value);
    assert qi in order;
    MoveKeepsElements(order, from, Landing(from, to, |order|));
    hide Move, NoDuplicates;
  }

  // With shuffle on, insertion and the removal of another song keep what plays at the shuffle
  // position, and a reorder puts the current song there.
  lemma ShuffleCurrentFollows(p: Player, c: Command)
    requires WellFormed(p) && Shuffling(p) && 0 <= p.shufflePosition < |p.queue|
    ensures WellFormed(Apply(p, c))
    ensures c.Insert? || (c.Remove? && c.song != AtShufflePosition(p)) ==>
              0 <= Apply(p, c).shufflePosition < |Apply(p, c).queue| &&
                  AtShufflePosition(Apply(p, c)) == AtShufflePosition(p)
    ensures c.Shift? && p.currentSong.Some? && p.currentSong.value in p.queue && Moves(c.from, c.to, |p.queue|) ==>
              0 <= Apply(p, c).shufflePosition < |Apply(p, c).queue| &&
                  AtShufflePosition(Apply(p, c)) == p.currentSong.value
  {
    ApplyRefines(p, c);
    hide WellFormed, InsertSong, RemoveSong, Reorder, AtShufflePosition;
    match c
    case Insert(song, position, source) =>
      ShuffledInsertFollows(p, song, position, source);
    case Remove(song) =>
      if song != AtShufflePosition(p) {
        ShuffledRemoveFollows(p, song);
      }
    case Shift(from, to) =>
      if p.currentSong.Some? && p.currentSong.value in p.queue && Moves(from, to, |p.queue|) {
        ShuffledReorderFollows(p, from, to);
      }
  }

  // The song plays at the shuffle position, and is recorded as current.
  ghost predicate PlaysShuffled(p: Player, song: SongId) {
    && WellFormed(p) && Shuffling(p) && 0 <= p.shufflePosition < |p.queue|
    && AtShufflePosition(p) == song && p.currentSong == Some(song)
  }

  lemma PlaysShuffledOneMore(p: Player, song: SongId, c: Command)
    requires PlaysShuffled(p, song) && c != Remove(song)
    ensures PlaysShuffled(Apply(p, c), song)
  {
    ApplyRefines(p, c);
    ShuffleCurrentFollows(p, c);
    KeepsRecorded(p, c);
    assert song in p.queue by {
      PlayOrderElements(p, song);
      assert PlayOrder(p)[p.shufflePosition] == song;
    }
    hide WellFormed, InsertSong, RemoveSong, AtShufflePosition;
  }

  lemma KeepsRecorded(p: Player, c: Command)
    ensures Apply(p, c).currentSong == p.currentSong
    ensures c.Shift? && !Moves(c.from, c.to, |p.queue|) && (Shuffling(p) ==> |p.shuffleOrder.value| == |p.queue|) ==>
              Apply(p, c) == p
  {
  }

  ghost predicate StaysShuffled(p: Player, song: SongId, commands: seq<Command>)
    decreases |commands|
  {
    PlaysShuffled(p, song) && (commands == [] || StaysShuffled(Apply(p, commands[0]), song, commands[1..]))
  }

  // Over whole runs with shuffle on, the song that plays at the shuffle position and is recorded
  // as current stays there if and only if it is never removed.
  lemma {:induction false} StaysShuffledIff(p: Player, song: SongId, commands: seq<Command>)
    requires PlaysShuffled(p, song)
    ensures StaysShuffled(p, song, commands) <==> Remove(song) !in commands
    decreases |commands|
  {
    if commands != [] {
      var c, rest := commands[0], commands[1..];
      assert commands == [c] + rest;
      if c == Remove(song) {
        RemovedIsNotPlayed(p, song);
      } else {
        PlaysShuffledOneMore(p, song, c);
        hide PlaysShuffled, Apply;
        StaysShuffledIff(Apply(p, c), song, rest);
      }
    }
  }

  lemma RemovedIsNotPlayed(p: Player, song: SongId)
    requires WellFormed(p)
    ensures !PlaysShuffled(RemoveSong(p, song), song)
  {
    RemovedIsNotCurrent(p, song);
    var q := RemoveSong(p, song);
    hide RemoveSong;
    if WellFormed(q) && Shuffling(q) && 0 <= q.shufflePosition < |q.queue| {
      PlayOrderElements(q, song);
      assert PlayOrder(q)[q.shufflePosition] in PlayOrder(q);
    }
  }

  // ------------------------------------------------ round trips

  lemma RoomThenGap(order: seq<int>, pos: nat)
    ensures CloseGap(Without(MakeRoom(order, pos) + [pos], pos), pos) == order
  {
    WithoutLast(MakeRoom(order, pos), pos);
  }

  lemma {:induction false} WithoutLast(order: seq<int>, x: int)
    requires x !in order
    ensures Without(order + [x], x) == order
  {
    if order == [] {
      assert order + [x] == [x];
    } else {
      assert (order + [x])[1..] == order[1..] + [x];
      WithoutLast(order[1..], x);
    }
  }

  lemma QueueRestored(queue: seq<SongId>, pos: nat, song: SongId)
    requires song !in queue && pos <= |queue|
    ensures var q := InsertAt(queue, pos, song);
            song in q && IndexOf(q, song) == pos && RemoveAt(q, pos) == queue
  {
    var q := InsertAt(queue, pos, song);
    assert q[pos] == song && q[..pos] == queue[..pos];
    FirstIsIndexOf(q, song, pos);
  }

  lemma OrderRestored(order: seq<int>, pos: nat, position: int)
    requires position <= |order|
    ensures CloseGap(Without(MakeRoom(order, pos) + [pos], pos), pos) == order
    ensures PositionAfterRemoval(MakeRoom(order, pos) + [pos], pos, position) == position
  {
    RoomThenGap(order, pos);
    var room := MakeRoom(order, pos);
    assert pos !in room;
    assert (room + [pos])[..|order|] == room;
    FirstIsIndexOf(room + [pos], pos, |order|);
  }

  lemma LeftoversRemoved(manual: seq<SongId>, sources: map<SongId, Source>, added: map<SongId, Source>, song: SongId)
    requires forall x :: x != song ==> (x in added <==> x in sources) && (x in sources ==> added[x] == sources[x])
    ensures (if song in manual then RemoveAt(manual, IndexOf(manual, song)) else manual) == manual <==> song !in manual
    ensures added - {song} == sources <==> song !in sources
  {
    if song in manual {
      assert |RemoveAt(manual, IndexOf(manual, song))| < |manual|;
    }
    if song !in sources {
      assert added - {song} == sources;
    } else {
      assert song !in added - {song};
    }
  }

  // Inserting a new song and removing it again gives the row back, whatever the position asked
  // for, if and only if the song was not left over in the manual list or the sources.
  lemma InsertRemoveRoundTrip(p: Player, song: SongId, position: Option<int>, source: Option<Source>)
    requires song !in p.queue && (Shuffling(p) ==> p.shufflePosition <= |p.shuffleOrder.value|)
    ensures var q := RemoveSong(InsertSong(p, song, position, source), song);
            && q.queue == p.queue && q.shuffleOrder == p.shuffleOrder
            && q.queueIndex == p.queueIndex && q.shufflePosition == p.shufflePosition
            && (q == p <==> song !in p.manualNext && song !in p.sources)
  {
    var pos := Clamp(position.GetOr(|p.queue|), |p.queue|);
    var i := InsertSong(p, song, position, source);
    QueueRestored(p.queue, pos, song);
    if Shuffling(p) {
      OrderRestored(p.shuffleOrder.value, pos, p.shufflePosition);
    }
    LeftoversRemoved(p.manualNext, p.sources, i.sources, song);
    hide Without, CloseGap, MakeRoom, PositionAfterRemoval, IndexOf, RemoveAt, InsertAt;
  }

  // The request that takes a reordered song back to where it was.
  function BackFrom(from: int, at: int): int {
    if from > at then from + 1 else from
  }

  // The index moves along with the element it points at, and back.
  lemma NewPlaceBack(k: int, from: int, at: int)
    ensures NewPlace(NewPlace(k, from, at), at, from) == k
  {
  }

  // A reorder that acts, in terms of where things land.
  lemma ReorderActs(p: Player, from: int, to: int)
    requires from != to && from != to - 1
    requires 0 <= from < |p.queue| && (Shuffling(p) ==> |p.shuffleOrder.value| == |p.queue|)
    ensures var at, q := Landing(from, to, |p.queue|), Reorder(p, from, to);
            && q.shuffle == p.shuffle
            && (if Shuffling(p)
                then
                  && q.queue == p.queue && q.queueIndex == p.queueIndex
                  && q.shuffleOrder == Some(Move(p.shuffleOrder.value, from, at))
                else
                  && q.shuffleOrder == p.shuffleOrder && q.queue == Move(p.queue, from, at)
                  && q.queueIndex == NewPlace(p.queueIndex, from, at))
  {
    hide Move;
  }

  lemma MoveNowhere<T>(s: seq<T>, i: nat)
    requires i < |s|
    ensures Move(s, i, i) == s
  {
  }

  // A reorder is undone by moving the song back: queue, order and index are restored.
  lemma ReorderRoundTrip(p: Player, from: int, to: int)
    requires WellFormed(p) && Moves(from, to, |p.queue|)
    ensures var at := Landing(from, to, |p.queue|);
            var q := Reorder(Reorder(p, from, to), at, BackFrom(from, at));
            q.queue == p.queue && q.shuffleOrder == p.shuffleOrder && q.queueIndex == p.queueIndex
  {
    hide Move, NewPlace, NoDuplicates;
    var at := Landing(from, to, |p.queue|);
    ReorderActs(p, from, to);
    var r := Reorder(p, from, to);
    if Shuffling(p) {
      MoveBack(p.shuffleOrder.value, from, at);
      MoveNowhere(p.shuffleOrder.value, from);
    } else {
      MoveBack(p.queue, from, at);
      MoveNowhere(p.queue, from);
      NewPlaceBack(p.queueIndex, from, at);
    }
    if at == from {
      NothingMoved(p.queueIndex, from);
      assert Reorder(r, at, BackFrom(from, at)) == r;
    } else {
      hide Reorder;
      ReorderActs(r, at, BackFrom(from, at));
      assert Landing(at, BackFrom(from, at), |p.queue|) == from;
    }
  }

  lemma NothingMoved(k: int, i: int)
    ensures NewPlace(k, i, i) == k
  {
  }
}
